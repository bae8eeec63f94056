/**
 The command loop of `main` in mid_project/chat.c: `fgets` into a 1024-byte buffer, removal of the
 newline, and a dispatcher that cuts the line in place with `strtok` (section 7.24.5.8 of ISO C11)
 and reads numbers with `atoi` (section 7.22.1.2).
 */
module CommandLine {
  import opened Text
  import opened StrUtils

  const BUFFER_SIZE: nat := 1024

  datatype Command =
    | Nothing
    | Help
    | MyIp
    | MyPort
    | List
    | Exit
    | Connect(ip: seq<char>, port: int)
    | Terminate(id: int)
    | Send(id: int, msg: seq<char>)
    | Usage(name: seq<char>)
    | Unknown(name: seq<char>)

  // ----- Tokens -----

  /** From position `k`, passes over the characters that are (`inside`) or are not in `delims`. */
  function Pass(s: seq<char>, k: nat, delims: set<char>, inside: bool): (e: nat)
    requires k <= |s|
    ensures k <= e <= |s|
    decreases |s| - k
  {
    if k < |s| && (s[k] in delims) == inside then Pass(s, k + 1, delims, inside) else k
  }

  /** What a call of `strtok` finds: a token, and the text its saved pointer is left at. */
  datatype Found = NoToken | Token(text: seq<char>, rest: seq<char>)

  function NextToken(s: seq<char>, delims: set<char>): Found {
    var k := Pass(s, 0, delims, true);
    if k == |s| then NoToken
    else
      var e := Pass(s, k, delims, false);
      Token(s[k..e], if e < |s| then s[e + 1..] else [])
  }

  function Atoi(s: seq<char>): int {
    var ds := s[Body(s)..];
    var m := Value(ds[..DigitRun(ds)]);
    if Negative(s) then 0 - m else m
  }

  const SPACE: set<char> := {' '}

  datatype Verb = VHelp | VMyIp | VMyPort | VConnect | VList | VTerminate | VSend | VExit | VNone

  /** The chain of `strcmp` calls. */
  function VerbOf(cmd: seq<char>): Verb {
    if cmd == "help" then VHelp
    else if cmd == "myip" then VMyIp
    else if cmd == "myport" then VMyPort
    else if cmd == "connect" then VConnect
    else if cmd == "list" then VList
    else if cmd == "terminate" then VTerminate
    else if cmd == "send" then VSend
    else if cmd == "exit" then VExit
    else VNone
  }

  function DispatchConnect(cmd: seq<char>, rest: seq<char>): Command {
    match NextToken(rest, SPACE)
    case NoToken => Usage(cmd)
    case Token(ip, rest') =>
      match NextToken(rest', SPACE)
      case NoToken => Usage(cmd)
      case Token(port, _) => Connect(ip, Atoi(port))
  }

  function DispatchTerminate(cmd: seq<char>, rest: seq<char>): Command {
    match NextToken(rest, SPACE)
    case NoToken => Usage(cmd)
    case Token(id, _) => Terminate(Atoi(id))
  }

  function DispatchSend(cmd: seq<char>, rest: seq<char>): Command {
    match NextToken(rest, SPACE)
    case NoToken => Usage(cmd)
    case Token(id, rest') =>
      match NextToken(rest', {})
      case NoToken => Usage(cmd)
      case Token(msg, _) => Send(Atoi(id), msg)
  }

  function DispatchVerb(verb: Verb, cmd: seq<char>, rest: seq<char>): Command {
    match verb
    case VHelp => Help
    case VMyIp => MyIp
    case VMyPort => MyPort
    case VConnect => DispatchConnect(cmd, rest)
    case VList => List
    case VTerminate => DispatchTerminate(cmd, rest)
    case VSend => DispatchSend(cmd, rest)
    case VExit => Exit
    case VNone => Unknown(cmd)
  }

  function Dispatch(line: seq<char>): Command {
    match NextToken(line, SPACE)
    case NoToken => Nothing
    case Token(cmd, rest) =>
      DispatchVerb(VerbOf(cmd), cmd, rest)
  }

  // ----- Reading a line -----

  /** How many characters `fgets` takes: up to and including a newline, at most 1023. */
  function LineLength(input: seq<char>, room: nat): (n: nat)
    ensures n <= |input| && n <= room && (input != [] && room > 0 ==> n > 0)
    ensures '\n' !in input[..n] || (n > 0 && input[n - 1] == '\n' && '\n' !in input[..n - 1])
  {
    if input == [] || room == 0 then 0
    else if input[0] == '\n' then 1
    else 1 + LineLength(input[1..], room - 1)
  }

  function Chop(s: seq<char>): seq<char> {
    if s != [] && s[|s| - 1] == '\n' then s[..|s| - 1] else s
  }

  /** The string that `fgets` leaves in the buffer; a NUL in the input ends it early. */
  function LineOf(input: seq<char>): seq<char> {
    Str(input[..LineLength(input, BUFFER_SIZE - 1)] + [NUL])
  }

  /** The command obtained from what is waiting on standard input; its end means exit. */
  function NextCommand(input: seq<char>): Command {
    if input == [] then Exit else Dispatch(Chop(LineOf(input)))
  }

  /** What is still waiting after that line was read. */
  function RestOf(input: seq<char>): (rest: seq<char>)
    ensures input != [] ==> |rest| < |input|
  {
    input[LineLength(input, BUFFER_SIZE - 1)..]
  }

  /** The commands that the loop obtains, up to the one that ends the program. */
  function Session(input: seq<char>): seq<Command>
    decreases |input|
  {
    var c := NextCommand(input);
    if c == Exit then [Exit] else [c] + Session(RestOf(input))
  }

  // ----- Printing -----

  predicate IsWord(w: seq<char>) {
    w != [] && ' ' !in w && '\n' !in w && NUL !in w
  }

  predicate IsMessage(m: seq<char>) {
    m != [] && '\n' !in m && NUL !in m
  }

  predicate Printable(c: Command) {
    match c
    case Connect(ip, port) => IsWord(ip) && 0 <= port <= INT_MAX
    case Terminate(id) => 0 <= id <= INT_MAX
    case Send(id, msg) => 0 <= id <= INT_MAX && IsMessage(msg)
    case Nothing => false
    case Usage(_) => false
    case Unknown(_) => false
    case _ => true
  }

  function Print(c: Command): seq<char>
    requires Printable(c)
  {
    match c
    case Help => "help"
    case MyIp => "myip"
    case MyPort => "myport"
    case List => "list"
    case Exit => "exit"
    case Connect(ip, port) => "connect" + (" " + (ip + (" " + Digits(port))))
    case Terminate(id) => "terminate" + (" " + Digits(id))
    case Send(id, msg) => "send" + (" " + (Digits(id) + (" " + msg)))
  }

  // ----- The dispatcher undoes the printer -----

  lemma {:induction false} PassIs(s: seq<char>, k: nat, delims: set<char>, inside: bool, e: nat)
    requires k <= e <= |s| && (forall i :: k <= i < e ==> (s[i] in delims) == inside)
    requires e < |s| ==> (s[e] in delims) != inside
    ensures Pass(s, k, delims, inside) == e
    decreases e - k
  {
    if k < e {
      PassIs(s, k + 1, delims, inside, e);
    }
  }

  lemma {:induction false} PassShape(s: seq<char>, k: nat, delims: set<char>, inside: bool)
    requires k <= |s|
    ensures var e := Pass(s, k, delims, inside);
            && (forall i :: k <= i < e ==> (s[i] in delims) == inside)
            && (e < |s| ==> (s[e] in delims) != inside)
    decreases |s| - k
  {
    if k < |s| && (s[k] in delims) == inside {
      PassShape(s, k + 1, delims, inside);
    }
  }

  predicate SendLine(line: seq<char>, b1: seq<char>, b2: seq<char>, w: seq<char>, msg: seq<char>) {
    && Blank(b1) && Blank(b2) && w != [] && ' ' !in w
    && line == b1 + ("send" + (" " + (b2 + (w + (" " + msg)))))
  }

  predicate Blank(b: seq<char>) {
    forall k :: 0 <= k < |b| ==> b[k] == ' '
  }

  lemma TokenAt(s: seq<char>, delims: set<char>, k: nat, e: nat)
    requires k < e <= |s|
    requires forall i :: 0 <= i < k ==> s[i] in delims
    requires forall i :: k <= i < e ==> s[i] !in delims
    requires e < |s| ==> s[e] in delims
    ensures NextToken(s, delims) == Token(s[k..e], if e < |s| then s[e + 1..] else [])
  {
    PassIs(s, 0, delims, true, k);
    PassIs(s, k, delims, false, e);
  }

  lemma WordPlace(s: seq<char>, b: seq<char>, w: seq<char>, rest: seq<char>)
    requires s == b + (w + (" " + rest))
    ensures var e := |b| + |w|; e < |s| && s[e] == ' ' && s[..|b|] == b && s[|b|..e] == w && s[e + 1..] == rest
  {
  }

  lemma WordAt(s: seq<char>, k: nat, e: nat)
    requires k < e < |s| && Blank(s[..k]) && ' ' !in s[k..e] && s[e] == ' '
    ensures NextToken(s, SPACE) == Token(s[k..e], s[e + 1..])
  {
    forall i | 0 <= i < k ensures s[i] in SPACE {
      assert s[i] == s[..k][i];
    }
    forall i | k <= i < e ensures s[i] !in SPACE {
      assert s[i] == s[k..e][i - k];
    }
    TokenAt(s, SPACE, k, e);
  }

  /** A word after blanks is cut off at the blank behind it. */
  lemma TokenOf(s: seq<char>, b: seq<char>, w: seq<char>, rest: seq<char>)
    requires s == b + (w + (" " + rest)) && Blank(b) && w != [] && ' ' !in w
    ensures NextToken(s, SPACE) == Token(w, rest)
  {
    WordPlace(s, b, w, rest);
    WordAt(s, |b|, |b| + |w|);
  }

  lemma LastTokenOf(w: seq<char>)
    requires w != [] && ' ' !in w
    ensures NextToken(w, SPACE) == Token(w, [])
  {
    TokenAt(w, SPACE, 0, |w|);
    assert w[0..|w|] == w;
  }

  lemma MessageToken(msg: seq<char>)
    ensures NextToken(msg, {}) == if msg == [] then NoToken else Token(msg, [])
  {
    if msg != [] {
      TokenAt(msg, {}, 0, |msg|);
      assert msg[0..|msg|] == msg;
    }
  }

  lemma BlanksAndWord(s: seq<char>, k: nat, e: nat)
    requires k == Pass(s, 0, SPACE, true) && e == Pass(s, k, SPACE, false)
    ensures Blank(s[..k]) && ' ' !in s[k..e] && (e < |s| ==> s[e] == ' ') && (k < |s| ==> k < e)
  {
    PassShape(s, 0, SPACE, true);
    PassShape(s, k, SPACE, false);
    forall i | 0 <= i < k ensures s[..k][i] == ' ' {
      assert s[i] in SPACE;
    }
    forall i | 0 <= i < e - k ensures s[k..e][i] != ' ' {
      assert s[k + i] !in SPACE;
    }
    assert e < |s| ==> s[e] in SPACE;
  }

  lemma CutInThree(s: seq<char>, k: nat, e: nat)
    requires k <= e < |s| && s[e] == ' '
    ensures s == s[..k] + (s[k..e] + (" " + s[e + 1..]))
  {
  }

  /** What `NextToken` finds is a word after blanks, cut off at a blank or at the end. */
  lemma TokenShape(s: seq<char>) returns (b: seq<char>, w: seq<char>, rest: seq<char>)
    requires NextToken(s, SPACE).Token?
    ensures NextToken(s, SPACE) == Token(w, rest) && Blank(b) && w != [] && ' ' !in w
    ensures rest != [] ==> s == b + (w + (" " + rest))
  {
    var k := Pass(s, 0, SPACE, true);
    var e := Pass(s, k, SPACE, false);
    BlanksAndWord(s, k, e);
    b, w, rest := s[..k], s[k..e], if e < |s| then s[e + 1..] else [];
    if rest != [] {
      CutInThree(s, k, e);
    }
  }

  lemma AtoiOfDigits(n: nat)
    ensures Atoi(Digits(n)) == n
  {
    var ds := Digits(n);
    assert IsDigit(ds[0]);
    SpaceRunIs(ds, 0);
    assert ds[0..] == ds && ds[..|ds|] == ds;
    DigitRunIs(ds, |ds|);
    ValueOfDigits(n);
  }

  lemma DigitsAreWords(n: nat)
    ensures ' ' !in Digits(n) && '\n' !in Digits(n) && NUL !in Digits(n)
  {
    assert forall c :: c in Digits(n) ==> IsDigit(c);
  }

  lemma VerbsAreDistinct()
    ensures VerbOf("help") == VHelp && VerbOf("myip") == VMyIp && VerbOf("myport") == VMyPort
    ensures VerbOf("connect") == VConnect && VerbOf("list") == VList
    ensures VerbOf("terminate") == VTerminate && VerbOf("send") == VSend && VerbOf("exit") == VExit
  {
    assert |"help"| == 4 && |"myip"| == 4 && |"myport"| == 6 && |"connect"| == 7 && |"list"| == 4;
    assert |"terminate"| == 9 && |"send"| == 4 && |"exit"| == 4;
    assert "help"[0] == 'h' && "myip"[0] == 'm' && "list"[0] == 'l' && "send"[0] == 's' && "exit"[0] == 'e';
  }

  lemma ConnectWords(cmd: seq<char>, tail: seq<char>, ip: seq<char>, w: seq<char>)
    requires tail == ip + (" " + w) && ip != [] && ' ' !in ip && w != [] && ' ' !in w
    ensures DispatchConnect(cmd, tail) == Connect(ip, Atoi(w))
  {
    NoBlanks(tail);
    TokenOf(tail, [], ip, w);
    LastTokenOf(w);
  }

  lemma ConnectRead(cmd: seq<char>, ip: seq<char>, port: nat)
    requires IsWord(ip)
    ensures DispatchConnect(cmd, ip + (" " + Digits(port))) == Connect(ip, port)
  {
    DigitsAreWords(port);
    AtoiOfDigits(port);
    ConnectWords(cmd, ip + (" " + Digits(port)), ip, Digits(port));
  }

  lemma TerminateRead(cmd: seq<char>, id: nat)
    ensures DispatchTerminate(cmd, Digits(id)) == Terminate(id)
  {
    DigitsAreWords(id);
    AtoiOfDigits(id);
    LastTokenOf(Digits(id));
  }

  lemma SendRead(cmd: seq<char>, tail: seq<char>, b: seq<char>, w: seq<char>, msg: seq<char>)
    requires tail == b + (w + (" " + msg)) && Blank(b) && w != [] && ' ' !in w && msg != []
    ensures DispatchSend(cmd, tail) == Send(Atoi(w), msg)
  {
    TokenOf(tail, b, w, msg);
    MessageToken(msg);
  }

  /** The first word of a line selects the branch. */
  lemma DispatchBy(line: seq<char>, b: seq<char>, cmd: seq<char>, rest: seq<char>)
    requires line == b + (cmd + (" " + rest)) && Blank(b) && cmd != [] && ' ' !in cmd
    ensures Dispatch(line) == DispatchVerb(VerbOf(cmd), cmd, rest)
  {
    TokenOf(line, b, cmd, rest);
  }

  lemma SendLineRead(line: seq<char>, b1: seq<char>, b2: seq<char>, w: seq<char>, msg: seq<char>)
    requires SendLine(line, b1, b2, w, msg) && msg != []
    ensures Dispatch(line) == Send(Atoi(w), msg)
  {
    var tail := b2 + (w + (" " + msg));
    SendVerb("send");
    DispatchBy(line, b1, "send", tail);
    SendRead("send", tail, b2, w, msg);
  }

  lemma ConnectUndone(ip: seq<char>, port: nat)
    requires IsWord(ip) && port <= INT_MAX
    ensures Dispatch(Print(Connect(ip, port))) == Connect(ip, port)
  {
    var line, tail := Print(Connect(ip, port)), ip + (" " + Digits(port));
    VerbsAreDistinct();
    NoBlanks(line);
    DispatchBy(line, [], "connect", tail);
    ConnectRead("connect", ip, port);
  }

  lemma TerminateUndone(id: nat)
    requires id <= INT_MAX
    ensures Dispatch(Print(Terminate(id))) == Terminate(id)
  {
    var line := Print(Terminate(id));
    VerbsAreDistinct();
    NoBlanks(line);
    DispatchBy(line, [], "terminate", Digits(id));
    TerminateRead("terminate", id);
  }

  lemma SendUndone(id: nat, msg: seq<char>)
    requires id <= INT_MAX && IsMessage(msg)
    ensures Dispatch(Print(Send(id, msg))) == Send(id, msg)
  {
    DigitsAreWords(id);
    AtoiOfDigits(id);
    NoBlanks(Digits(id) + (" " + msg));
    NoBlanks(Print(Send(id, msg)));
    SendLineRead(Print(Send(id, msg)), [], [], Digits(id), msg);
  }

  /** A line of one word. */
  lemma WordUndone(c: Command)
    requires c == Help || c == MyIp || c == MyPort || c == List || c == Exit
    ensures Dispatch(Print(c)) == c
  {
    VerbsAreDistinct();
    LastTokenOf(Print(c));
  }

  lemma DispatchUndoesPrint(c: Command)
    requires Printable(c)
    ensures Dispatch(Print(c)) == c
  {
    match c
    case Connect(ip, port) => ConnectUndone(ip, port);
    case Terminate(id) => TerminateUndone(id);
    case Send(id, msg) => SendUndone(id, msg);
    case _ => WordUndone(c);
  }

  lemma NoBlanks(s: seq<char>)
    ensures [] + s == s
  {
  }

  predicate OneLine(s: seq<char>) {
    '\n' !in s && NUL !in s
  }

  lemma JoinedLine(a: seq<char>, b: seq<char>)
    requires OneLine(a) && OneLine(b)
    ensures OneLine(a + (" " + b))
  {
  }

  lemma PrintIsOneLine(c: Command)
    requires Printable(c)
    ensures OneLine(Print(c)) && Print(c) != []
  {
    match c
    case Connect(ip, port) =>
      DigitsAreWords(port);
      JoinedLine(ip, Digits(port));
      JoinedLine("connect", ip + (" " + Digits(port)));
    case Terminate(id) =>
      DigitsAreWords(id);
      JoinedLine("terminate", Digits(id));
    case Send(id, msg) =>
      DigitsAreWords(id);
      JoinedLine(Digits(id), msg);
      JoinedLine("send", Digits(id) + (" " + msg));
    case _ =>
  }

  lemma {:induction false} LineLengthAt(input: seq<char>, room: nat, n: nat)
    requires n <= |input| && n <= room && (forall i :: 0 <= i < n - 1 ==> input[i] != '\n')
    requires n == |input| || n == room || (n > 0 && input[n - 1] == '\n')
    ensures LineLength(input, room) == n
    decreases n
  {
    if n > 0 && input[0] != '\n' {
      LineLengthAt(input[1..], room - 1, n - 1);
    }
  }

  lemma StrOfNoNul(s: seq<char>)
    requires NUL !in s
    ensures Str(s + [NUL]) == s
  {
    assert (s + [NUL])[..|s|] == s;
    LenIs(s + [NUL], |s|);
  }

  lemma ChoppedLine(line: seq<char>, more: seq<char>)
    requires '\n' !in line && NUL !in line
    ensures Chop(LineOf(line + ['\n'] + more))
         == if |line| < BUFFER_SIZE then line else line[..BUFFER_SIZE - 1]
  {
    var input := line + ['\n'] + more;
    if |line| < BUFFER_SIZE - 1 {
      LineLengthAt(input, BUFFER_SIZE - 1, |line| + 1);
      assert input[..|line| + 1] == line + ['\n'];
      StrOfNoNul(line + ['\n']);
    } else {
      LineLengthAt(input, BUFFER_SIZE - 1, BUFFER_SIZE - 1);
      assert input[..BUFFER_SIZE - 1] == line[..BUFFER_SIZE - 1];
      StrOfNoNul(line[..BUFFER_SIZE - 1]);
    }
  }

  /** A printed command that fits the buffer is read back, whatever is typed after it. */
  lemma CommandRoundTrip(c: Command, more: seq<char>)
    requires Printable(c) && |Print(c)| < BUFFER_SIZE
    ensures NextCommand(Print(c) + ['\n'] + more) == c
  {
    PrintIsOneLine(c);
    ChoppedLine(Print(c), more);
    DispatchUndoesPrint(c);
  }

  lemma {:induction false} DigitCount(n: nat, k: nat, bound: nat)
    requires n < bound && bound <= Pow10(k) && k > 0
    ensures |Digits(n)| <= k
    decreases k
  {
    if n >= 10 {
      DigitCount(n / 10, k - 1, Pow10(k - 1));
    }
  }

  function Pow10(k: nat): nat {
    if k == 0 then 1 else 10 * Pow10(k - 1)
  }

  /** The part of a long `send` line that fits is the printed line of the cut message. */
  lemma CutLine(id: nat, msg: seq<char>, cut: seq<char>)
    requires Printable(Send(id, msg)) && |Digits(id)| <= 10
    requires |Print(Send(id, msg))| >= BUFFER_SIZE
    requires cut == msg[..|msg| - (|Print(Send(id, msg))| - BUFFER_SIZE + 1)]
    ensures Printable(Send(id, cut)) && Print(Send(id, msg))[..BUFFER_SIZE - 1] == Print(Send(id, cut))
  {
    assert |Print(Send(id, msg))| == 6 + |Digits(id)| + |msg|;
    assert |cut| > 0 && forall i :: 0 <= i < |cut| ==> cut[i] == msg[i];
  }

  lemma SendCut(id: nat, msg: seq<char>, more: seq<char>, cut: seq<char>)
    requires Printable(Send(id, msg)) && |Digits(id)| <= 10
    requires |Print(Send(id, msg))| >= BUFFER_SIZE
    requires cut == msg[..|msg| - (|Print(Send(id, msg))| - BUFFER_SIZE + 1)]
    ensures NextCommand(Print(Send(id, msg)) + ['\n'] + more) == Send(id, cut)
  {
    PrintIsOneLine(Send(id, msg));
    ChoppedLine(Print(Send(id, msg)), more);
    CutLine(id, msg, cut);
    SendUndone(id, cut);
  }

  /** A printed `send` line comes back byte for byte exactly when it fits the buffer; of a longer
      one the message that arrives is the proper prefix that fits. */
  lemma SendRoundTripExactly(id: nat, msg: seq<char>, more: seq<char>)
    requires Printable(Send(id, msg))
    ensures var line, got := Print(Send(id, msg)), NextCommand(Print(Send(id, msg)) + ['\n'] + more);
            && (got == Send(id, msg) <==> |line| < BUFFER_SIZE)
            && (|line| >= BUFFER_SIZE ==>
                  got.Send? && got.id == id && got.msg < msg && |msg| - |got.msg| == |line| - BUFFER_SIZE + 1)
  {
    var line := Print(Send(id, msg));
    if |line| < BUFFER_SIZE {
      CommandRoundTrip(Send(id, msg), more);
    } else {
      assert Pow10(10) == 10_000_000_000;
      DigitCount(id, 10, Pow10(10));
      SendCut(id, msg, more, msg[..|msg| - (|line| - BUFFER_SIZE + 1)]);
    }
  }

  // ----- Whole sessions -----

  predicate Fits(c: Command) {
    Printable(c) && c != Exit && |Print(c)| < BUFFER_SIZE
  }

  predicate AllFit(cs: seq<Command>) {
    cs == [] || (Fits(cs[0]) && AllFit(cs[1..]))
  }

  /** Every line leaves room for its newline. */
  predicate AllShort(cs: seq<Command>)
    requires AllFit(cs)
  {
    cs == [] || (|Print(cs[0])| < BUFFER_SIZE - 1 && AllShort(cs[1..]))
  }

  /** The commands typed one after the other, each with its newline. */
  function Typed(cs: seq<Command>): seq<char>
    requires AllFit(cs)
  {
    if cs == [] then [] else Print(cs[0]) + ['\n'] + Typed(cs[1..])
  }

  /** What is read back: a line of 1023 characters leaves its newline for an empty round. */
  function Echo(cs: seq<Command>): seq<Command>
    requires AllFit(cs)
  {
    if cs == [] then [] else EchoOne(cs[0]) + Echo(cs[1..])
  }

  function EchoOne(c: Command): seq<Command>
    requires Printable(c)
  {
    if |Print(c)| == BUFFER_SIZE - 1 then [c, Nothing] else [c]
  }

  lemma RestOfLine(line: seq<char>, more: seq<char>)
    requires OneLine(line)
    ensures RestOf(line + ['\n'] + more)
         == if |line| < BUFFER_SIZE - 1 then more else line[BUFFER_SIZE - 1..] + ['\n'] + more
  {
    var input := line + ['\n'] + more;
    if |line| < BUFFER_SIZE - 1 {
      LineLengthAt(input, BUFFER_SIZE - 1, |line| + 1);
    } else {
      LineLengthAt(input, BUFFER_SIZE - 1, BUFFER_SIZE - 1);
    }
  }

  lemma EmptyRound(more: seq<char>)
    ensures Session(['\n'] + more) == [Nothing] + Session(more)
  {
    var input := [] + ['\n'] + more;
    assert input == ['\n'] + more;
    ChoppedLine([], more);
    RestOfLine([], more);
    assert NextToken([], SPACE) == NoToken;
  }

  lemma SessionNext(input: seq<char>, c: Command, rest: seq<char>)
    requires NextCommand(input) == c && c != Exit && RestOf(input) == rest
    ensures Session(input) == [c] + Session(rest)
  {
  }

  lemma OneRound(c: Command, more: seq<char>)
    requires Fits(c)
    ensures Session(Print(c) + ['\n'] + more) == EchoOne(c) + Session(more)
  {
    var line := Print(c);
    var input := line + ['\n'] + more;
    PrintIsOneLine(c);
    CommandRoundTrip(c, more);
    RestOfLine(line, more);
    if |line| == BUFFER_SIZE - 1 {
      assert line[BUFFER_SIZE - 1..] == [];
      assert RestOf(input) == ['\n'] + more;
      SessionNext(input, c, ['\n'] + more);
      EmptyRound(more);
      JoinAssoc([c], [Nothing], Session(more));
      assert [c] + [Nothing] == EchoOne(c);
    } else {
      SessionNext(input, c, more);
    }
  }

  /** The loop reads a list of typed commands back in order, whatever is typed after them; it is
      exactly that list if every line leaves room for its newline. */
  lemma {:induction false} SessionRoundTrip(cs: seq<Command>, more: seq<char>)
    requires AllFit(cs)
    ensures Session(Typed(cs) + more) == Echo(cs) + Session(more)
    ensures Echo(cs) == cs <==> AllShort(cs)
  {
    EchoExactly(cs);
    if cs == [] {
      assert Typed(cs) + more == more;
    } else {
      var head, rest := Print(cs[0]) + ['\n'], Typed(cs[1..]);
      JoinAssoc(head, rest, more);
      OneRound(cs[0], rest + more);
      SessionRoundTrip(cs[1..], more);
      JoinAssoc(EchoOne(cs[0]), Echo(cs[1..]), Session(more));
    }
  }

  lemma JoinAssoc<T>(a: seq<T>, b: seq<T>, c: seq<T>)
    ensures (a + b) + c == a + (b + c)
  {
  }

  lemma {:induction false} EchoExactly(cs: seq<Command>)
    requires AllFit(cs)
    ensures |Echo(cs)| >= |cs|
    ensures Echo(cs) == cs <==> AllShort(cs)
  {
    if cs != [] {
      EchoExactly(cs[1..]);
      assert cs == [cs[0]] + cs[1..];
      if |Print(cs[0])| < BUFFER_SIZE - 1 {
        assert Echo(cs)[1..] == Echo(cs[1..]);
      }
    }
  }

  /** Of a `send` line that does not fit, the tail is read as the next command. */
  lemma LongSendSession(id: nat, msg: seq<char>, more: seq<char>)
    requires Printable(Send(id, msg)) && |Print(Send(id, msg))| >= BUFFER_SIZE
    ensures var line := Print(Send(id, msg));
            |msg| > |line| - BUFFER_SIZE + 1 &&
            Session(line + ['\n'] + more)
            == [Send(id, msg[..|msg| - (|line| - BUFFER_SIZE + 1)])]
               + Session(line[BUFFER_SIZE - 1..] + ['\n'] + more)
  {
    var line := Print(Send(id, msg));
    assert Pow10(10) == 10_000_000_000;
    DigitCount(id, 10, Pow10(10));
    SendCut(id, msg, more, msg[..|msg| - (|line| - BUFFER_SIZE + 1)]);
    PrintIsOneLine(Send(id, msg));
    RestOfLine(line, more);
  }

  lemma SessionTurn(done: seq<Command>, input: seq<char>)
    ensures var c := NextCommand(input);
            done + Session(input) == done + [c] + if c == Exit then [] else Session(RestOf(input))
    ensures NextCommand(input) != Exit ==> |RestOf(input)| < |input|
  {
  }

  // ----- Which lines are send commands -----

  lemma SendTailShape(cmd: seq<char>, tail: seq<char>) returns (b: seq<char>, w: seq<char>, msg: seq<char>)
    requires DispatchSend(cmd, tail).Send?
    ensures DispatchSend(cmd, tail) == Send(Atoi(w), msg) && msg != []
    ensures tail == b + (w + (" " + msg)) && Blank(b) && w != [] && ' ' !in w
  {
    b, w, msg := TokenShape(tail);
    MessageToken(msg);
  }

  lemma SendVerb(cmd: seq<char>)
    ensures VerbOf(cmd) == VSend <==> cmd == "send"
  {
    assert |"help"| == 4 && |"myip"| == 4 && |"myport"| == 6 && |"connect"| == 7 && |"list"| == 4;
    assert |"terminate"| == 9 && |"send"| == 4 && |"exit"| == 4;
    assert "help"[0] == 'h' && "myip"[0] == 'm' && "list"[0] == 'l' && "send"[0] == 's';
  }

  lemma SendLineShape(line: seq<char>) returns (b1: seq<char>, b2: seq<char>, w: seq<char>, msg: seq<char>)
    requires Dispatch(line).Send?
    ensures SendLine(line, b1, b2, w, msg) && msg != [] && Dispatch(line) == Send(Atoi(w), msg)
  {
    var cmd, tail;
    b1, cmd, tail := TokenShape(line);
    var verb := VerbOf(cmd);
    SendVerb(cmd);
    assert DispatchVerb(verb, cmd, tail) == Dispatch(line);
    assert verb == VSend;
    b2, w, msg := SendTailShape(cmd, tail);
    assert tail != [];
  }

  /** Exactly the lines blank* `send` blank+ word blank message are send commands. */
  lemma SendLinesExactly(line: seq<char>, id: int, msg: seq<char>)
    ensures Dispatch(line) == Send(id, msg) <==>
            msg != [] && exists b1, b2, w :: SendLine(line, b1, b2, w, msg) && Atoi(w) == id
  {
    if Dispatch(line) == Send(id, msg) {
      var b1, b2, w, m := SendLineShape(line);
    }
    if msg != [] && exists b1, b2, w :: SendLine(line, b1, b2, w, msg) && Atoi(w) == id {
      var b1, b2, w :| SendLine(line, b1, b2, w, msg) && Atoi(w) == id;
      SendLineRead(line, b1, b2, w, msg);
    }
  }

  // ----- The buffer, cut in place -----

  /** A string that ends before position `k` survives changes from `k` on. */
  lemma StrStable(a: seq<char>, b: seq<char>, t: nat, k: nat)
    requires t < k <= |a| == |b| && a[..k] == b[..k]
    requires NUL in a[t..] && t + Len(a[t..]) < k
    ensures NUL in b[t..] && Str(b[t..]) == Str(a[t..])
  {
    var n := Len(a[t..]);
    assert forall i :: 0 <= i <= n ==> b[t..][i] == b[..k][t + i] == a[..k][t + i] == a[t..][i];
    assert b[t..][..n] == a[t..][..n];
    LenIs(b[t..], n);
  }

  lemma StrOfPrefix(b: seq<char>, c: seq<char>)
    requires NUL in c && |c| <= |b| && forall i :: 0 <= i < |c| ==> b[i] == c[i]
    ensures NUL in b && Str(b) == Str(c)
  {
    assert b[..Len(c)] == c[..Len(c)];
    LenIs(b, Len(c));
  }

  /** A NUL written at `e` ends the token in front of it. */
  lemma CutFront(b: seq<char>, from: nat, k: nat, e: nat)
    requires from <= |b| && NUL in b[from..] && k <= e <= Len(b[from..])
    ensures var c := b[from + e := NUL];
            NUL in c[from + k..] && Str(c[from + k..]) == Str(b[from..])[k..e]
  {
    var x, c := b[from..], b[from + e := NUL];
    assert c[from + k..] == x[e := NUL][k..];
    LenIs(x[e := NUL][k..], e - k);
    assert x[e := NUL][k..][..e - k] == x[..Len(x)][k..e];
  }

  /** It leaves the rest of the line behind it, if there is any, and otherwise the empty string. */
  lemma CutBack(b: seq<char>, from: nat, e: nat)
    requires from <= |b| && NUL in b[from..] && e <= Len(b[from..])
    ensures var s, c := Str(b[from..]), b[from + e := NUL];
            if e < |s| then NUL in c[from + e + 1..] && Str(c[from + e + 1..]) == s[e + 1..]
            else NUL in c[from + e..] && Str(c[from + e..]) == []
  {
    var s, c := Str(b[from..]), b[from + e := NUL];
    if e < |s| {
      assert c[from + e + 1..] == b[from + e + 1..];
      StrDrop(b, from, from + e + 1);
    } else {
      assert c[from + e..][..0] == [];
      LenIs(c[from + e..], 0);
    }
  }

  /** `buf` at `tok` and `saved` holds the token and the rest that `NextToken` finds. */
  ghost predicate Split(buf: seq<char>, tok: nat, saved: nat, w: seq<char>, rest: seq<char>) {
    && tok <= saved <= |buf| && NUL in buf[tok..] && NUL in buf[saved..]
    && Str(buf[tok..]) == w && Str(buf[saved..]) == rest
    && (rest != [] ==> tok + |w| < saved)
  }

  lemma SplitAt(b: seq<char>, from: nat, k: nat, e: nat, w: seq<char>, rest: seq<char>)
    requires from <= |b| && NUL in b[from..] && k <= e <= Len(b[from..])
    requires var s := Str(b[from..]);
             w == s[k..e] && rest == if e < |s| then s[e + 1..] else []
    ensures Split(b[from + e := NUL], from + k, if b[from + e] == NUL then from + e else from + e + 1,
                  w, rest)
  {
    CutFront(b, from, k, e);
    CutBack(b, from, e);
    NulOnlyAtEnd(b, from, e);
  }

  lemma SplitAtToken(b: seq<char>, from: nat, delims: set<char>, k: nat, e: nat)
      returns (w: seq<char>, rest: seq<char>)
    requires from <= |b| && NUL in b[from..]
    requires k == Pass(Str(b[from..]), 0, delims, true) && k < Len(b[from..])
    requires e == Pass(Str(b[from..]), k, delims, false)
    ensures NextToken(Str(b[from..]), delims) == Token(w, rest)
    ensures Split(b[from + e := NUL], from + k, if b[from + e] == NUL then from + e else from + e + 1,
                  w, rest)
  {
    var t := NextToken(Str(b[from..]), delims);
    w, rest := t.text, t.rest;
    SplitAt(b, from, k, e, w, rest);
  }

  lemma NulOnlyAtEnd(b: seq<char>, from: nat, e: nat)
    requires from <= |b| && NUL in b[from..] && e <= Len(b[from..])
    ensures b[from + e] == NUL <==> e == Len(b[from..])
  {
    var s := Str(b[from..]);
    assert b[from + e] == b[from..][e];
    assert e < |s| ==> s[e] == b[from..][e];
  }

  lemma FrontKept(b: seq<char>, k: nat, p: nat)
    requires k <= p < |b|
    ensures b[p := NUL][..k] == b[..k]
  {
  }

  /** What is in the buffer once the token between `k` and `e` has been cut off. */
  lemma TokenTaken(b: seq<char>, from: nat, delims: set<char>, k: nat, e: nat, c: seq<char>, saved: nat)
    requires from <= |b| && NUL in b[from..]
    requires k == Pass(Str(b[from..]), 0, delims, true) && k < Len(b[from..])
    requires e == Pass(Str(b[from..]), k, delims, false)
    requires c == b[from + e := NUL] && saved == if b[from + e] == NUL then from + e else from + e + 1
    ensures from <= saved <= |c| && NUL in c[saved..] && c[..from] == b[..from]
    ensures var t := NextToken(Str(b[from..]), delims);
            t.Token? && Split(c, from + k, saved, t.text, t.rest)
  {
    var w, rest := SplitAtToken(b, from, delims, k, e);
    FrontKept(b, from, from + e);
  }

  /** `char line[1024]` of `main`, and the pointer `strtok` keeps between calls. */
  class LineBuffer {
    const line: array<char>
    var saved: nat

    ghost predicate Valid()
      reads this, line
    {
      line.Length == BUFFER_SIZE && saved <= line.Length && NUL in line[..][saved..]
    }

    /** The text the next `strtok` call will look at. */
    ghost function Pending(): seq<char>
      requires Valid()
      reads this, line
    {
      Str(line[..][saved..])
    }

    constructor ()
      ensures Valid() && fresh(line)
    {
      line := new char[BUFFER_SIZE](_ => NUL);
      saved := 0;
      new;
      assert line[..][saved..][0] == NUL;
    }

    /** Returns false, with the buffer unchanged, at the end of the input. */
    method Fgets(input: seq<char>) returns (ok: bool, rest: seq<char>)
      requires Valid()
      modifies this, line
      ensures Valid() && (ok <==> input != []) && rest == RestOf(input)
      ensures ok ==> saved == 0 && Pending() == LineOf(input)
      ensures !ok ==> line[..] == old(line[..])
    {
      if input == [] {
        return false, [];
      }
      ok := true;
      var n := 0;
      while n < |input| && n < BUFFER_SIZE - 1 && (n == 0 || line[n - 1] != '\n')
        invariant n <= |input| && n <= BUFFER_SIZE - 1
        invariant forall i :: 0 <= i < n ==> line[i] == input[i]
        invariant forall i :: 0 <= i < n - 1 ==> input[i] != '\n'
      {
        line[n] := input[n];
        n := n + 1;
      }
      LineLengthAt(input, BUFFER_SIZE - 1, n);
      rest := input[n..];
      line[n] := NUL;
      saved := 0;
      StrOfPrefix(line[..], input[..n] + [NUL]);
      assert line[..][0..] == line[..];
    }

    method ChopNewline()
      requires Valid() && saved == 0
      modifies line
      ensures Valid() && Pending() == Chop(old(Pending()))
    {
      ghost var b := line[..];
      assert line[0..] == b && b[0..] == b;
      var len := StrLen(line, 0);
      if len > 0 && line[len - 1] == '\n' {
        line[len - 1] := NUL;
        assert line[..][0..] == line[..] && line[..][..len - 1] == b[..len - 1];
        assert b[..len][..len - 1] == b[..len - 1];
        LenIs(line[..], len - 1);
      }
    }

    /** The same on the string at `saved`, from its position `k` on. */
    method Skip(k: nat, delims: set<char>, inside: bool) returns (e: nat)
      requires Valid() && k <= |Pending()|
      ensures e == Pass(Pending(), k, delims, inside)
      ensures saved + e < line.Length && (line[saved + e] == NUL <==> e == |Pending()|)
    {
      ghost var s := Pending();
      assert forall i :: 0 <= i <= |s| ==> line[..][saved..][i] == line[saved + i];
      assert forall i :: 0 <= i < |s| ==> s[i] == line[..][saved..][i] && s[i] != NUL;
      e := k;
      while line[saved + e] != NUL && (line[saved + e] in delims) == inside
        invariant k <= e <= |s|
        invariant forall i :: k <= i < e ==> (s[i] in delims) == inside
        decreases |s| - e
      {
        e := e + 1;
      }
      PassIs(s, k, delims, inside, e);
    }

    /** Ends the token at `p` and moves the saved pointer behind it. */
    method Cut(p: nat)
      requires p < line.Length
      modifies this, line
      ensures line[..] == old(line[..])[p := NUL]
      ensures saved == if old(line[p]) == NUL then p else p + 1
    {
      saved := p;
      if line[p] != NUL {
        line[p] := NUL;
        saved := p + 1;
      }
    }

    /** Leaves the saved pointer at the end of the text. */
    method StopAt(p: nat)
      requires saved <= p < line.Length && line[p] == NUL
      modifies this`saved
      ensures saved == p && line[..][saved..][0] == NUL
    {
      saved := p;
    }

    /** Takes the token that starts at position `k` of the pending text. */
    method TakeToken(k: nat, delims: set<char>)
      requires Valid() && k == Pass(Pending(), 0, delims, true) && k < |Pending()|
      modifies this, line
      ensures Valid() && saved >= old(saved) && line[..][..old(saved)] == old(line[..][..saved])
      ensures var t := NextToken(old(Pending()), delims);
              t.Token? && Split(line[..], old(saved) + k, saved, t.text, t.rest)
    {
      ghost var b, from := line[..], saved;
      var e := Skip(k, delims, false);
      Cut(saved + e);
      TokenTaken(b, from, delims, k, e, line[..], saved);
    }

    /** Returns where the token starts, or -1 for NULL. */
    method Strtok(delims: set<char>) returns (tok: int)
      requires Valid()
      modifies this, line
      ensures Valid() && saved >= old(saved) && line[..][..old(saved)] == old(line[..][..saved])
      ensures match NextToken(old(Pending()), delims)
              case NoToken => tok == -1 && line[..] == old(line[..])
              case Token(w, rest) => tok >= 0 && Split(line[..], tok, saved, w, rest)
    {
      var k := Skip(0, delims, true);
      if line[saved + k] == NUL {
        StopAt(saved + k);
        tok := -1;
      } else {
        tok := saved + k;
        TakeToken(k, delims);
      }
    }

    /** The text of the token at `tok`. */
    method TextAt(tok: nat) returns (w: seq<char>)
      requires tok <= line.Length && NUL in line[..][tok..]
      ensures w == Str(line[..][tok..])
    {
      assert line[..][tok..] == line[tok..];
      var n := StrLen(line, tok);
      w := line[tok..tok + n];
      assert w == line[tok..][..n];
    }

    /** The arguments of `connect`, both cut off before either is looked at. */
    method ReadConnect(cmd: seq<char>) returns (c: Command)
      requires Valid()
      modifies this, line
      ensures Valid() && c == DispatchConnect(cmd, old(Pending()))
    {
      var ip := Strtok(SPACE);
      if ip == -1 {
        return Usage(cmd);
      }
      ghost var b, k := line[..], saved;
      var ps := Strtok(SPACE);
      if ps == -1 {
        return Usage(cmd);
      }
      assert line[..][..k] == b[..k];
      StrStable(b, line[..], ip, k);
      var ipText := TextAt(ip);
      var portText := TextAt(ps);
      return Connect(ipText, Atoi(portText));
    }

    method ReadTerminate(cmd: seq<char>) returns (c: Command)
      requires Valid()
      modifies this, line
      ensures Valid() && c == DispatchTerminate(cmd, old(Pending()))
    {
      var id := Strtok(SPACE);
      if id == -1 {
        return Usage(cmd);
      }
      var idText := TextAt(id);
      return Terminate(Atoi(idText));
    }

    method ReadSend(cmd: seq<char>) returns (c: Command)
      requires Valid()
      modifies this, line
      ensures Valid() && c == DispatchSend(cmd, old(Pending()))
    {
      var id := Strtok(SPACE);
      if id == -1 {
        return Usage(cmd);
      }
      var idText := TextAt(id);
      var msg := Strtok({});
      if msg == -1 {
        return Usage(cmd);
      }
      var msgText := TextAt(msg);
      return Send(Atoi(idText), msgText);
    }

    /** One round of the command loop, up to the call it makes. */
    method ReadCommand(input: seq<char>) returns (c: Command, rest: seq<char>)
      requires Valid()
      modifies this, line
      ensures Valid() && c == NextCommand(input) && rest == RestOf(input)
    {
      var ok;
      ok, rest := Fgets(input);
      if !ok {
        return Exit, rest;
      }
      ChopNewline();
      var tok := Strtok(SPACE);
      if tok == -1 {
        return Nothing, rest;
      }
      var cmd := TextAt(tok);
      match VerbOf(cmd)
      case VHelp => c := Help;
      case VMyIp => c := MyIp;
      case VMyPort => c := MyPort;
      case VConnect => c := ReadConnect(cmd);
      case VList => c := List;
      case VTerminate => c := ReadTerminate(cmd);
      case VSend => c := ReadSend(cmd);
      case VExit => c := Exit;
      case VNone => c := Unknown(cmd);
    }

    /** The command loop, over everything that is typed. */
    method RunCommands(input: seq<char>) returns (cs: seq<Command>)
      requires Valid()
      modifies this, line
      ensures Valid() && cs == Session(input)
    {
      var rest, running := input, true;
      cs := [];
      while running
        invariant Valid() && cs + (if running then Session(rest) else []) == Session(input)
        decreases running, |rest|
      {
        SessionTurn(cs, rest);
        var c;
        c, rest := ReadCommand(rest);
        cs := cs + [c];
        running := c != Exit;
      }
    }
  }
}
