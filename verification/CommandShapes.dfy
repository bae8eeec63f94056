/**
 What the dispatcher of mid_project/chat.c makes of every line, in terms of the shape of the line:
 which words it consists of and how they are separated by blanks.
 */
module CommandShapes {
  import opened Text
  import opened StrUtils
  import opened CommandLine

  // ----- Lines and their words -----

  predicate HeadWord(line: seq<char>, b: seq<char>, w: seq<char>, rest: seq<char>) {
    && Blank(b) && w != [] && ' ' !in w
    && ((line == b + w && rest == []) || line == b + (w + (" " + rest)))
  }

  /** The line is blanks, the word `w`, and then nothing or one blank and `rest`. */
  ghost predicate Begins(line: seq<char>, w: seq<char>, rest: seq<char>) {
    exists b :: HeadWord(line, b, w, rest)
  }

  lemma LastWordAt(line: seq<char>, b: seq<char>, w: seq<char>)
    requires line == b + w && Blank(b) && w != [] && ' ' !in w
    ensures NextToken(line, SPACE) == Token(w, [])
  {
    forall i | 0 <= i < |b| ensures line[i] in SPACE {
      assert line[i] == b[i];
    }
    forall i | |b| <= i < |line| ensures line[i] !in SPACE {
      assert line[i] == w[i - |b|];
    }
    TokenAt(line, SPACE, |b|, |line|);
    assert line[|b|..|line|] == w;
  }

  lemma CutInTwo(line: seq<char>, k: nat)
    requires k <= |line|
    ensures line == line[..k] + line[k..|line|]
  {
  }

  /** The pieces around positions `k` and `e` are blanks, a word and what is behind it. */
  lemma PiecesAt(line: seq<char>, k: nat, e: nat)
    requires k < e <= |line| && Blank(line[..k]) && ' ' !in line[k..e] && (e < |line| ==> line[e] == ' ')
    ensures Begins(line, line[k..e], if e < |line| then line[e + 1..] else [])
  {
    if e < |line| {
      CutInThree(line, k, e);
      assert HeadWord(line, line[..k], line[k..e], line[e + 1..]);
    } else {
      CutInTwo(line, k);
      assert HeadWord(line, line[..k], line[k..e], []);
    }
  }

  lemma HeadWordFound(line: seq<char>, w: seq<char>, rest: seq<char>)
    requires NextToken(line, SPACE) == Token(w, rest)
    ensures Begins(line, w, rest)
  {
    var k := Pass(line, 0, SPACE, true);
    var e := Pass(line, k, SPACE, false);
    BlanksAndWord(line, k, e);
    PiecesAt(line, k, e);
  }

  /** `strtok` finds exactly the first word, and leaves what follows the blank behind it. */
  lemma NextWordExactly(line: seq<char>, w: seq<char>, rest: seq<char>)
    ensures NextToken(line, SPACE) == Token(w, rest) <==> Begins(line, w, rest)
  {
    if NextToken(line, SPACE) == Token(w, rest) {
      HeadWordFound(line, w, rest);
    }
    if Begins(line, w, rest) {
      var b :| HeadWord(line, b, w, rest);
      if line == b + w && rest == [] {
        LastWordAt(line, b, w);
      } else {
        TokenOf(line, b, w, rest);
      }
    }
  }

  lemma NoWordExactly(line: seq<char>)
    ensures NextToken(line, SPACE) == NoToken <==> Blank(line)
  {
    PassShape(line, 0, SPACE, true);
    var k := Pass(line, 0, SPACE, true);
    if k == |line| {
      assert forall i :: 0 <= i < |line| ==> line[i] in SPACE;
    } else {
      assert line[k] !in SPACE;
    }
  }

  // ----- The words the dispatcher knows -----

  predicate Known(w: seq<char>) {
    || w == "help" || w == "myip" || w == "myport" || w == "list" || w == "exit"
    || w == "connect" || w == "terminate" || w == "send"
  }

  /** A command of one word, and the word. */
  predicate IsPlain(c: Command, w: seq<char>) {
    match c
    case Help => w == "help"
    case MyIp => w == "myip"
    case MyPort => w == "myport"
    case List => w == "list"
    case Exit => w == "exit"
    case _ => false
  }

  lemma WordsDiffer(w: seq<char>)
    ensures w == "help" ==> |w| == 4 && w[0] == 'h'
    ensures w == "myip" ==> |w| == 4 && w[0] == 'm'
    ensures w == "list" ==> |w| == 4 && w[0] == 'l'
    ensures w == "send" ==> |w| == 4 && w[0] == 's'
    ensures w == "exit" ==> |w| == 4 && w[0] == 'e'
    ensures w == "myport" ==> |w| == 6
    ensures w == "connect" ==> |w| == 7
    ensures w == "terminate" ==> |w| == 9
  {
  }

  /** Each branch is taken for its own word and no other. */
  lemma VerbExactly(w: seq<char>)
    ensures VerbOf(w) == VHelp <==> w == "help"
    ensures VerbOf(w) == VMyIp <==> w == "myip"
    ensures VerbOf(w) == VMyPort <==> w == "myport"
    ensures VerbOf(w) == VList <==> w == "list"
    ensures VerbOf(w) == VExit <==> w == "exit"
    ensures VerbOf(w) == VConnect <==> w == "connect"
    ensures VerbOf(w) == VTerminate <==> w == "terminate"
    ensures VerbOf(w) == VSend <==> w == "send"
    ensures VerbOf(w) == VNone <==> !Known(w)
  {
    WordsDiffer(w);
  }

  lemma PlainVerb(c: Command, w: seq<char>, rest: seq<char>, v: Verb, cmd: seq<char>)
    requires IsPlain(c, w) && v == VerbOf(cmd)
    ensures DispatchVerb(v, cmd, rest) == c <==> cmd == w
  {
    VerbExactly(cmd);
  }

  // ----- What every line means -----

  /** A line of blanks, and no other, is passed over. */
  lemma NothingExactly(line: seq<char>)
    ensures Dispatch(line) == Nothing <==> Blank(line)
  {
    NoWordExactly(line);
    if NextToken(line, SPACE).Token? {
      var t := NextToken(line, SPACE);
      assert DispatchVerb(VerbOf(t.text), t.text, t.rest) != Nothing;
    }
  }

  /** A command of one word is recognised exactly by its first word; what follows is ignored. */
  lemma PlainExactly(line: seq<char>, c: Command, w: seq<char>)
    requires IsPlain(c, w)
    ensures Dispatch(line) == c <==> exists rest :: Begins(line, w, rest)
  {
    match NextToken(line, SPACE)
    case NoToken =>
      forall rest ensures !Begins(line, w, rest) {
        NextWordExactly(line, w, rest);
      }
    case Token(cmd, tail) =>
      PlainVerb(c, w, tail, VerbOf(cmd), cmd);
      NextWordExactly(line, cmd, tail);
      forall rest | Begins(line, w, rest) ensures w == cmd {
        NextWordExactly(line, w, rest);
      }
  }

  /** Only `exit` ends the program. */
  lemma ExitExactly(line: seq<char>)
    ensures Dispatch(line) == Exit <==> exists rest :: Begins(line, "exit", rest)
  {
    PlainExactly(line, Exit, "exit");
  }

  lemma UnknownVerb(v: Verb, cmd: seq<char>, tail: seq<char>, w: seq<char>)
    requires v == VerbOf(cmd)
    ensures DispatchVerb(v, cmd, tail) == Unknown(w) <==> cmd == w && !Known(cmd)
  {
    VerbExactly(cmd);
  }

  /** A line is answered with "unknown" exactly if its first word is none of the eight. */
  lemma UnknownExactly(line: seq<char>, w: seq<char>)
    ensures Dispatch(line) == Unknown(w) <==> !Known(w) && exists rest :: Begins(line, w, rest)
  {
    match NextToken(line, SPACE)
    case NoToken =>
      forall rest ensures !Begins(line, w, rest) {
        NextWordExactly(line, w, rest);
      }
    case Token(cmd, tail) =>
      UnknownVerb(VerbOf(cmd), cmd, tail, w);
      NextWordExactly(line, cmd, tail);
      forall rest | Begins(line, w, rest) ensures w == cmd {
        NextWordExactly(line, w, rest);
      }
  }

  /** The line starts with these words, each cut off at a blank or at the end. */
  ghost predicate TwoWords(line: seq<char>, cmd: seq<char>, w: seq<char>) {
    exists r1, r2 :: Begins(line, cmd, r1) && Begins(r1, w, r2)
  }

  ghost predicate ThreeWords(line: seq<char>, cmd: seq<char>, w: seq<char>, v: seq<char>) {
    exists r1, r2, r3 :: Begins(line, cmd, r1) && Begins(r1, w, r2) && Begins(r2, v, r3)
  }

  lemma TerminateVerb(v: Verb, cmd: seq<char>, tail: seq<char>, id: int)
    requires v == VerbOf(cmd)
    ensures DispatchVerb(v, cmd, tail) == Terminate(id) <==>
            cmd == "terminate" && NextToken(tail, SPACE).Token? && Atoi(NextToken(tail, SPACE).text) == id
  {
    VerbExactly(cmd);
  }

  /** A line is a `terminate` command exactly if it has a second word, which is read as the id. */
  lemma TerminateExactly(line: seq<char>, id: int)
    ensures Dispatch(line) == Terminate(id) <==> exists w :: TwoWords(line, "terminate", w) && Atoi(w) == id
  {
    var t := NextToken(line, SPACE);
    if t.Token? {
      TerminateVerb(VerbOf(t.text), t.text, t.rest, id);
    }
    if Dispatch(line) == Terminate(id) {
      var u := NextToken(t.rest, SPACE);
      NextWordExactly(line, t.text, t.rest);
      NextWordExactly(t.rest, u.text, u.rest);
      assert TwoWords(line, "terminate", u.text);
    }
    forall w | TwoWords(line, "terminate", w) && Atoi(w) == id ensures Dispatch(line) == Terminate(id) {
      var r1, r2 :| Begins(line, "terminate", r1) && Begins(r1, w, r2);
      NextWordExactly(line, "terminate", r1);
      NextWordExactly(r1, w, r2);
    }
  }

  lemma ConnectVerb(v: Verb, cmd: seq<char>, tail: seq<char>, ip: seq<char>, port: int)
    requires v == VerbOf(cmd)
    ensures DispatchVerb(v, cmd, tail) == Connect(ip, port) <==>
            cmd == "connect" && DispatchConnect(cmd, tail) == Connect(ip, port)
  {
    VerbExactly(cmd);
  }

  /** A line is a `connect` command exactly if it has a second and a third word. */
  lemma ConnectExactly(line: seq<char>, ip: seq<char>, port: int)
    ensures Dispatch(line) == Connect(ip, port) <==>
            exists p :: ThreeWords(line, "connect", ip, p) && Atoi(p) == port
  {
    var t := NextToken(line, SPACE);
    if t.Token? {
      ConnectVerb(VerbOf(t.text), t.text, t.rest, ip, port);
    }
    if Dispatch(line) == Connect(ip, port) {
      var u := NextToken(t.rest, SPACE);
      var v := NextToken(u.rest, SPACE);
      NextWordExactly(line, t.text, t.rest);
      NextWordExactly(t.rest, u.text, u.rest);
      NextWordExactly(u.rest, v.text, v.rest);
      assert ThreeWords(line, "connect", ip, v.text);
    }
    forall p | ThreeWords(line, "connect", ip, p) && Atoi(p) == port ensures Dispatch(line) == Connect(ip, port) {
      var r1, r2, r3 :| Begins(line, "connect", r1) && Begins(r1, ip, r2) && Begins(r2, p, r3);
      NextWordExactly(line, "connect", r1);
      NextWordExactly(r1, ip, r2);
      NextWordExactly(r2, p, r3);
    }
  }

  /** What is missing behind a command word: both words of `connect`, the id of `terminate`, the id
      of `send` or anything behind it. */
  ghost predicate Incomplete(name: seq<char>, rest: seq<char>) {
    || (name == "connect" && (Blank(rest) || exists w, r :: Begins(rest, w, r) && Blank(r)))
    || (name == "terminate" && Blank(rest))
    || (name == "send" && (Blank(rest) || exists w :: Begins(rest, w, [])))
  }

  lemma UsageVerb(v: Verb, cmd: seq<char>, tail: seq<char>, name: seq<char>)
    requires v == VerbOf(cmd)
    ensures DispatchVerb(v, cmd, tail) == Usage(name) <==>
            && cmd == name
            && ((cmd == "connect" && DispatchConnect(cmd, tail) == Usage(cmd))
                || (cmd == "terminate" && DispatchTerminate(cmd, tail) == Usage(cmd))
                || (cmd == "send" && DispatchSend(cmd, tail) == Usage(cmd)))
  {
    VerbExactly(cmd);
  }

  lemma ConnectIncomplete(cmd: seq<char>, rest: seq<char>)
    ensures DispatchConnect(cmd, rest) == Usage(cmd) <==>
            Blank(rest) || exists w, r :: Begins(rest, w, r) && Blank(r)
  {
    NoWordExactly(rest);
    if NextToken(rest, SPACE).Token? {
      var t := NextToken(rest, SPACE);
      NextWordExactly(rest, t.text, t.rest);
      NoWordExactly(t.rest);
      forall w, r | Begins(rest, w, r) && Blank(r) ensures r == t.rest {
        NextWordExactly(rest, w, r);
      }
    }
  }

  lemma TerminateIncomplete(cmd: seq<char>, rest: seq<char>)
    ensures DispatchTerminate(cmd, rest) == Usage(cmd) <==> Blank(rest)
  {
    NoWordExactly(rest);
  }

  lemma SendIncomplete(cmd: seq<char>, rest: seq<char>)
    ensures DispatchSend(cmd, rest) == Usage(cmd) <==> Blank(rest) || exists w :: Begins(rest, w, [])
  {
    NoWordExactly(rest);
    if NextToken(rest, SPACE).Token? {
      var t := NextToken(rest, SPACE);
      NextWordExactly(rest, t.text, t.rest);
      MessageToken(t.rest);
      forall w | Begins(rest, w, []) ensures t.rest == [] {
        NextWordExactly(rest, w, []);
      }
    }
  }

  /** A line is answered with the usage of a command exactly if its first word is that command and
      what it needs is missing. */
  lemma UsageExactly(line: seq<char>, name: seq<char>)
    ensures Dispatch(line) == Usage(name) <==> exists rest :: Begins(line, name, rest) && Incomplete(name, rest)
  {
    match NextToken(line, SPACE)
    case NoToken =>
      forall rest ensures !Begins(line, name, rest) {
        NextWordExactly(line, name, rest);
      }
    case Token(cmd, tail) =>
      UsageVerb(VerbOf(cmd), cmd, tail, name);
      ConnectIncomplete(cmd, tail);
      TerminateIncomplete(cmd, tail);
      SendIncomplete(cmd, tail);
      NextWordExactly(line, cmd, tail);
      forall rest | Begins(line, name, rest) ensures name == cmd && rest == tail {
        NextWordExactly(line, name, rest);
      }
  }

  // ----- Numbers -----

  /** `atoi` reads white space, a sign and digits, and stops at the first other character. */
  lemma AtoiOf(s: seq<char>, l: seq<char>, sign: seq<char>, ds: seq<char>, r: seq<char>)
    requires s == l + sign + ds + r && AllSpace(l) && (sign == [] || sign == ['+'] || sign == ['-'])
    requires ds != [] && AllDigits(ds) && (r != [] ==> !IsDigit(r[0]))
    ensures Atoi(s) == Signed(sign, Value(ds))
  {
    var x := ds + r;
    Regrouped(l, sign, ds, r);
    NumeralFirst(sign, ds, r);
    SpaceRunOf(l, sign + x);
    assert s[|l| + |sign|..] == x;
    assert x[..|ds|] == ds;
    DigitRunIs(x, |ds|);
  }

  /** Without a digit there it gives 0. */
  lemma AtoiOfNone(s: seq<char>, l: seq<char>, sign: seq<char>, r: seq<char>)
    requires s == l + (sign + r) && AllSpace(l) && (sign == [] || sign == ['+'] || sign == ['-'])
    requires r != [] ==> !IsDigit(r[0])
    requires r != [] && sign == [] ==> !IsSpace(r[0]) && r[0] != '+' && r[0] != '-'
    ensures Atoi(s) == 0
  {
    if sign + r == [] {
      assert s[..|s|] == s;
      SpaceRunIs(s, |s|);
    } else {
      SpaceRunOf(l, sign + r);
    }
    assert s[Body(s)..] == r;
    assert DigitRun(r) == 0;
  }

  /** The text of every number, also of a negative one, is read back by `atoi`. */
  lemma AtoiOfShown(n: int)
    ensures Atoi(Show(n)) == n
  {
    if n < 0 {
      AtoiOfSigned(['-'], -n);
    } else {
      AtoiOfSigned([], n);
      BarePieces([], Digits(n));
    }
  }

  lemma AtoiOfSigned(sign: seq<char>, m: nat)
    requires sign == [] || sign == ['-']
    ensures Atoi(sign + Digits(m)) == Signed(sign, m)
  {
    ValueOfDigits(m);
    BarePieces(sign, Digits(m));
    AtoiOf(sign + Digits(m), [], sign, Digits(m), []);
  }

  // ----- What of the input becomes a line -----

  /** A typed line of up to 1022 characters is dispatched whole, one of 1023 too, but its newline
      stays on the input, and of a longer one the first 1023 characters are. */
  lemma LineLimits(line: seq<char>, more: seq<char>)
    requires OneLine(line)
    ensures var input := line + ['\n'] + more;
            && (|line| <= 1022 ==> NextCommand(input) == Dispatch(line) && RestOf(input) == more)
            && (|line| == 1023 ==> NextCommand(input) == Dispatch(line) && RestOf(input) == ['\n'] + more)
            && (|line| > 1023 ==> NextCommand(input) == Dispatch(line[..1023])
                                  && RestOf(input) == line[1023..] + ['\n'] + more)
  {
    ChoppedLine(line, more);
    RestOfLine(line, more);
    if |line| == 1023 {
      assert line[1023..] + ['\n'] + more == ['\n'] + more;
    }
  }

  /** The last line may do without a newline. */
  lemma LastLine(line: seq<char>)
    requires OneLine(line) && line != [] && |line| <= 1023
    ensures NextCommand(line) == Dispatch(line) && RestOf(line) == []
  {
    LineLengthAt(line, 1023, |line|);
    assert line[..|line|] == line;
    StrOfNoNul(line);
  }

  /** A NUL character in the input hides the rest of its line. */
  lemma NulEndsLine(a: seq<char>, b: seq<char>, more: seq<char>)
    requires OneLine(a) && '\n' !in b && |a| + |b| <= 1021
    ensures NextCommand(a + [NUL] + b + ['\n'] + more) == Dispatch(a)
    ensures RestOf(a + [NUL] + b + ['\n'] + more) == more
  {
    var line := a + [NUL] + b;
    var input, n := line + ['\n'] + more, |line| + 1;
    LineLengthAt(input, 1023, n);
    assert (input[..n] + [NUL])[..|a|] == a;
    LenIs(input[..n] + [NUL], |a|);
  }

  // ----- The end of the session -----

  lemma EndOfInput()
    ensures Session([]) == [Exit]
  {
  }

  lemma ExitRound(more: seq<char>)
    ensures Session(Print(Exit) + ['\n'] + more) == [Exit]
  {
    PrintIsOneLine(Exit);
    CommandRoundTrip(Exit, more);
  }

  /** `exit`, like the end of the input, ends the session: what is typed behind it is not read. */
  lemma SessionEnds(cs: seq<Command>, more: seq<char>)
    requires AllFit(cs)
    ensures Session(Typed(cs)) == Echo(cs) + [Exit]
    ensures Session(Typed(cs) + (Print(Exit) + ['\n'] + more)) == Echo(cs) + [Exit]
  {
    SessionRoundTrip(cs, []);
    EndOfInput();
    assert Typed(cs) + [] == Typed(cs);
    SessionRoundTrip(cs, Print(Exit) + ['\n'] + more);
    ExitRound(more);
  }
}
