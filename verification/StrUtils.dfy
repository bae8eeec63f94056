/**
 The string library Baitap1/src/strutils.c: `str_reverse` and `str_trim` work in place on a
 NUL-terminated buffer, `str_to_int` scans one.
 */
module StrUtils {
  import opened Text

  // ----- What the functions mean on strings -----

  function Reverse(s: seq<char>): seq<char> {
    seq(|s|, i requires 0 <= i < |s| => s[|s| - 1 - i])
  }

  function TrimRight(s: seq<char>): (t: seq<char>)
    ensures |t| <= |s|
  {
    if s != [] && IsSpace(s[|s| - 1]) then TrimRight(s[..|s| - 1]) else s
  }

  function Trim(s: seq<char>): (t: seq<char>)
    ensures |t| <= |s|
  {
    TrimRight(s[SpaceRun(s)..])
  }

  /** `t` has no white space at either end. */
  predicate Tight(t: seq<char>) {
    t == [] || (!IsSpace(t[0]) && !IsSpace(t[|t| - 1]))
  }

  /** `s` is `t` with white space around it. */
  predicate Padded(s: seq<char>, l: seq<char>, t: seq<char>, r: seq<char>) {
    s == l + t + r && AllSpace(l) && AllSpace(r)
  }

  ghost predicate IsSpanOf(t: seq<char>, s: seq<char>) {
    Tight(t) && exists l, r :: Padded(s, l, t, r)
  }

  lemma {:induction false} TrimRightSplits(s: seq<char>) returns (r: seq<char>)
    ensures s == TrimRight(s) + r && AllSpace(r)
    ensures TrimRight(s) == [] || !IsSpace(TrimRight(s)[|TrimRight(s)| - 1])
  {
    r := [];
    if s != [] && IsSpace(s[|s| - 1]) {
      var r' := TrimRightSplits(s[..|s| - 1]);
      r := r' + [s[|s| - 1]];
    }
  }

  lemma TrimSplits(s: seq<char>) returns (l: seq<char>, r: seq<char>)
    ensures Padded(s, l, Trim(s), r) && Tight(Trim(s))
  {
    var k := SpaceRun(s);
    SpaceRunShape(s);
    l := s[..k];
    r := TrimRightSplits(s[k..]);
    assert s == l + s[k..];
    if Trim(s) != [] {
      assert Trim(s)[0] == (Trim(s) + r)[0] == s[k];
    }
  }

  lemma {:induction false} TrimRightOf(t: seq<char>, r: seq<char>)
    requires AllSpace(r) && (t == [] || !IsSpace(t[|t| - 1]))
    ensures TrimRight(t + r) == t
    decreases |r|
  {
    if r == [] {
      assert t + r == t;
    } else {
      assert (t + r)[..|t + r| - 1] == t + r[..|r| - 1];
      TrimRightOf(t, r[..|r| - 1]);
    }
  }

  lemma TrimOfPadded(s: seq<char>, l: seq<char>, t: seq<char>, r: seq<char>)
    requires Padded(s, l, t, r) && Tight(t)
    ensures Trim(s) == t
  {
    if t == [] {
      SpaceRunIs(s, |s|);
      assert s[|s|..] == [];
    } else {
      assert s[..|l|] == l && s[|l|] == t[0];
      SpaceRunIs(s, |l|);
      assert s[|l|..] == t + r;
      TrimRightOf(t, r);
    }
  }

  lemma TrimOfBlank(s: seq<char>)
    requires AllSpace(s[0..|s|])
    ensures Trim(s) == []
  {
    assert s == s[0..|s|] + [] + [];
    TrimOfPadded(s, s[0..|s|], [], []);
  }

  lemma TrimOfSpan(s: seq<char>, start: nat, end: nat)
    requires start <= end < |s| && AllSpace(s[0..start]) && AllSpace(s[end + 1..])
    requires !IsSpace(s[start]) && !IsSpace(s[end])
    ensures Trim(s) == s[start..end + 1]
  {
    var t := s[start..end + 1];
    assert s == s[0..start] + t + s[end + 1..];
    TrimOfPadded(s, s[0..start], t, s[end + 1..]);
  }

  /** `Trim` is the one span of `s` from its first to its last non-space. */
  lemma TrimIsTheSpan(s: seq<char>, t: seq<char>)
    ensures Trim(s) == t <==> IsSpanOf(t, s)
  {
    if Trim(s) == t {
      var l, r := TrimSplits(s);
    } else if IsSpanOf(t, s) {
      var l, r :| Padded(s, l, t, r);
      TrimOfPadded(s, l, t, r);
    }
  }

  lemma TrimIdempotent(s: seq<char>)
    ensures Trim(Trim(s)) == Trim(s)
  {
    var l, r := TrimSplits(s);
    assert Trim(s) == [] + Trim(s) + [];
    TrimOfPadded(Trim(s), [], Trim(s), []);
  }

  lemma ReverseInvolution(s: seq<char>)
    ensures Reverse(Reverse(s)) == s && |Reverse(s)| == |s|
  {
  }

  lemma ReverseConcat(a: seq<char>, b: seq<char>)
    ensures Reverse(a + b) == Reverse(b) + Reverse(a)
  {
  }

  lemma TrimReverseCommute(s: seq<char>)
    ensures Trim(Reverse(s)) == Reverse(Trim(s))
  {
    var l, r := TrimSplits(s);
    ReverseConcat(l + Trim(s), r);
    ReverseConcat(l, Trim(s));
    assert Reverse(r) + (Reverse(Trim(s)) + Reverse(l)) == Reverse(r) + Reverse(Trim(s)) + Reverse(l);
    TrimOfPadded(Reverse(s), Reverse(r), Reverse(Trim(s)), Reverse(l));
  }

  // ----- The integer grammar -----

  /** `s` is space* [+-]? digit+ space*, cut into those four pieces. */
  predicate Numeral(s: seq<char>, l: seq<char>, sign: seq<char>, ds: seq<char>, r: seq<char>) {
    && s == l + sign + ds + r
    && AllSpace(l) && (sign == [] || sign == ['+'] || sign == ['-'])
    && ds != [] && AllDigits(ds) && AllSpace(r)
  }

  function Signed(sign: seq<char>, magnitude: nat): int {
    if sign == ['-'] then 0 - magnitude else magnitude
  }

  /** `s` is a numeral of magnitude at most INT_MAX whose signed value is `n`. */
  ghost predicate Denotes(s: seq<char>, n: int) {
    exists l, sign, ds, r ::
      Numeral(s, l, sign, ds, r) && Value(ds) <= INT_MAX && n == Signed(sign, Value(ds))
  }

  /** Position of the first digit if `s` is a numeral: past the white space and a sign. */
  function Body(s: seq<char>): (p: nat)
    ensures p <= |s|
  {
    var k := SpaceRun(s);
    if k < |s| && (s[k] == '-' || s[k] == '+') then k + 1 else k
  }

  /** digit+ space* up to the end of the string, with a value of at most INT_MAX. */
  function Magnitude(s: seq<char>): Option<nat> {
    var d := DigitRun(s);
    if d == 0 || Value(s[..d]) > INT_MAX || SpaceRun(s[d..]) < |s| - d then None
    else Some(Value(s[..d]))
  }

  predicate Negative(s: seq<char>) {
    SpaceRun(s) < |s| && s[SpaceRun(s)] == '-'
  }

  /** The left-to-right scan of `str_to_int`. */
  function ParseInt(s: seq<char>): Option<int> {
    match Magnitude(s[Body(s)..])
    case None => None
    case Some(m) => Some(if Negative(s) then 0 - m else m)
  }

  /** The first character behind the white space is the sign, or the first digit. */
  lemma NumeralFirst(sign: seq<char>, ds: seq<char>, r: seq<char>)
    requires (sign == [] || sign == ['+'] || sign == ['-']) && ds != [] && AllDigits(ds)
    ensures var x := sign + (ds + r);
            && !IsSpace(x[0]) && (x[0] == '-' <==> sign == ['-'])
            && (x[0] == '-' || x[0] == '+' <==> sign != [])
  {
    assert IsDigit(ds[0]);
  }

  lemma SpaceRunOf(l: seq<char>, x: seq<char>)
    requires AllSpace(l) && x != [] && !IsSpace(x[0])
    ensures SpaceRun(l + x) == |l| && (l + x)[|l|] == x[0]
  {
    assert (l + x)[..|l|] == l;
    SpaceRunIs(l + x, |l|);
  }

  lemma Regrouped(l: seq<char>, sign: seq<char>, ds: seq<char>, r: seq<char>)
    ensures l + sign + ds + r == l + (sign + (ds + r))
  {
  }

  lemma NumeralHead(s: seq<char>, l: seq<char>, sign: seq<char>, ds: seq<char>, r: seq<char>)
    requires Numeral(s, l, sign, ds, r)
    ensures SpaceRun(s) == |l| < |s| && Body(s) == |l| + |sign|
    ensures s[|l|] == '-' <==> sign == ['-']
  {
    Regrouped(l, sign, ds, r);
    NumeralFirst(sign, ds, r);
    SpaceRunOf(l, sign + (ds + r));
  }

  lemma NumeralTail(s: seq<char>, l: seq<char>, sign: seq<char>, ds: seq<char>, r: seq<char>)
    requires Numeral(s, l, sign, ds, r)
    ensures s[|l| + |sign|..] == ds + r
  {
    assert s == (l + sign) + (ds + r);
  }

  lemma MagnitudeOf(ds: seq<char>, r: seq<char>)
    requires ds != [] && AllDigits(ds) && AllSpace(r)
    ensures Magnitude(ds + r) == if Value(ds) <= INT_MAX then Some(Value(ds)) else None
  {
    var x := ds + r;
    assert x[..|ds|] == ds && x[|ds|..] == r && r[..|r|] == r;
    assert r != [] ==> x[|ds|] == r[0] && IsSpace(r[0]);
    DigitRunIs(x, |ds|);
    SpaceRunIs(r, |r|);
  }

  lemma ParseBy(s: seq<char>, sign: seq<char>, rest: seq<char>)
    requires rest == s[Body(s)..] && (sign == [] || sign == ['+'] || sign == ['-'])
    requires Negative(s) <==> sign == ['-']
    ensures ParseInt(s) == match Magnitude(rest) case None => None case Some(m) => Some(Signed(sign, m))
  {
  }

  lemma NumeralParses(s: seq<char>, l: seq<char>, sign: seq<char>, ds: seq<char>, r: seq<char>)
    requires Numeral(s, l, sign, ds, r)
    ensures ParseInt(s) == if Value(ds) <= INT_MAX then Some(Signed(sign, Value(ds))) else None
  {
    NumeralHead(s, l, sign, ds, r);
    NumeralTail(s, l, sign, ds, r);
    MagnitudeOf(ds, r);
    ParseBy(s, sign, ds + r);
  }

  lemma FourPieces(s: seq<char>, k: nat, p: nat, d: nat)
    requires k <= p && p + d <= |s|
    ensures s == s[..k] + s[k..p] + s[p..][..d] + s[p..][d..]
  {
  }

  /** A magnitude is digit+ space*, up to the end. */
  lemma MagnitudePieces(x: seq<char>)
    requires Magnitude(x).Some?
    ensures var d := DigitRun(x);
            x[..d] != [] && AllDigits(x[..d]) && AllSpace(x[d..]) && Magnitude(x) == Some(Value(x[..d]))
  {
    var r := x[DigitRun(x)..];
    SpaceRunShape(r);
    assert r[..|r|] == r;
  }

  lemma OneCharacter(s: seq<char>, k: nat)
    requires k < |s|
    ensures s[k..k + 1] == [s[k]]
  {
  }

  lemma SignPiece(s: seq<char>, k: nat, p: nat)
    requires k == SpaceRun(s) && p == Body(s)
    ensures k <= p && AllSpace(s[..k])
    ensures s[k..p] == [] || s[k..p] == ['+'] || s[k..p] == ['-']
    ensures Negative(s) <==> s[k..p] == ['-']
  {
    SpaceRunShape(s);
    if k < p {
      OneCharacter(s, k);
    } else {
      assert s[k..k] == [];
    }
  }

  /** The four pieces of an accepted string. */
  lemma ParsedPieces(s: seq<char>)
      returns (l: seq<char>, sign: seq<char>, ds: seq<char>, r: seq<char>)
    requires ParseInt(s).Some?
    ensures Numeral(s, l, sign, ds, r) && Magnitude(s[Body(s)..]) == Some(Value(ds))
    ensures Negative(s) <==> sign == ['-']
  {
    var k, p := SpaceRun(s), Body(s);
    var d := DigitRun(s[p..]);
    l, sign, ds, r := s[..k], s[k..p], s[p..][..d], s[p..][d..];
    SignPiece(s, k, p);
    MagnitudePieces(s[p..]);
    FourPieces(s, k, p, d);
  }

  lemma ParsedIsNumeral(s: seq<char>)
    requires ParseInt(s).Some?
    ensures Denotes(s, ParseInt(s).value)
  {
    var l, sign, ds, r := ParsedPieces(s);
    ParseBy(s, sign, s[Body(s)..]);
  }

  /** The scan accepts exactly the grammar and yields exactly the value it denotes. */
  lemma ParseIntExact(s: seq<char>, n: int)
    ensures ParseInt(s) == Some(n) <==> Denotes(s, n)
  {
    if ParseInt(s) == Some(n) {
      ParsedIsNumeral(s);
    }
    if Denotes(s, n) {
      var l, sign, ds, r :|
        Numeral(s, l, sign, ds, r) && Value(ds) <= INT_MAX && n == Signed(sign, Value(ds));
      NumeralParses(s, l, sign, ds, r);
    }
  }

  /** Printing then parsing, with any white space, leading zeros and sign: the value comes back
      exactly when its magnitude is at most INT_MAX, so every int but INT_MIN survives. */
  lemma RoundTrip(l: seq<char>, sign: seq<char>, zeros: seq<char>, m: nat, r: seq<char>)
    requires AllSpace(l) && AllSpace(r) && (sign == [] || sign == ['+'] || sign == ['-'])
    requires forall k :: 0 <= k < |zeros| ==> zeros[k] == '0'
    ensures ParseInt(l + sign + (zeros + Digits(m)) + r)
         == if m <= INT_MAX then Some(Signed(sign, m)) else None
  {
    var s := l + sign + (zeros + Digits(m)) + r;
    LeadingZeros(zeros, Digits(m));
    ValueOfDigits(m);
    assert Numeral(s, l, sign, zeros + Digits(m), r);
    NumeralParses(s, l, sign, zeros + Digits(m), r);
  }

  /** The decimal text of an int as `printf("%d")` writes it. */
  function Show(n: int): seq<char> {
    if n < 0 then ['-'] + Digits(-n) else Digits(n)
  }

  lemma ShownParses(sign: seq<char>, m: nat)
    requires sign == [] || sign == ['-']
    ensures ParseInt(sign + Digits(m)) == if m <= INT_MAX then Some(Signed(sign, m)) else None
  {
    assert [] + sign + ([] + Digits(m)) + [] == sign + Digits(m);
    RoundTrip([], sign, [], m, []);
  }

  /** Of all the ints, INT_MIN alone is not read back from its own text. */
  lemma PrintedIntComesBack(n: int)
    requires -INT_MAX - 1 <= n <= INT_MAX
    ensures ParseInt(Show(n)) == Some(n) <==> n != -INT_MAX - 1
  {
    if n < 0 {
      ShownParses(['-'], -n);
    } else {
      ShownParses([], n);
      assert [] + Digits(n) == Digits(n);
    }
  }

  lemma NumeralPadded(s: seq<char>, lt: seq<char>, t: seq<char>, rt: seq<char>,
                      l: seq<char>, sign: seq<char>, ds: seq<char>, r: seq<char>)
    requires Padded(s, lt, t, rt) && Numeral(t, l, sign, ds, r)
    ensures Numeral(s, lt + l, sign, ds, r + rt)
  {
    assert s == (lt + l) + sign + ds + (r + rt);
  }

  lemma NumeralTrimmed(s: seq<char>, l: seq<char>, sign: seq<char>, ds: seq<char>, r: seq<char>)
    requires Numeral(s, l, sign, ds, r)
    ensures Numeral(Trim(s), [], sign, ds, [])
  {
    var t := sign + ds;
    assert s == l + t + r;
    assert t[|t| - 1] == ds[|ds| - 1] && IsDigit(ds[|ds| - 1]);
    assert t[0] == (if sign == [] then ds[0] else sign[0]) && IsDigit(ds[0]);
    TrimOfPadded(s, l, t, r);
    assert t == [] + sign + ds + [];
  }

  lemma DenotesTrim(s: seq<char>, n: int)
    ensures Denotes(s, n) <==> Denotes(Trim(s), n)
  {
    if Denotes(Trim(s), n) {
      var lt, rt := TrimSplits(s);
      var l, sign, ds, r :|
        Numeral(Trim(s), l, sign, ds, r) && Value(ds) <= INT_MAX && n == Signed(sign, Value(ds));
      NumeralPadded(s, lt, Trim(s), rt, l, sign, ds, r);
    }
    if Denotes(s, n) {
      var l, sign, ds, r :|
        Numeral(s, l, sign, ds, r) && Value(ds) <= INT_MAX && n == Signed(sign, Value(ds));
      NumeralTrimmed(s, l, sign, ds, r);
    }
  }

  /** `str_to_int` cannot tell a string from its trimmed form. */
  lemma ParseIntAfterTrim(s: seq<char>)
    ensures ParseInt(Trim(s)) == ParseInt(s)
  {
    if ParseInt(s).Some? {
      ParseIntExact(s, ParseInt(s).value);
      DenotesTrim(s, ParseInt(s).value);
      ParseIntExact(Trim(s), ParseInt(s).value);
    } else if ParseInt(Trim(s)).Some? {
      ParseIntExact(Trim(s), ParseInt(Trim(s)).value);
      DenotesTrim(s, ParseInt(Trim(s)).value);
      ParseIntExact(s, ParseInt(Trim(s)).value);
    }
  }

  // ----- The laws in literal characters -----

  /** Space, tab, newline, vertical tab, form feed and carriage return. */
  const WHITE: set<char> := {' ', '\t', '\n', '\U{B}', '\U{C}', '\r'}

  const DIGITS := "0123456789"

  lemma WhiteIsSpace(c: char)
    ensures IsSpace(c) <==> c == ' ' || c == '\t' || c == '\n' || c == '\U{B}' || c == '\U{C}' || c == '\r'
    ensures IsSpace(c) <==> c in WHITE
  {
    assert '\t' as int == 9 && '\n' as int == 10 && '\U{B}' as int == 11;
    assert '\U{C}' as int == 12 && '\r' as int == 13;
  }

  predicate AllWhite(s: seq<char>) {
    forall k :: 0 <= k < |s| ==> s[k] in WHITE
  }

  lemma AllWhiteIsSpace(s: seq<char>)
    ensures AllWhite(s) <==> AllSpace(s)
  {
    forall k | 0 <= k < |s| ensures s[k] in WHITE <==> IsSpace(s[k]) {
      WhiteIsSpace(s[k]);
    }
  }

  /** Trimming leaves nothing exactly of a string of these six characters, and otherwise a text
      with none of them at its ends. */
  lemma TrimWhiteExactly(s: seq<char>)
    ensures Trim(s) == [] <==> AllWhite(s)
    ensures Trim(s) != [] ==> Trim(s)[0] !in WHITE && Trim(s)[|Trim(s)| - 1] !in WHITE
  {
    AllWhiteIsSpace(s);
    var l, r := TrimSplits(s);
    if AllSpace(s) {
      assert s[0..|s|] == s;
      TrimOfBlank(s);
    }
    if Trim(s) == [] {
      assert s == l + r;
    } else {
      WhiteIsSpace(Trim(s)[0]);
      WhiteIsSpace(Trim(s)[|Trim(s)| - 1]);
    }
  }

  /** Any padding with these six characters is trimmed off, and changes nothing for `str_to_int`. */
  lemma PaddingIgnored(l: seq<char>, t: seq<char>, r: seq<char>)
    requires AllWhite(l) && AllWhite(r)
    ensures Trim(l + t + r) == Trim(t) && ParseInt(l + t + r) == ParseInt(t)
  {
    AllWhiteIsSpace(l);
    AllWhiteIsSpace(r);
    var lt, rt := TrimSplits(t);
    PaddedTwice(l, lt, Trim(t), rt, r);
    TrimOfPadded(l + t + r, l + lt, Trim(t), rt + r);
    ParseIntAfterTrim(l + t + r);
    ParseIntAfterTrim(t);
  }

  lemma PaddedTwice(l: seq<char>, lt: seq<char>, t: seq<char>, rt: seq<char>, r: seq<char>)
    requires AllSpace(l) && AllSpace(lt) && AllSpace(rt) && AllSpace(r)
    ensures Padded(l + (lt + t + rt) + r, l + lt, t, rt + r)
  {
  }

  lemma DigitIsLiteral(c: char)
    ensures IsDigit(c) <==> c in DIGITS
    ensures IsDigit(c) ==> DIGITS[c as int - '0' as int] == c
  {
    assert |DIGITS| == 10;
    assert DIGITS[0] == '0' && DIGITS[1] == '1' && DIGITS[2] == '2' && DIGITS[3] == '3' && DIGITS[4] == '4';
    assert DIGITS[5] == '5' && DIGITS[6] == '6' && DIGITS[7] == '7' && DIGITS[8] == '8' && DIGITS[9] == '9';
    if IsDigit(c) {
      var d := c as int - '0' as int;
      assert 0 <= d < 10;
      assert DIGITS[d] as int == '0' as int + d;
    }
  }

  /** A single character is a number exactly if it is one of the ten digits, and then its place
      among them. */
  lemma OneCharacterNumber(c: char, n: int)
    ensures ParseInt([c]) == Some(n) <==> 0 <= n < 10 && c == DIGITS[n]
  {
    DigitIsLiteral(c);
    assert |DIGITS| == 10;
    if IsDigit(c) {
      OneDigit(c);
    } else {
      assert 0 <= n < 10 ==> DIGITS[n] in DIGITS;
      NoDigitNoNumber([c]);
    }
    if 0 <= n < 10 && c == DIGITS[n] {
      DigitPlace(n);
    }
  }

  lemma NoDigitNoNumber(s: seq<char>)
    requires forall k :: 0 <= k < |s| ==> !IsDigit(s[k])
    ensures ParseInt(s) == None
  {
    var x := s[Body(s)..];
    assert x != [] ==> x[0] == s[Body(s)];
    assert DigitRun(x) == 0;
  }

  lemma DigitPlace(n: nat)
    requires n < 10
    ensures DIGITS[n] as int == '0' as int + n
  {
    assert |DIGITS| == 10;
  }

  lemma OneDigit(c: char)
    requires IsDigit(c)
    ensures ParseInt([c]) == Some(c as int - '0' as int)
  {
    assert [] + [] + [c] + [] == [c];
    assert [c][..0] == [];
    NumeralParses([c], [], [], [c], []);
  }

  /** One more digit multiplies the value by ten and adds that digit; rejected once it exceeds
      2147483647. */
  lemma OneMoreDigit(ds: seq<char>, c: char)
    requires ds != [] && AllDigits(ds) && IsDigit(c)
    ensures var n := 10 * Value(ds) + (c as int - '0' as int);
            ParseInt(ds + [c]) == if n <= 2147483647 then Some(n) else None
  {
    ValueSnoc(ds, c);
    DigitsParse(ds + [c]);
  }

  lemma DigitsParse(x: seq<char>)
    requires x != [] && AllDigits(x)
    ensures ParseInt(x) == if Value(x) <= INT_MAX then Some(Value(x)) else None
  {
    BarePieces([], x);
    NumeralParses(x, [], [], x, []);
  }

  lemma BarePieces(sign: seq<char>, ds: seq<char>)
    ensures [] + sign + ds + [] == sign + ds
    ensures [] + ds == ds
  {
  }

  lemma LimitsFor(m: nat, a: seq<char>, b: seq<char>)
    requires m == 2147483647 && a == Digits(m) && b == Digits(m + 1)
    ensures ParseInt(a) == Some(m) && ParseInt(b) == None
    ensures ParseInt(['-'] + a) == Some(0 - m) && ParseInt(['-'] + b) == None
  {
    ShownParses([], m);
    ShownParses([], m + 1);
    ShownParses(['-'], m);
    ShownParses(['-'], m + 1);
    assert [] + a == a && [] + b == b;
  }

  lemma AppendDigit(q: nat, d: nat, before: seq<char>, after: seq<char>)
    requires 0 < q && d < 10 && Digits(q) == before && after == before + [DigitChar(d)]
    ensures Digits(10 * q + d) == after
  {
    assert (10 * q + d) / 10 == q && (10 * q + d) % 10 == d;
  }

  lemma LimitTexts(m: nat)
    requires m == 2147483647
    ensures Digits(m) == "2147483647" && Digits(m + 1) == "2147483648"
  {
    var q: nat := 2;
    AppendDigit(q, 1, "2", "21");
    q := 10 * q + 1;
    AppendDigit(q, 4, "21", "214");
    q := 10 * q + 4;
    AppendDigit(q, 7, "214", "2147");
    q := 10 * q + 7;
    AppendDigit(q, 4, "2147", "21474");
    q := 10 * q + 4;
    AppendDigit(q, 8, "21474", "214748");
    q := 10 * q + 8;
    AppendDigit(q, 3, "214748", "2147483");
    q := 10 * q + 3;
    AppendDigit(q, 6, "2147483", "21474836");
    q := 10 * q + 6;
    AppendDigit(q, 4, "21474836", "214748364");
    q := 10 * q + 4;
    AppendDigit(q, 7, "214748364", "2147483647");
    AppendDigit(q, 8, "214748364", "2147483648");
  }

  lemma SignedTexts(a: seq<char>, b: seq<char>)
    requires a == "2147483647" && b == "2147483648"
    ensures ['-'] + a == "-2147483647" && ['-'] + b == "-2147483648"
  {
  }

  /** The limits of `int`, as texts. */
  lemma IntLimits(s: seq<char>)
    ensures s == "2147483647" ==> ParseInt(s) == Some(2147483647)
    ensures s == "-2147483647" ==> ParseInt(s) == Some(-2147483647)
    ensures s == "2147483648" || s == "-2147483648" ==> ParseInt(s) == None
  {
    var m: nat := 2147483647;
    var a, b := Digits(m), Digits(m + 1);
    LimitTexts(m);
    SignedTexts(a, b);
    LimitsFor(m, a, b);
  }

  // ----- The laws on one buffer -----

  /** What `str_reverse` and `str_trim` make of a whole buffer. */
  function ReversedBuffer(b: seq<char>): (c: seq<char>)
    requires NUL in b
    ensures |c| == |b|
  {
    Reverse(Str(b)) + b[Len(b)..]
  }

  function TrimmedBuffer(b: seq<char>): (c: seq<char>)
    requires NUL in b
    ensures |c| == |b|
  {
    var t := Trim(Str(b));
    t + [NUL] + b[|t| + 1..]
  }

  lemma ReversedBufferHolds(b: seq<char>)
    requires NUL in b
    ensures NUL in ReversedBuffer(b) && Str(ReversedBuffer(b)) == Reverse(Str(b))
  {
    var c, n := ReversedBuffer(b), Len(b);
    assert forall i :: 0 <= i < n ==> c[i] == Str(b)[n - 1 - i] != NUL;
    assert c[n] == b[n];
    LenIs(c, n);
    assert c[..n] == Reverse(Str(b));
  }

  /** Reversing a buffer twice restores every byte of it. */
  lemma ReverseTwice(b: seq<char>)
    requires NUL in b
    ensures NUL in ReversedBuffer(b) && ReversedBuffer(ReversedBuffer(b)) == b
  {
    ReversedBufferHolds(b);
    ReverseInvolution(Str(b));
    BufferTail(b, Reverse(Str(b)));
    assert b == Str(b) + b[Len(b)..];
  }

  /** A string of the same length in front of the old tail leaves that tail. */
  lemma BufferTail(b: seq<char>, s: seq<char>)
    requires NUL in b && |s| == Len(b)
    ensures (s + b[Len(b)..])[|s|..] == b[Len(b)..]
  {
  }

  lemma NoNulInside(s: seq<char>)
    requires NUL !in s
    ensures NUL !in Trim(s)
  {
    var l, r := TrimSplits(s);
    assert forall i :: 0 <= i < |Trim(s)| ==> Trim(s)[i] == s[|l| + i];
  }

  lemma TrimmedBufferHolds(b: seq<char>)
    requires NUL in b
    ensures NUL in TrimmedBuffer(b) && Str(TrimmedBuffer(b)) == Trim(Str(b))
  {
    var c, t := TrimmedBuffer(b), Trim(Str(b));
    NoNulInside(Str(b));
    assert forall i :: 0 <= i < |t| ==> c[i] == t[i] && t[i] in t;
    assert c[|t|] == NUL && c[..|t|] == t;
    LenIs(c, |t|);
  }

  /** Trimming a buffer again changes no byte of it. */
  lemma TrimTwice(b: seq<char>)
    requires NUL in b
    ensures NUL in TrimmedBuffer(b) && TrimmedBuffer(TrimmedBuffer(b)) == TrimmedBuffer(b)
  {
    var c, t := TrimmedBuffer(b), Trim(Str(b));
    TrimmedBufferHolds(b);
    TrimIdempotent(Str(b));
    assert c == (t + [NUL]) + c[|t| + 1..];
  }

  /** In either order trimming and reversing leave the same string in the buffer. */
  lemma TrimReverseInPlace(b: seq<char>)
    requires NUL in b
    ensures NUL in ReversedBuffer(b) && NUL in TrimmedBuffer(b)
    ensures NUL in TrimmedBuffer(ReversedBuffer(b)) && NUL in ReversedBuffer(TrimmedBuffer(b))
    ensures Str(TrimmedBuffer(ReversedBuffer(b))) == Str(ReversedBuffer(TrimmedBuffer(b)))
  {
    ReversedBufferHolds(b);
    TrimmedBufferHolds(b);
    TrimmedBufferHolds(ReversedBuffer(b));
    ReversedBufferHolds(TrimmedBuffer(b));
    TrimReverseCommute(Str(b));
  }

  /** `str_to_int` finds the same in a buffer before and after `str_trim`. */
  lemma ParseTrimmedBuffer(b: seq<char>)
    requires NUL in b
    ensures NUL in TrimmedBuffer(b) && ParseInt(Str(TrimmedBuffer(b))) == ParseInt(Str(b))
  {
    TrimmedBufferHolds(b);
    ParseIntAfterTrim(Str(b));
  }

  // ----- The in-place code -----

  method StrLen(a: array<char>, from: nat) returns (n: nat)
    requires from <= a.Length && NUL in a[from..]
    ensures n == Len(a[from..])
  {
    n := 0;
    while a[from + n] != NUL
      invariant n <= Len(a[from..])
      invariant forall i :: 0 <= i < n ==> a[from..][i] != NUL
      decreases Len(a[from..]) - n
    {
      n := n + 1;
    }
    LenIs(a[from..], n);
  }

  /** The swapping loop of `str_reverse`. */
  method SwapEnds(str: array<char>, len: nat)
    requires len <= str.Length
    modifies str
    ensures forall k :: 0 <= k < len ==> str[k] == old(str[len - 1 - k])
    ensures forall k :: len <= k < str.Length ==> str[k] == old(str[k])
  {
    for i := 0 to len / 2
      invariant forall k :: 0 <= k < i ==> str[k] == old(str[len - 1 - k])
      invariant forall k :: 0 <= k < i ==> str[len - 1 - k] == old(str[k])
      invariant forall k :: i <= k < len - i ==> str[k] == old(str[k])
      invariant forall k :: len <= k < str.Length ==> str[k] == old(str[k])
    {
      var temp := str[i];
      str[i] := str[len - 1 - i];
      str[len - 1 - i] := temp;
    }
    forall k | 0 <= k < len ensures str[k] == old(str[len - 1 - k]) {
      assert k >= len - len / 2 ==> str[len - 1 - (len - 1 - k)] == old(str[len - 1 - k]);
    }
  }

  lemma ReverseOf(b: seq<char>, c: seq<char>, len: nat)
    requires len <= |b| == |c|
    requires forall k :: 0 <= k < len ==> c[k] == b[len - 1 - k]
    requires forall k :: len <= k < |b| ==> c[k] == b[k]
    ensures c == Reverse(b[..len]) + b[len..]
  {
  }

  method StrReverse(str: array?<char>) returns (ret: array?<char>)
    requires str != null ==> NUL in str[..]
    modifies str
    ensures ret == str
    ensures str != null ==> str[..] == ReversedBuffer(old(str[..]))
  {
    if str == null {
      return null;
    }
    ghost var b := str[..];
    assert str[0..] == b;
    var len := StrLen(str, 0);
    if len <= 1 {
      ReverseOf(b, b, len);
      return str;
    }
    SwapEnds(str, len);
    ReverseOf(b, str[..], len);
    return str;
  }

  /** The loop `while (isspace(*str)) str++`, from position `from`. */
  method SkipSpace(str: array<char>, from: nat) returns (p: nat)
    requires NUL in str[..] && from <= Len(str[..])
    ensures from <= p <= Len(str[..]) && (str[p] == NUL <==> p == Len(str[..]))
    ensures !IsSpace(str[p]) && AllSpace(Str(str[..])[from..p])
  {
    ghost var s := Str(str[..]);
    p := from;
    while IsSpace(str[p])
      invariant from <= p <= |s| && AllSpace(s[from..p])
      decreases |s| - p
    {
      assert s[from..p + 1] == s[from..p] + [str[p]];
      p := p + 1;
    }
    assert p < |s| ==> s[p] == str[p] != NUL;
  }

  lemma SpaceRunFrom(s: seq<char>, from: nat, p: nat)
    requires from <= p <= |s| && AllSpace(s[from..p]) && (p < |s| ==> !IsSpace(s[p]))
    ensures SpaceRun(s[from..]) == p - from
  {
    assert s[from..][..p - from] == s[from..p];
    SpaceRunIs(s[from..], p - from);
  }

  /** `strlen(start)` for a position inside the string. */
  method RestLength(str: array<char>, start: nat) returns (rest: nat)
    requires NUL in str[..] && start <= Len(str[..])
    ensures rest == Len(str[..]) - start
  {
    assert str[..][0..] == str[..] && str[..][start..] == str[start..];
    StrDrop(str[..], 0, start);
    rest := StrLen(str, start);
  }

  /** The loop that walks back over trailing white space. */
  method LastNonSpace(str: array<char>, start: nat) returns (end: nat)
    requires NUL in str[..] && start < Len(str[..]) && !IsSpace(str[start])
    ensures start <= end < Len(str[..]) && !IsSpace(str[end])
    ensures AllSpace(Str(str[..])[end + 1..])
  {
    var rest := RestLength(str, start);
    end := start + rest - 1;
    while end > start && IsSpace(str[end])
      invariant start <= end < start + rest
      invariant forall k :: end < k < start + rest ==> IsSpace(str[k])
      decreases end
    {
      end := end - 1;
    }
  }

  /** The scans of `str_trim`: where the trimmed text starts and how long it is. */
  method TrimBounds(str: array<char>) returns (start: nat, len: nat)
    requires NUL in str[..]
    ensures start + len < str.Length && str[start..start + len] == Trim(Str(str[..]))
  {
    ghost var s := Str(str[..]);
    start := SkipSpace(str, 0);
    if str[start] == NUL {
      TrimOfBlank(s);
      return 0, 0;
    }
    var end := LastNonSpace(str, start);
    TrimOfSpan(s, start, end);
    assert str[start..end + 1] == s[start..end + 1];
    len := end - start + 1;
  }

  /** Moves the `len` characters from `start` on to the front and terminates them. */
  method MoveToFront(str: array<char>, start: nat, len: nat)
    requires start + len < str.Length
    modifies str
    ensures str[..] == old(str[start..start + len]) + [NUL] + old(str[..])[len + 1..]
  {
    ghost var b := str[..];
    for i := 0 to len
      invariant forall k :: 0 <= k < i ==> str[k] == b[start..][k]
      invariant forall k :: i <= k < str.Length ==> str[k] == b[k]
    {
      str[i] := str[start + i];
    }
    str[len] := NUL;
    assert str[..len] == b[start..start + len];
  }

  method StrTrim(str: array?<char>) returns (ret: array?<char>)
    requires str != null ==> NUL in str[..]
    modifies str
    ensures ret == str
    ensures str != null ==> str[..] == TrimmedBuffer(old(str[..]))
  {
    if str == null {
      return null;
    }
    var start, len := TrimBounds(str);
    MoveToFront(str, start, len);
    return str;
  }

  /** The `int *result` of `str_to_int`. */
  class IntCell {
    var value: int
  }

  /** `temp = temp * 10 + (*str - '0')`: the largest value that a 64-bit `long temp` has to hold. */
  function Accumulate(temp: nat, c: char): (r: nat)
    requires temp <= INT_MAX && IsDigit(c)
    ensures r <= 21474836479
  {
    temp * 10 + (c as int - '0' as int)
  }

  lemma NextDigit(s: seq<char>, q: nat, p: nat)
    requires q <= p < |s| && AllDigits(s[q..p]) && IsDigit(s[p]) && Value(s[q..p]) <= INT_MAX
    ensures AllDigits(s[q..p + 1]) && Value(s[q..p + 1]) == Accumulate(Value(s[q..p]), s[p])
  {
    assert s[q..p + 1] == s[q..p] + [s[p]];
    ValueSnoc(s[q..p], s[p]);
  }

  lemma LastDigit(s: seq<char>, q: nat, p: nat)
    requires q <= p <= |s| && AllDigits(s[q..p]) && (p < |s| ==> !IsDigit(s[p]))
    ensures DigitRun(s[q..]) == p - q && s[q..][..DigitRun(s[q..])] == s[q..p]
  {
    assert s[q..][..p - q] == s[q..p];
    DigitRunIs(s[q..], p - q);
  }

  lemma TooLarge(s: seq<char>, q: nat, p: nat)
    requires q <= p <= |s| && AllDigits(s[q..p]) && Value(s[q..p]) > INT_MAX
    ensures Value(s[q..][..DigitRun(s[q..])]) > INT_MAX
  {
    assert s[q..][..p - q] == s[q..p];
    OverflowIsFinal(s[q..], p - q);
  }

  /** The accumulating loop: the value of the digits from `q` on, or None as soon as it exceeds
      INT_MAX. */
  method ReadDigits(str: array<char>, q: nat) returns (temp: Option<int>, p: nat)
    requires NUL in str[..] && q <= Len(str[..])
    ensures var ds := Str(str[..])[q..];
            if Value(ds[..DigitRun(ds)]) <= INT_MAX
            then temp == Some(Value(ds[..DigitRun(ds)])) && p == q + DigitRun(ds)
            else temp == None
  {
    ghost var s := Str(str[..]);
    p := q;
    var acc := 0;
    while IsDigit(str[p])
      invariant q <= p <= |s| && AllDigits(s[q..p])
      invariant acc == Value(s[q..p]) && acc <= INT_MAX
      decreases |s| - p
    {
      NextDigit(s, q, p);
      acc := Accumulate(acc, str[p]);
      p := p + 1;
      if acc > INT_MAX {
        TooLarge(s, q, p);
        return None, p;
      }
    }
    LastDigit(s, q, p);
    temp := Some(acc);
  }

  /** Once a prefix of the digits exceeds INT_MAX the whole run does, so the early return of
      `str_to_int` rejects nothing it should accept. */
  lemma OverflowIsFinal(s: seq<char>, k: nat)
    requires k <= |s| && AllDigits(s[..k])
    ensures k <= DigitRun(s) && Value(s[..k]) <= Value(s[..DigitRun(s)])
  {
    var ds := s[..DigitRun(s)];
    DigitRunCovers(s, k);
    assert ds[..k] == s[..k];
    ValuePrefixGrows(ds, k);
  }

  /** From the first digit to the end of the string. */
  method ScanMagnitude(str: array<char>, p: nat) returns (r: Option<nat>)
    requires NUL in str[..] && p <= Len(str[..])
    ensures r == Magnitude(Str(str[..])[p..])
  {
    ghost var ds := Str(str[..])[p..];
    if !IsDigit(str[p]) {
      DigitRunIs(ds, 0);
      return None;
    }
    assert DigitRun(ds) > 0;
    var temp, q := ReadDigits(str, p);
    if temp == None {
      return None;
    }
    assert Str(str[..])[q..] == ds[DigitRun(ds)..];
    ghost var e := q;
    q := SkipSpace(str, q);
    SpaceRunFrom(Str(str[..]), e, q);
    return if str[q] == NUL then temp else None;
  }

  /** The scan of `str_to_int`, up to its single store. */
  method ScanInt(str: array<char>) returns (r: Option<int>)
    requires NUL in str[..]
    ensures r == ParseInt(Str(str[..]))
  {
    ghost var s := Str(str[..]);
    var p := SkipSpace(str, 0);
    SpaceRunFrom(s, 0, p);
    assert s[0..] == s;
    if str[p] == NUL {
      assert s[Body(s)..] == [];
      return None;
    }
    var sign := 1;
    if str[p] == '-' {
      sign := -1;
      p := p + 1;
    } else if str[p] == '+' {
      p := p + 1;
    }
    assert p == Body(s) && (sign == -1 <==> Negative(s));
    var temp := ScanMagnitude(str, p);
    return if temp == None then None else Some(temp.value * sign);
  }

  method StrToInt(str: array?<char>, result: IntCell?) returns (ok: int)
    requires str != null ==> NUL in str[..]
    modifies result
    ensures ok == 0 || ok == 1
    ensures ok == 1 <==>
      str != null && result != null && ParseInt(Str(str[..])).Some?
    ensures ok == 1 ==> result.value == ParseInt(Str(str[..])).value
    ensures ok == 0 && result != null ==> result.value == old(result.value)
  {
    if str == null || result == null {
      return 0;
    }
    var n := ScanInt(str);
    if n == None {
      return 0;
    }
    result.value := n.value;
    return 1;
  }
}
