/**
 Characters, decimal numerals and NUL-terminated buffers, as `isspace`, `isdigit` and `strlen`
 see them in the C locale (sections 7.4.1.10, 7.4.1.5 and 7.24.6.3 of ISO C11).
 */
module Text {

  datatype Option<+T> = None | Some(value: T)

  const NUL: char := '\0'
  const INT_MAX: int := 2147483647

  predicate IsSpace(c: char) {
    c == ' ' || 9 <= c as int <= 13
  }

  predicate IsDigit(c: char) {
    '0' <= c <= '9'
  }

  predicate AllSpace(s: seq<char>) {
    forall k :: 0 <= k < |s| ==> IsSpace(s[k])
  }

  predicate AllDigits(s: seq<char>) {
    forall k :: 0 <= k < |s| ==> IsDigit(s[k])
  }

  /** Length of the leading run of white space. */
  function SpaceRun(s: seq<char>): (n: nat)
    ensures n <= |s|
  {
    if s != [] && IsSpace(s[0]) then 1 + SpaceRun(s[1..]) else 0
  }

  /** Length of the leading run of digits. */
  function DigitRun(s: seq<char>): (n: nat)
    ensures n <= |s| && AllDigits(s[..n])
  {
    if s != [] && IsDigit(s[0]) then 1 + DigitRun(s[1..]) else 0
  }

  lemma {:induction false} SpaceRunIs(s: seq<char>, n: nat)
    requires n <= |s| && AllSpace(s[..n]) && (n < |s| ==> !IsSpace(s[n]))
    ensures SpaceRun(s) == n
  {
    if n > 0 {
      assert s[..n][0] == s[0] && s[1..][..n - 1] == s[..n][1..];
      SpaceRunIs(s[1..], n - 1);
    }
  }

  lemma {:induction false} SpaceRunShape(s: seq<char>)
    ensures AllSpace(s[..SpaceRun(s)]) && (SpaceRun(s) < |s| ==> !IsSpace(s[SpaceRun(s)]))
  {
    if s != [] && IsSpace(s[0]) {
      SpaceRunShape(s[1..]);
      assert s[..SpaceRun(s)] == [s[0]] + s[1..][..SpaceRun(s[1..])];
    }
  }

  lemma {:induction false} DigitRunIs(s: seq<char>, n: nat)
    requires n <= |s| && AllDigits(s[..n]) && (n < |s| ==> !IsDigit(s[n]))
    ensures DigitRun(s) == n
  {
    if n > 0 {
      assert s[..n][0] == s[0] && s[1..][..n - 1] == s[..n][1..];
      DigitRunIs(s[1..], n - 1);
    }
  }

  /** A run of digits at the front is part of the whole run. */
  lemma {:induction false} DigitRunCovers(s: seq<char>, n: nat)
    requires n <= |s| && AllDigits(s[..n])
    ensures n <= DigitRun(s)
  {
    if n > 0 {
      assert s[..n][0] == s[0] && s[1..][..n - 1] == s[..n][1..];
      DigitRunCovers(s[1..], n - 1);
    }
  }

  // ----- Decimal numerals -----

  function Value(ds: seq<char>): nat
    requires AllDigits(ds)
  {
    if ds == [] then 0
    else 10 * Value(ds[..|ds| - 1]) + (ds[|ds| - 1] as int - '0' as int)
  }

  lemma ValueSnoc(ds: seq<char>, c: char)
    requires AllDigits(ds) && IsDigit(c)
    ensures AllDigits(ds + [c]) && Value(ds + [c]) == 10 * Value(ds) + (c as int - '0' as int)
  {
    assert (ds + [c])[..|ds|] == ds;
  }

  function DigitChar(d: nat): (c: char)
    requires d < 10
    ensures IsDigit(c)
  {
    ('0' as int + d) as char
  }

  /** The canonical numeral of `n`. */
  function Digits(n: nat): (ds: seq<char>)
    ensures ds != [] && AllDigits(ds)
  {
    if n < 10 then [DigitChar(n)] else Digits(n / 10) + [DigitChar(n % 10)]
  }

  lemma {:induction false} ValueOfDigits(n: nat)
    ensures Value(Digits(n)) == n
  {
    var ds := Digits(n);
    if n >= 10 {
      assert ds[..|ds| - 1] == Digits(n / 10);
      ValueOfDigits(n / 10);
    }
  }

  lemma {:induction false} ValuePrefixGrows(ds: seq<char>, k: nat)
    requires AllDigits(ds) && k <= |ds|
    ensures Value(ds[..k]) <= Value(ds)
  {
    if k < |ds| {
      assert ds[..|ds| - 1][..k] == ds[..k];
      ValuePrefixGrows(ds[..|ds| - 1], k);
    } else {
      assert ds[..k] == ds;
    }
  }

  lemma {:induction false} LeadingZeros(zs: seq<char>, ds: seq<char>)
    requires AllDigits(ds) && forall k :: 0 <= k < |zs| ==> zs[k] == '0'
    ensures AllDigits(zs + ds) && Value(zs + ds) == Value(ds)
    decreases |ds| + |zs|
  {
    if ds != [] {
      assert (zs + ds)[..|zs + ds| - 1] == zs + ds[..|ds| - 1];
      LeadingZeros(zs, ds[..|ds| - 1]);
    } else if zs != [] {
      assert (zs + ds)[..|zs + ds| - 1] == zs[..|zs| - 1] + ds;
      LeadingZeros(zs[..|zs| - 1], ds);
    }
  }

  // ----- NUL-terminated buffers -----

  /** What `strlen` returns. */
  function Len(b: seq<char>): (n: nat)
    requires NUL in b
    ensures n < |b| && b[n] == NUL && forall i :: 0 <= i < n ==> b[i] != NUL
  {
    if b[0] == NUL then 0 else 1 + Len(b[1..])
  }

  /** The string held in a buffer. */
  function Str(b: seq<char>): (s: seq<char>)
    requires NUL in b
    ensures |s| == Len(b) && forall i :: 0 <= i < |s| ==> s[i] == b[i] && s[i] != NUL
  {
    b[..Len(b)]
  }

  lemma LenIs(b: seq<char>, n: nat)
    requires n < |b| && b[n] == NUL && forall i :: 0 <= i < n ==> b[i] != NUL
    ensures NUL in b && Len(b) == n && Str(b) == b[..n]
  {
    var m := Len(b);
    assert !(m < n) && !(n < m);
  }

  lemma MiddleSlice(x: seq<char>, d: nat, n: nat)
    requires d <= n <= |x|
    ensures x[d..][..n - d] == x[..n][d..]
  {
  }

  lemma LenDrop(x: seq<char>, d: nat)
    requires NUL in x && d <= Len(x)
    ensures NUL in x[d..] && Len(x[d..]) == Len(x) - d
  {
    LenIs(x[d..], Len(x) - d);
  }

  /** The string from a later position on. */
  lemma StrDrop(b: seq<char>, from: nat, k: nat)
    requires from <= |b| && NUL in b[from..] && from <= k <= from + Len(b[from..])
    ensures NUL in b[k..] && Str(b[k..]) == Str(b[from..])[k - from..]
  {
    var x := b[from..];
    assert b[k..] == x[k - from..];
    LenDrop(x, k - from);
    MiddleSlice(x, k - from, Len(x));
  }
}
