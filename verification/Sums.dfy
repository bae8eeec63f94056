/** Sums of a measure over the elements of a sequence. */
module Sums {

  function Total<T>(f: T -> nat, xs: seq<T>): nat {
    if xs == [] then 0 else f(xs[0]) + Total(f, xs[1..])
  }

  lemma {:induction false} TotalUpdate<T>(f: T -> nat, xs: seq<T>, k: nat, x: T)
    requires k < |xs|
    ensures Total(f, xs[k := x]) == Total(f, xs) - f(xs[k]) + f(x)
  {
    if k == 0 {
      assert xs[0 := x][1..] == xs[1..];
    } else {
      assert xs[k := x][1..] == xs[1..][k - 1 := x];
      TotalUpdate(f, xs[1..], k - 1, x);
    }
  }

  /** When every element measures at most `c`, the sum is full exactly when every element is. */
  lemma {:induction false} TotalBound<T>(f: T -> nat, xs: seq<T>, c: nat)
    requires forall k :: 0 <= k < |xs| ==> f(xs[k]) <= c
    ensures Total(f, xs) <= |xs| * c
    ensures Total(f, xs) == |xs| * c <==> forall k :: 0 <= k < |xs| ==> f(xs[k]) == c
  {
    if xs != [] {
      TotalBound(f, xs[1..], c);
      assert |xs| * c == |xs[1..]| * c + c;
      assert f(xs[0]) <= c;
      if Total(f, xs) == |xs| * c {
        forall k | 0 <= k < |xs| ensures f(xs[k]) == c {
          assert k > 0 ==> xs[k] == xs[1..][k - 1];
        }
      } else if f(xs[0]) == c {
        var k :| 0 <= k < |xs[1..]| && f(xs[1..][k]) != c;
        assert xs[k + 1] == xs[1..][k];
      }
    }
  }
}
