/** Weighted sums over sequences. */
module Sums {
  function Sum<T>(s: seq<T>, w: T -> int): int {
    if s == [] then 0 else Sum(s[..|s| - 1], w) + w(s[|s| - 1])
  }

  lemma {:induction false} SumUpdate<T>(s: seq<T>, w: T -> int, i: nat, x: T)
    requires i < |s|
    ensures Sum(s[i := x], w) == Sum(s, w) - w(s[i]) + w(x)
  {
    var n := |s| - 1;
    if i == n {
      assert s[i := x][..n] == s[..n];
    } else {
      assert s[i := x][..n] == s[..n][i := x];
      SumUpdate(s[..n], w, i, x);
    }
  }

  lemma SumAppend<T>(s: seq<T>, w: T -> int, x: T)
    ensures Sum(s + [x], w) == Sum(s, w) + w(x)
  {
    assert (s + [x])[..|s|] == s;
  }

  function RealSum<T>(s: seq<T>, w: T -> real): real {
    if s == [] then 0.0 else w(s[0]) + RealSum(s[1..], w)
  }

  lemma {:induction false} RealSumConcat<T>(a: seq<T>, b: seq<T>, w: T -> real)
    ensures RealSum(a + b, w) == RealSum(a, w) + RealSum(b, w)
  {
    if a == [] {
      assert a + b == b;
    } else {
      assert (a + b)[1..] == a[1..] + b;
      RealSumConcat(a[1..], b, w);
    }
  }

  lemma RealSumCons<T>(x: T, s: seq<T>, w: T -> real)
    ensures RealSum([x] + s, w) == w(x) + RealSum(s, w)
  {
    assert ([x] + s)[1..] == s;
  }

  lemma RealSumOne<T>(x: T, w: T -> real)
    ensures RealSum([x], w) == w(x)
  {
    assert [x][1..] == [];
  }

  lemma {:induction false} RealSumSame<T>(s: seq<T>, v: T -> real, w: T -> real)
    requires forall i :: 0 <= i < |s| ==> v(s[i]) == w(s[i])
    ensures RealSum(s, v) == RealSum(s, w)
  {
    if s != [] {
      RealSumSame(s[1..], v, w);
    }
  }

  function Id(x: real): real { x }
}
