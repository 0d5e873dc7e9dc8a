/** Stable descending order by total: what `sort.SliceStable` promises, and that it has one answer. */
module Ranking {
  import opened CostTypes
  import opened Sums

  ghost predicate Descending(s: seq<GroupSeries>) {
    forall i, j :: 0 <= i < j < |s| ==> s[i].total >= s[j].total
  }

  /** The groups with a given total, in the order they stand. */
  function WithTotal(s: seq<GroupSeries>, v: real): seq<GroupSeries> {
    if s == [] then []
    else (if s[0].total == v then [s[0]] else []) + WithTotal(s[1..], v)
  }

  /** Descending, and groups that tie stand as they stood before. */
  ghost predicate IsStableRanking(before: seq<GroupSeries>, after: seq<GroupSeries>) {
    Descending(after) && forall v :: WithTotal(after, v) == WithTotal(before, v)
  }

  function Insert(g: GroupSeries, s: seq<GroupSeries>): seq<GroupSeries> {
    if s == [] || g.total >= s[0].total then [g] + s
    else [s[0]] + Insert(g, s[1..])
  }

  function StableSort(s: seq<GroupSeries>): seq<GroupSeries> {
    if s == [] then [] else Insert(s[0], StableSort(s[1..]))
  }

  lemma WithTotalCons(g: GroupSeries, s: seq<GroupSeries>, v: real)
    ensures WithTotal([g] + s, v) == (if g.total == v then [g] else []) + WithTotal(s, v)
  {
    assert ([g] + s)[1..] == s;
  }

  lemma {:induction false} InsertKeeps(g: GroupSeries, s: seq<GroupSeries>, v: real)
    ensures WithTotal(Insert(g, s), v) == (if g.total == v then [g] else []) + WithTotal(s, v)
  {
    if s == [] || g.total >= s[0].total {
      WithTotalCons(g, s, v);
    } else {
      InsertKeeps(g, s[1..], v);
      WithTotalCons(s[0], Insert(g, s[1..]), v);
    }
  }

  lemma {:induction false} InsertContents(g: GroupSeries, s: seq<GroupSeries>)
    ensures |Insert(g, s)| == |s| + 1
    ensures multiset(Insert(g, s)) == multiset{g} + multiset(s)
  {
    if s != [] {
      assert s == [s[0]] + s[1..];
    }
    if s != [] && g.total < s[0].total {
      InsertContents(g, s[1..]);
    }
  }

  lemma {:induction false} InsertMembers(g: GroupSeries, s: seq<GroupSeries>, x: GroupSeries)
    ensures x in Insert(g, s) <==> x == g || x in s
  {
    if s != [] {
      assert s == [s[0]] + s[1..];
    }
    if s != [] && g.total < s[0].total {
      InsertMembers(g, s[1..], x);
    }
  }

  lemma {:induction false} InsertDescends(g: GroupSeries, s: seq<GroupSeries>)
    requires Descending(s)
    ensures Descending(Insert(g, s))
  {
    if s != [] && g.total < s[0].total {
      var rest := Insert(g, s[1..]);
      InsertDescends(g, s[1..]);
      forall j | 0 <= j < |rest|
        ensures rest[j].total <= s[0].total
      {
        InsertMembers(g, s[1..], rest[j]);
      }
    }
  }

  lemma {:induction false} StableSortKeepsTies(s: seq<GroupSeries>, v: real)
    ensures WithTotal(StableSort(s), v) == WithTotal(s, v)
  {
    if s != [] {
      StableSortKeepsTies(s[1..], v);
      InsertKeeps(s[0], StableSort(s[1..]), v);
    }
  }

  lemma {:induction false} StableSortDescends(s: seq<GroupSeries>)
    ensures Descending(StableSort(s))
  {
    if s != [] {
      StableSortDescends(s[1..]);
      InsertDescends(s[0], StableSort(s[1..]));
    }
  }

  lemma {:induction false} StableSortContents(s: seq<GroupSeries>)
    ensures |StableSort(s)| == |s| && multiset(StableSort(s)) == multiset(s)
  {
    if s != [] {
      assert s == [s[0]] + s[1..];
      StableSortContents(s[1..]);
      InsertContents(s[0], StableSort(s[1..]));
    }
  }

  lemma StableSortIsStableRanking(s: seq<GroupSeries>)
    ensures IsStableRanking(s, StableSort(s))
    ensures |StableSort(s)| == |s| && multiset(StableSort(s)) == multiset(s)
    ensures forall x :: x in StableSort(s) <==> x in s
  {
    StableSortDescends(s);
    StableSortContents(s);
    forall v
      ensures WithTotal(StableSort(s), v) == WithTotal(s, v)
    {
      StableSortKeepsTies(s, v);
    }
    forall x: GroupSeries
      ensures x in StableSort(s) <==> x in s
    {
      assert x in multiset(StableSort(s)) <==> x in multiset(s);
    }
  }

  lemma {:induction false} WithTotalMembers(s: seq<GroupSeries>, v: real)
    ensures WithTotal(s, v) != [] <==> exists i :: 0 <= i < |s| && s[i].total == v
  {
    if s != [] {
      WithTotalMembers(s[1..], v);
      if s[0].total != v && exists i :: 0 <= i < |s| && s[i].total == v {
        var i :| 0 <= i < |s| && s[i].total == v;
        assert s[1..][i - 1].total == v;
      }
    }
  }

  lemma TailWithTotal(s: seq<GroupSeries>, v: real)
    requires s != []
    ensures WithTotal(s[1..], v) == if s[0].total == v then WithTotal(s, v)[1..] else WithTotal(s, v)
  {
  }

  lemma SameHead(a: seq<GroupSeries>, b: seq<GroupSeries>)
    requires Descending(a) && Descending(b) && a != []
    requires WithTotal(a, a[0].total) == WithTotal(b, a[0].total)
    requires b != [] ==> WithTotal(a, b[0].total) == WithTotal(b, b[0].total)
    ensures b != [] && a[0] == b[0]
  {
    WithTotalMembers(a, a[0].total);
    WithTotalMembers(b, a[0].total);
    WithTotalMembers(b, b[0].total);
    WithTotalMembers(a, b[0].total);
    assert a[0].total == b[0].total;
    assert WithTotal(a, a[0].total)[0] == a[0];
    assert WithTotal(b, b[0].total)[0] == b[0];
  }

  /** Below its first group a stable ranking is one of the rest. */
  lemma TailIsStableRanking(before: seq<GroupSeries>, a: seq<GroupSeries>)
    requires IsStableRanking(before, a) && a != []
    ensures IsStableRanking(WithoutFirst(before, a[0].total), a[1..])
  {
    forall v
      ensures WithTotal(a[1..], v) == WithTotal(WithoutFirst(before, a[0].total), v)
    {
      TailWithTotal(a, v);
      WithoutFirstKeeps(before, a[0].total, v);
    }
  }

  lemma SameFirst(before: seq<GroupSeries>, a: seq<GroupSeries>, b: seq<GroupSeries>)
    requires IsStableRanking(before, a) && IsStableRanking(before, b) && a != []
    ensures b != [] && a[0] == b[0]
  {
    SameHead(a, b);
  }

  /** A stable ranking is the only one there is. */
  lemma {:induction false} StableRankingIsUnique(before: seq<GroupSeries>, a: seq<GroupSeries>, b: seq<GroupSeries>)
    requires IsStableRanking(before, a) && IsStableRanking(before, b)
    ensures a == b
    decreases |a|
  {
    if a == [] {
      if b != [] {
        SameFirst(before, b, a);
      }
    } else {
      SameFirst(before, a, b);
      TailIsStableRanking(before, a);
      TailIsStableRanking(before, b);
      StableRankingIsUnique(WithoutFirst(before, a[0].total), a[1..], b[1..]);
      assert a == [a[0]] + a[1..] && b == [b[0]] + b[1..];
    }
  }

  function WithoutFirst(s: seq<GroupSeries>, v: real): seq<GroupSeries> {
    if s == [] then []
    else if s[0].total == v then s[1..]
    else [s[0]] + WithoutFirst(s[1..], v)
  }

  lemma {:induction false} WithoutFirstKeeps(s: seq<GroupSeries>, v: real, u: real)
    requires WithTotal(s, v) != []
    ensures WithTotal(WithoutFirst(s, v), u) == if u == v then WithTotal(s, v)[1..] else WithTotal(s, u)
  {
    if s[0].total != v {
      WithoutFirstKeeps(s[1..], v, u);
      assert ([s[0]] + WithoutFirst(s[1..], v))[1..] == WithoutFirst(s[1..], v);
    }
  }

  lemma {:induction false} InsertKeepsSum(g: GroupSeries, s: seq<GroupSeries>, w: GroupSeries -> real)
    ensures RealSum(Insert(g, s), w) == w(g) + RealSum(s, w)
  {
    if s == [] || g.total >= s[0].total {
      assert ([g] + s)[1..] == s;
    } else {
      assert ([s[0]] + Insert(g, s[1..]))[1..] == Insert(g, s[1..]);
      InsertKeepsSum(g, s[1..], w);
    }
  }

  /** Ranking changes no sum over the groups. */
  lemma {:induction false} StableSortKeepsSum(s: seq<GroupSeries>, w: GroupSeries -> real)
    ensures RealSum(StableSort(s), w) == RealSum(s, w)
  {
    if s != [] {
      StableSortKeepsSum(s[1..], w);
      InsertKeepsSum(s[0], StableSort(s[1..]), w);
    }
  }
}
