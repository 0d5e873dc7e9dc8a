/** Month totals and top movers of two windows, for any map-iteration order and any correct sort. */
module Movers {
  import opened CostTypes
  import opened Sums

  const MAX_MOVERS := 5

  function Abs(v: real): real {
    if v < 0.0 then -v else v
  }

  /** Reading a service from a totals map, absent services reading as zero. */
  function Reading(m: map<string, real>): string -> real {
    (k: string) => if k in m then m[k] else 0.0
  }

  /** The sum of a weight over a set of services. */
  ghost function SumOver(keys: set<string>, w: string -> real): real {
    if keys == {} then 0.0 else
      var k :| k in keys;
      w(k) + SumOver(keys - {k}, w)
  }

  /** The order of summation does not matter. */
  lemma {:induction false} SumOverPick(keys: set<string>, w: string -> real, x: string)
    requires x in keys
    ensures SumOver(keys, w) == w(x) + SumOver(keys - {x}, w)
    decreases |keys|
  {
    var k :| k in keys && SumOver(keys, w) == w(k) + SumOver(keys - {k}, w);
    if k != x {
      SumOverPick(keys - {k}, w, x);
      SumOverPick(keys - {x}, w, k);
      assert keys - {k} - {x} == keys - {x} - {k};
    }
  }

  lemma {:induction false} SumOverMinus(keys: set<string>, u: string -> real, v: string -> real, w: string -> real)
    requires forall k :: k in keys ==> u(k) == v(k) - w(k)
    ensures SumOver(keys, u) == SumOver(keys, v) - SumOver(keys, w)
    decreases |keys|
  {
    if keys != {} {
      var k :| k in keys;
      SumOverPick(keys, u, k);
      SumOverPick(keys, v, k);
      SumOverPick(keys, w, k);
      SumOverMinus(keys - {k}, u, v, w);
    }
  }

  /** Services absent from a map add nothing to its sum. */
  lemma {:induction false} AbsentAddNothing(keys: set<string>, m: map<string, real>)
    requires m.Keys <= keys
    ensures SumOver(keys, Reading(m)) == SumOver(m.Keys, Reading(m))
    decreases |keys|
  {
    if keys != m.Keys {
      var k :| k in keys && k !in m.Keys;
      SumOverPick(keys, Reading(m), k);
      AbsentAddNothing(keys - {k}, m);
    }
  }

  function MoverOf(current: map<string, real>, previous: map<string, real>, svc: string): Mover {
    var c, p := Reading(current)(svc), Reading(previous)(svc);
    Mover(svc, c, p, c - p)
  }

  function Delta(m: Mover): real { m.delta }

  function DeltaOf(current: map<string, real>, previous: map<string, real>): string -> real {
    (k: string) => MoverOf(current, previous, k).delta
  }

  ghost predicate ByAbsDelta(s: seq<Mover>) {
    forall i, j :: 0 <= i < j < |s| ==> Abs(s[i].delta) >= Abs(s[j].delta)
  }

  /** What the two windows hold for the mover's service, nothing counting as zero, and the difference. */
  ghost predicate IsMoverAmong(m: Mover, services: set<string>,
                               current: map<string, real>, previous: map<string, real>) {
    && m.service in services
    && m.current == (if m.service in current then current[m.service] else 0.0)
    && m.previous == (if m.service in previous then previous[m.service] else 0.0)
    && m.delta == m.current - m.previous
  }

  /** One mover per service of either window. */
  ghost predicate MoversOf(s: seq<Mover>, services: set<string>,
                           current: map<string, real>, previous: map<string, real>) {
    && (forall i :: 0 <= i < |s| ==> IsMoverAmong(s[i], services, current, previous))
    && (forall i, j :: 0 <= i < j < |s| ==> s[i].service != s[j].service)
    && |s| == |services|
  }

  // ----- the code -----

  /** Adding up a map's values in some order. */
  method AddUp(m: map<string, real>) returns (sum: real)
    ensures sum == SumOver(m.Keys, Reading(m))
  {
    sum := 0.0;
    var toVisit := m.Keys;
    while toVisit != {}
      invariant toVisit <= m.Keys
      invariant sum + SumOver(toVisit, Reading(m)) == SumOver(m.Keys, Reading(m))
      decreases |toVisit|
    {
      var k :| k in toVisit;
      SumOverPick(toVisit, Reading(m), k);
      sum := sum + m[k];
      toVisit := toVisit - {k};
    }
  }

  /** Put one mover into a list already in order. */
  function InsertMover(m: Mover, s: seq<Mover>): seq<Mover> {
    if s == [] || Abs(m.delta) >= Abs(s[0].delta) then [m] + s
    else [s[0]] + InsertMover(m, s[1..])
  }

  lemma {:induction false} InsertKeepsContents(m: Mover, s: seq<Mover>)
    ensures multiset(InsertMover(m, s)) == multiset(s) + multiset{m}
  {
    if s != [] && Abs(m.delta) < Abs(s[0].delta) {
      InsertKeepsContents(m, s[1..]);
      assert s == [s[0]] + s[1..];
    }
  }

  lemma {:induction false} InsertMembers(m: Mover, s: seq<Mover>, x: Mover)
    ensures x in InsertMover(m, s) <==> x == m || x in s
  {
    if s != [] {
      assert s == [s[0]] + s[1..];
    }
    if s != [] && Abs(m.delta) < Abs(s[0].delta) {
      InsertMembers(m, s[1..], x);
    }
  }

  lemma {:induction false} InsertKeepsOrder(m: Mover, s: seq<Mover>)
    requires ByAbsDelta(s)
    ensures ByAbsDelta(InsertMover(m, s))
  {
    if s != [] && Abs(m.delta) < Abs(s[0].delta) {
      var t := InsertMover(m, s[1..]);
      InsertKeepsOrder(m, s[1..]);
      forall i | 0 <= i < |t|
        ensures Abs(t[i].delta) <= Abs(s[0].delta)
      {
        InsertMembers(m, s[1..], t[i]);
      }
    }
  }

  /** A sort that need not be stable: all that is promised is the order and the contents. */
  method SortMovers(movers: seq<Mover>) returns (sorted: seq<Mover>)
    ensures ByAbsDelta(sorted) && multiset(sorted) == multiset(movers)
  {
    sorted := [];
    for i := 0 to |movers|
      invariant ByAbsDelta(sorted) && multiset(sorted) == multiset(movers[..i])
    {
      InsertKeepsOrder(movers[i], sorted);
      InsertKeepsContents(movers[i], sorted);
      sorted := InsertMover(movers[i], sorted);
      assert movers[..i + 1] == movers[..i] + [movers[i]];
    }
    assert movers[..|movers|] == movers;
  }

  lemma DeltaSnoc(movers: seq<Mover>, toVisit: set<string>, current: map<string, real>, previous: map<string, real>,
                  svc: string)
    requires svc in toVisit
    ensures RealSum(movers + [MoverOf(current, previous, svc)], Delta)
          + SumOver(toVisit - {svc}, DeltaOf(current, previous))
         == RealSum(movers, Delta) + SumOver(toVisit, DeltaOf(current, previous))
  {
    var m := MoverOf(current, previous, svc);
    SumOverPick(toVisit, DeltaOf(current, previous), svc);
    RealSumConcat(movers, [m], Delta);
    RealSumOne(m, Delta);
  }

  /** Summed over all services, the differences are the difference of the sums. */
  lemma DeltasAddUp(current: map<string, real>, previous: map<string, real>)
    ensures SumOver(current.Keys + previous.Keys, DeltaOf(current, previous))
         == SumOver(current.Keys, Reading(current)) - SumOver(previous.Keys, Reading(previous))
  {
    var seen := current.Keys + previous.Keys;
    SumOverMinus(seen, DeltaOf(current, previous), Reading(current), Reading(previous));
    AbsentAddNothing(seen, current);
    AbsentAddNothing(seen, previous);
  }

  // Ranging over a set: what is left after visiting `order`, and that each visit was to what was left.
  ghost function Left(seen: set<string>, order: seq<string>): set<string> {
    if order == [] then seen else Left(seen, order[..|order| - 1]) - {order[|order| - 1]}
  }

  ghost predicate Visits(seen: set<string>, order: seq<string>) {
    order == [] || (Visits(seen, order[..|order| - 1]) && order[|order| - 1] in Left(seen, order[..|order| - 1]))
  }

  ghost function MoversIn(order: seq<string>, current: map<string, real>, previous: map<string, real>): seq<Mover> {
    if order == [] then []
    else MoversIn(order[..|order| - 1], current, previous) + [MoverOf(current, previous, order[|order| - 1])]
  }

  lemma VisitsSnoc(seen: set<string>, order: seq<string>, svc: string,
                   current: map<string, real>, previous: map<string, real>)
    requires Visits(seen, order) && svc in Left(seen, order)
    ensures Visits(seen, order + [svc]) && Left(seen, order + [svc]) == Left(seen, order) - {svc}
    ensures MoversIn(order + [svc], current, previous)
         == MoversIn(order, current, previous) + [MoverOf(current, previous, svc)]
  {
    assert (order + [svc])[..|order|] == order;
  }

  lemma {:induction false} LeftIsUnvisited(seen: set<string>, order: seq<string>, x: string)
    ensures x in Left(seen, order) <==> x in seen && x !in order
  {
    if order != [] {
      LeftIsUnvisited(seen, order[..|order| - 1], x);
      assert order == order[..|order| - 1] + [order[|order| - 1]];
    }
  }

  lemma {:induction false} LeftCount(seen: set<string>, order: seq<string>)
    requires Visits(seen, order)
    ensures |Left(seen, order)| + |order| == |seen|
  {
    if order != [] {
      LeftCount(seen, order[..|order| - 1]);
    }
  }

  lemma {:induction false} VisitedInTurn(seen: set<string>, order: seq<string>, i: nat)
    requires Visits(seen, order) && i < |order|
    ensures order[i] in seen && order[i] !in order[..i]
  {
    if i == |order| - 1 {
      LeftIsUnvisited(seen, order[..i], order[i]);
    } else {
      VisitedInTurn(seen, order[..|order| - 1], i);
      assert order[..|order| - 1][..i] == order[..i];
    }
  }

  lemma {:induction false} MoverAt(order: seq<string>, i: nat, current: map<string, real>, previous: map<string, real>)
    requires i < |order|
    ensures |MoversIn(order, current, previous)| == |order|
    ensures MoversIn(order, current, previous)[i] == MoverOf(current, previous, order[i])
  {
    if |order| > 1 {
      MoverAt(order[..|order| - 1], if i == |order| - 1 then 0 else i, current, previous);
    }
  }

  lemma {:induction false} DeltaAccounted(seen: set<string>, order: seq<string>,
                                          current: map<string, real>, previous: map<string, real>)
    requires Visits(seen, order)
    ensures RealSum(MoversIn(order, current, previous), Delta) + SumOver(Left(seen, order), DeltaOf(current, previous))
         == SumOver(seen, DeltaOf(current, previous))
  {
    if order != [] {
      var before, svc := order[..|order| - 1], order[|order| - 1];
      DeltaAccounted(seen, before, current, previous);
      DeltaSnoc(MoversIn(before, current, previous), Left(seen, before), current, previous, svc);
    }
  }

  lemma MoverIsAmong(services: set<string>, current: map<string, real>, previous: map<string, real>, svc: string)
    requires svc in services
    ensures MoverOf(current, previous, svc).service == svc
    ensures IsMoverAmong(MoverOf(current, previous, svc), services, current, previous)
  {
  }

  lemma AllVisited(seen: set<string>, order: seq<string>, current: map<string, real>, previous: map<string, real>)
    requires Visits(seen, order) && Left(seen, order) == {}
    ensures MoversOf(MoversIn(order, current, previous), seen, current, previous)
    ensures RealSum(MoversIn(order, current, previous), Delta) == SumOver(seen, DeltaOf(current, previous))
  {
    LeftCount(seen, order);
    DeltaAccounted(seen, order, current, previous);
    var movers := MoversIn(order, current, previous);
    if order != [] {
      MoverAt(order, 0, current, previous);
    }
    forall i | 0 <= i < |movers|
      ensures movers[i].service == order[i] && order[i] !in order[..i]
      ensures IsMoverAmong(movers[i], seen, current, previous)
    {
      MoverAt(order, i, current, previous);
      VisitedInTurn(seen, order, i);
      MoverIsAmong(seen, current, previous, order[i]);
    }
    forall i, j | 0 <= i < j < |movers|
      ensures movers[i].service != movers[j].service
    {
      assert order[..j][i] == order[i];
    }
  }

  /** List a mover for every service seen in either window, in some order. */
  method ListMovers(current: map<string, real>, previous: map<string, real>) returns (movers: seq<Mover>)
    ensures MoversOf(movers, current.Keys + previous.Keys, current, previous)
    ensures RealSum(movers, Delta)
         == SumOver(current.Keys, Reading(current)) - SumOver(previous.Keys, Reading(previous))
  {
    var seen := current.Keys + previous.Keys;
    movers := [];
    var toVisit := seen;
    ghost var order: seq<string> := [];
    while toVisit != {}
      invariant Visits(seen, order) && toVisit == Left(seen, order)
      invariant movers == MoversIn(order, current, previous)
      decreases |toVisit|
    {
      var svc :| svc in toVisit;
      VisitsSnoc(seen, order, svc, current, previous);
      movers, toVisit, order := movers + [MoverOf(current, previous, svc)], toVisit - {svc}, order + [svc];
    }
    AllVisited(seen, order, current, previous);
    DeltasAddUp(current, previous);
  }

  function Without(s: seq<Mover>, i: nat): seq<Mover>
    requires i < |s|
  {
    s[..i] + s[i + 1..]
  }

  lemma ContentsWithout(s: seq<Mover>, i: nat)
    requires i < |s|
    ensures multiset(s) == multiset(Without(s, i)) + multiset{s[i]}
  {
    assert s == s[..i] + [s[i]] + s[i + 1..];
  }

  lemma SumWithout(s: seq<Mover>, i: nat)
    requires i < |s|
    ensures RealSum(s, Delta) == s[i].delta + RealSum(Without(s, i), Delta)
  {
    var before, after := s[..i], s[i + 1..];
    assert s == before + ([s[i]] + after);
    RealSumConcat(before, [s[i]] + after, Delta);
    RealSumCons(s[i], after, Delta);
    RealSumConcat(before, after, Delta);
  }

  lemma CancelOne(a: multiset<Mover>, b: multiset<Mover>, x: Mover)
    requires a + multiset{x} == b + multiset{x}
    ensures a == b
  {
    assert a == a + multiset{x} - multiset{x};
    assert b == b + multiset{x} - multiset{x};
  }

  /** The same mover taken out of two lists with the same contents leaves the same contents. */
  lemma SameWithout(a: seq<Mover>, b: seq<Mover>, i: nat, j: nat)
    requires multiset(a) == multiset(b) && i < |a| && j < |b| && a[i] == b[j]
    ensures multiset(Without(a, i)) == multiset(Without(b, j))
  {
    ContentsWithout(a, i);
    ContentsWithout(b, j);
    CancelOne(multiset(Without(a, i)), multiset(Without(b, j)), a[i]);
  }

  lemma FindIn(a: seq<Mover>, b: seq<Mover>) returns (j: nat)
    requires multiset(a) == multiset(b) && a != []
    ensures j < |b| && b[j] == a[0]
  {
    assert a[0] in multiset(b);
    j :| 0 <= j < |b| && b[j] == a[0];
  }

  lemma {:induction false} SumOfSameContents(a: seq<Mover>, b: seq<Mover>)
    requires multiset(a) == multiset(b)
    ensures RealSum(a, Delta) == RealSum(b, Delta)
    decreases |a|
  {
    if a != [] {
      var j := FindIn(a, b);
      SameWithout(a, b, 0, j);
      SumWithout(a, 0);
      SumWithout(b, j);
      SumOfSameContents(Without(a, 0), Without(b, j));
    } else {
      assert |b| == |multiset(b)| == |multiset(a)| == 0;
    }
  }

  /** The change in percent of a positive base; zero when the base is not positive. */
  ghost predicate IsPercent(pct: real, change: real, base: real) {
    if base > 0.0 then pct * base == change * 100.0 else pct == 0.0
  }

  method DeltaPercent(current: real, previous: real) returns (pct: real)
    ensures IsPercent(pct, current - previous, previous)
  {
    pct := 0.0;
    if previous > 0.0 {
      pct := (current - previous) / previous * 100.0;
      PercentBack(current - previous, previous);
    }
  }

  /** The full list of movers, in order. */
  ghost predicate IsFullList(all: seq<Mover>, current: map<string, real>, previous: map<string, real>) {
    && MoversOf(all, current.Keys + previous.Keys, current, previous)
    && ByAbsDelta(all)
    && RealSum(all, Delta) == SumOver(current.Keys, Reading(current)) - SumOver(previous.Keys, Reading(previous))
  }

  /** How a summary reads off the two windows: `all` is the full list its top movers are cut from. */
  ghost predicate IsCutFrom(s: Summary, all: seq<Mover>, current: map<string, real>, previous: map<string, real>) {
    && s.monthToDate == SumOver(current.Keys, Reading(current))
    && s.prevMonthToDate == SumOver(previous.Keys, Reading(previous))
    && IsPercent(s.deltaPct, s.monthToDate - s.prevMonthToDate, s.prevMonthToDate)
    && IsFullList(all, current, previous)
    && s.topMovers == (if |all| > MAX_MOVERS then all[..MAX_MOVERS] else all)
  }

  ghost predicate IsSummary(s: Summary, current: map<string, real>, previous: map<string, real>) {
    exists all :: IsCutFrom(s, all, current, previous)
  }

  method RankMovers(current: map<string, real>, previous: map<string, real>) returns (movers: seq<Mover>)
    ensures IsFullList(movers, current, previous)
  {
    var listed := ListMovers(current, previous);
    movers := SortMovers(listed);
    SumOfSameContents(movers, listed);
    SortedStillMovers(listed, movers, current.Keys + previous.Keys, current, previous);
  }

  method Summarize(current: map<string, real>, previous: map<string, real>) returns (s: Summary)
    ensures IsSummary(s, current, previous)
  {
    var monthToDate := AddUp(current);
    var prevMonthToDate := AddUp(previous);
    var deltaPct := DeltaPercent(monthToDate, prevMonthToDate);
    var movers := RankMovers(current, previous);
    ghost var all := movers;
    if |movers| > MAX_MOVERS {
      movers := movers[..MAX_MOVERS];
    }
    s := Summary(monthToDate, prevMonthToDate, deltaPct, movers);
    assert IsCutFrom(s, all, current, previous);
  }

  lemma SortedStillMovers(a: seq<Mover>, b: seq<Mover>, services: set<string>,
                          current: map<string, real>, previous: map<string, real>)
    requires MoversOf(a, services, current, previous) && multiset(a) == multiset(b)
    ensures MoversOf(b, services, current, previous)
  {
    assert |a| == |multiset(a)| == |multiset(b)| == |b|;
    forall i | 0 <= i < |b|
      ensures IsMoverAmong(b[i], services, current, previous)
    {
      assert b[i] in multiset(a);
    }
    forall k | k in services
      ensures MoverOf(current, previous, k) in b
    {
      EveryServiceIsListed(a, services, current, previous, k);
      assert MoverOf(current, previous, k) in multiset(a);
    }
    CoveringMeansDistinct(b, services, current, previous);
  }

  lemma {:induction false} DistinctAtMost(names: seq<string>, keys: set<string>)
    requires forall i :: 0 <= i < |names| ==> names[i] in keys
    requires forall i, j :: 0 <= i < j < |names| ==> names[i] != names[j]
    ensures |names| <= |keys|
  {
    if names != [] {
      var n := |names| - 1;
      DistinctAtMost(names[..n], keys - {names[n]});
    }
  }

  function ServiceNames(s: seq<Mover>): seq<string> {
    seq(|s|, i requires 0 <= i < |s| => s[i].service)
  }

  lemma EveryServiceIsListed(s: seq<Mover>, services: set<string>,
                             current: map<string, real>, previous: map<string, real>, k: string)
    requires MoversOf(s, services, current, previous) && k in services
    ensures MoverOf(current, previous, k) in s
  {
    var names := ServiceNames(s);
    if k in names {
      var i :| 0 <= i < |names| && names[i] == k;
      assert IsMoverAmong(s[i], services, current, previous);
    } else {
      forall i | 0 <= i < |names|
        ensures names[i] in services - {k}
      {
        assert IsMoverAmong(s[i], services, current, previous);
      }
      DistinctAtMost(names, services - {k});
      assert false;
    }
  }

  // ----- what the top movers mean -----

  /** A list as long as the set of services that covers them all names each once. */
  lemma CoveringMeansDistinct(s: seq<Mover>, services: set<string>,
                              current: map<string, real>, previous: map<string, real>)
    requires |s| == |services| && forall k :: k in services ==> MoverOf(current, previous, k) in s
    ensures forall i, j :: 0 <= i < j < |s| ==> s[i].service != s[j].service
  {
    var names := ServiceNames(s);
    forall i, j | 0 <= i < j < |s|
      ensures s[i].service != s[j].service
    {
      if s[i].service == s[j].service {
        var fewer := names[..j] + names[j + 1..];
        forall k | k in services
          ensures k in fewer
        {
          var m :| 0 <= m < |s| && s[m] == MoverOf(current, previous, k);
          assert k == fewer[if m < j then m else if m == j then i else m - 1];
        }
        ListAtLeast(services, fewer);
        assert false;
      }
    }
  }

  lemma {:induction false} ListAtLeast(keys: set<string>, names: seq<string>)
    requires forall k :: k in keys ==> k in names
    ensures |keys| <= |names|
  {
    if names == [] {
      assert keys == {};
    } else {
      var n := |names| - 1;
      var rest := keys - {names[n]};
      ListAtLeast(rest, names[..n]);
      if names[n] in keys {
        assert keys == rest + {names[n]};
      } else {
        assert keys == rest;
      }
    }
  }

  /** A service left out of the top movers moved no more than any kept one. */
  lemma LeftOutMovedNoMore(all: seq<Mover>, kept: nat, services: set<string>,
                           current: map<string, real>, previous: map<string, real>, k: string)
    requires MoversOf(all, services, current, previous) && ByAbsDelta(all) && kept <= |all|
    requires k in services && MoverOf(current, previous, k) !in all[..kept]
    ensures forall i :: 0 <= i < kept ==> Abs(MoverOf(current, previous, k).delta) <= Abs(all[i].delta)
  {
    EveryServiceIsListed(all, services, current, previous, k);
    var j :| 0 <= j < |all| && all[j] == MoverOf(current, previous, k);
    assert forall i :: 0 <= i < kept ==> all[i] in all[..kept];
  }

  lemma KeptAreMovers(all: seq<Mover>, kept: nat, services: set<string>,
                      current: map<string, real>, previous: map<string, real>)
    requires MoversOf(all, services, current, previous) && ByAbsDelta(all) && kept <= |all|
    ensures ByAbsDelta(all[..kept])
    ensures forall i, j :: 0 <= i < j < kept ==> all[..kept][i].service != all[..kept][j].service
    ensures forall i :: 0 <= i < kept ==> IsMoverAmong(all[..kept][i], services, current, previous)
  {
  }

  /** Every service left out of `top` moved no more than any mover in it. */
  ghost predicate LeadsTheRest(top: seq<Mover>, services: set<string>,
                               current: map<string, real>, previous: map<string, real>) {
    forall k, i :: k in services && MoverOf(current, previous, k) !in top && 0 <= i < |top| ==>
      Abs(MoverOf(current, previous, k).delta) <= Abs(top[i].delta)
  }

  /** The first of an ordered list of all movers: distinct services, in order, ahead of all others. */
  ghost predicate IsTop(top: seq<Mover>, services: set<string>,
                        current: map<string, real>, previous: map<string, real>) {
    && |top| == (if |services| < 5 then |services| else 5)
    && ByAbsDelta(top)
    && (forall i, j :: 0 <= i < j < |top| ==> top[i].service != top[j].service)
    && (forall i :: 0 <= i < |top| ==> IsMoverAmong(top[i], services, current, previous))
    && LeadsTheRest(top, services, current, previous)
  }

  lemma CutIsTop(all: seq<Mover>, kept: nat, services: set<string>,
                 current: map<string, real>, previous: map<string, real>)
    requires MoversOf(all, services, current, previous) && ByAbsDelta(all)
    requires kept == if |all| > MAX_MOVERS then MAX_MOVERS else |all|
    ensures IsTop(all[..kept], services, current, previous)
  {
    KeptAreMovers(all, kept, services, current, previous);
    CutLeads(all, kept, services, current, previous);
  }

  /** The size of a change. */
  lemma AbsExact(v: real)
    ensures v >= 0.0 ==> Abs(v) == v
    ensures v < 0.0 ==> Abs(v) == -v
  {
  }

  /**
   * Top movers. At most five are kept, each a distinct service with its total in either window
   * (zero if it has none) and their difference, in descending size of difference; every service
   * left out moved no more than every one kept; and over all services the differences add up to
   * the change between the two windows, of which the percentage is reported.
   */
  lemma TopMoversLead(s: Summary, current: map<string, real>, previous: map<string, real>)
    requires IsSummary(s, current, previous)
    ensures var n := |current.Keys + previous.Keys|; |s.topMovers| == if n < 5 then n else 5
    ensures forall m :: m in s.topMovers ==> m.service in current.Keys + previous.Keys
    ensures forall m :: m in s.topMovers ==> m.current == if m.service in current then current[m.service] else 0.0
    ensures forall m :: m in s.topMovers ==> m.previous == if m.service in previous then previous[m.service] else 0.0
    ensures forall m :: m in s.topMovers ==> m.delta == m.current - m.previous
    ensures forall i, j :: 0 <= i < j < |s.topMovers| ==> s.topMovers[i].service != s.topMovers[j].service
    ensures forall i, j :: 0 <= i < j < |s.topMovers| ==>
      var a, b := s.topMovers[i].delta, s.topMovers[j].delta;
      (if b < 0.0 then -b else b) <= (if a < 0.0 then -a else a)
    ensures forall k, m :: k in current.Keys + previous.Keys && NotNamed(k, s.topMovers) && m in s.topMovers ==>
      var d := (if k in current then current[k] else 0.0) - (if k in previous then previous[k] else 0.0);
      (if d < 0.0 then -d else d) <= (if m.delta < 0.0 then -m.delta else m.delta)
    ensures s.monthToDate - s.prevMonthToDate == SumOver(current.Keys + previous.Keys, DeltaOf(current, previous))
    ensures s.prevMonthToDate > 0.0 ==>
      s.deltaPct * s.prevMonthToDate == (s.monthToDate - s.prevMonthToDate) * 100.0
    ensures s.prevMonthToDate <= 0.0 ==> s.deltaPct == 0.0
  {
    var all :| IsCutFrom(s, all, current, previous);
    CutGivesTop(s, all, current, previous);
    CutGivesSums(s, all, current, previous);
    DeltasAddUp(current, previous);
    PercentExact(s.deltaPct, s.monthToDate - s.prevMonthToDate, s.prevMonthToDate);
    TopFields(s.topMovers, current, previous);
    TopIsOrdered(s.topMovers, current, previous);
    TopLeads(s.topMovers, current, previous);
  }

  lemma CutGivesTop(s: Summary, all: seq<Mover>, current: map<string, real>, previous: map<string, real>)
    requires IsCutFrom(s, all, current, previous)
    ensures IsTop(s.topMovers, current.Keys + previous.Keys, current, previous)
  {
    var kept := if |all| > MAX_MOVERS then MAX_MOVERS else |all|;
    assert s.topMovers == all[..kept];
    CutIsTop(all, kept, current.Keys + previous.Keys, current, previous);
  }

  lemma CutGivesSums(s: Summary, all: seq<Mover>, current: map<string, real>, previous: map<string, real>)
    requires IsCutFrom(s, all, current, previous)
    ensures s.monthToDate == SumOver(current.Keys, Reading(current))
    ensures s.prevMonthToDate == SumOver(previous.Keys, Reading(previous))
    ensures IsPercent(s.deltaPct, s.monthToDate - s.prevMonthToDate, s.prevMonthToDate)
  {
  }

  lemma PercentExact(pct: real, change: real, base: real)
    requires IsPercent(pct, change, base)
    ensures base > 0.0 ==> pct * base == change * 100.0
    ensures base <= 0.0 ==> pct == 0.0
  {
  }

  /** No mover in the list is the service's. */
  ghost predicate NotNamed(k: string, top: seq<Mover>) {
    forall m :: m in top ==> m.service != k
  }

  lemma TopFields(top: seq<Mover>, current: map<string, real>, previous: map<string, real>)
    requires IsTop(top, current.Keys + previous.Keys, current, previous)
    ensures forall m :: m in top ==> m.service in current.Keys + previous.Keys
    ensures forall m :: m in top ==> m.current == if m.service in current then current[m.service] else 0.0
    ensures forall m :: m in top ==> m.previous == if m.service in previous then previous[m.service] else 0.0
    ensures forall m :: m in top ==> m.delta == m.current - m.previous
    ensures forall i, j :: 0 <= i < j < |top| ==> top[i].service != top[j].service
  {
    forall m | m in top
      ensures IsMoverAmong(m, current.Keys + previous.Keys, current, previous)
    {
      var i :| 0 <= i < |top| && top[i] == m;
    }
  }

  lemma TopIsOrdered(top: seq<Mover>, current: map<string, real>, previous: map<string, real>)
    requires IsTop(top, current.Keys + previous.Keys, current, previous)
    ensures forall i, j :: 0 <= i < j < |top| ==>
      var a, b := top[i].delta, top[j].delta;
      (if b < 0.0 then -b else b) <= (if a < 0.0 then -a else a)
  {
    forall i, j | 0 <= i < j < |top|
      ensures var a, b := top[i].delta, top[j].delta; (if b < 0.0 then -b else b) <= (if a < 0.0 then -a else a)
    {
      AbsExact(top[i].delta);
      AbsExact(top[j].delta);
      assert Abs(top[i].delta) >= Abs(top[j].delta);
    }
  }

  lemma TopLeads(top: seq<Mover>, current: map<string, real>, previous: map<string, real>)
    requires IsTop(top, current.Keys + previous.Keys, current, previous)
    ensures forall k, m :: k in current.Keys + previous.Keys && NotNamed(k, top) && m in top ==>
      var d := (if k in current then current[k] else 0.0) - (if k in previous then previous[k] else 0.0);
      (if d < 0.0 then -d else d) <= (if m.delta < 0.0 then -m.delta else m.delta)
  {
    forall k, m | k in current.Keys + previous.Keys && NotNamed(k, top) && m in top
      ensures var d := (if k in current then current[k] else 0.0) - (if k in previous then previous[k] else 0.0);
        (if d < 0.0 then -d else d) <= (if m.delta < 0.0 then -m.delta else m.delta)
    {
      var i :| 0 <= i < |top| && top[i] == m;
      assert MoverOf(current, previous, k) !in top;
      AbsExact(MoverOf(current, previous, k).delta);
      AbsExact(top[i].delta);
      assert Abs(MoverOf(current, previous, k).delta) <= Abs(top[i].delta);
    }
  }

  lemma CutLeads(all: seq<Mover>, kept: nat, services: set<string>,
                 current: map<string, real>, previous: map<string, real>)
    requires MoversOf(all, services, current, previous) && ByAbsDelta(all) && kept <= |all|
    ensures LeadsTheRest(all[..kept], services, current, previous)
  {
    forall k, i | k in services && MoverOf(current, previous, k) !in all[..kept] && 0 <= i < kept
      ensures Abs(MoverOf(current, previous, k).delta) <= Abs(all[..kept][i].delta)
    {
      LeftOutMovedNoMore(all, kept, services, current, previous, k);
    }
  }

  lemma PercentBack(change: real, base: real)
    requires base > 0.0
    ensures change / base * 100.0 * base == change * 100.0
  {
    assert change / base * base == change;
  }
}
