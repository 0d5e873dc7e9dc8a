/**
 * The aggregation of Cost Explorer periods into aligned, ranked series with at most twelve
 * groups and a fold of the rest into "Other".
 */
module Aggregate {
  import opened Wrappers
  import opened CostTypes
  import opened Upstream
  import opened Rows
  import opened Ranking
  import opened Sums

  const MAX_GROUPS := 12

  function ZeroFilled(gs: seq<GroupSeries>, n: nat): seq<GroupSeries> {
    seq(|gs|, i requires 0 <= i < |gs| => gs[i].(values := PadTo(gs[i].values, n)))
  }

  /** The value of a group in period t. */
  function Column(t: nat): GroupSeries -> real {
    (g: GroupSeries) => ValueAt(g.values, t)
  }

  function ColumnSums(gs: seq<GroupSeries>, n: nat): seq<real> {
    seq(n, t requires 0 <= t < n => RealSum(gs, Column(t)))
  }

  /** All groups, zero-filled and ranked, before the cut. */
  function Ranked(results: seq<ResultByTime>): seq<GroupSeries> {
    StableSort(ZeroFilled(RawGroups(Cells(results)), |Times(results)|))
  }

  function Folded(ranked: seq<GroupSeries>, n: nat): seq<GroupSeries> {
    if |ranked| <= MAX_GROUPS then ranked
    else
      var rest := ranked[MAX_GROUPS..];
      ranked[..MAX_GROUPS] + [GroupSeries("Other", ColumnSums(rest, n), RealSum(rest, GroupTotal))]
  }

  /** The fold indexes a slice of n values with every position of every folded row. */
  predicate FoldFits(ranked: seq<GroupSeries>, n: nat) {
    forall i :: MAX_GROUPS <= i < |ranked| ==> |ranked[i].values| <= n
  }

  /** What the aggregation returns; a failure is the run-time panic of the fold. */
  function Aggregated(results: seq<ResultByTime>): Result<Series, string> {
    var ranked, n := Ranked(results), |Times(results)|;
    if FoldFits(ranked, n) then
      Success(Series(Times(results), Folded(ranked, n), GrandTotal(ChargesOf(Cells(results))),
                     CurrencyOf(ChargesOf(Cells(results)))))
    else Failure("index out of range")
  }

  // ----- the code -----

  /** The index map names each key's place among the groups. */
  ghost predicate Indexes(groupIdx: map<string, nat>, keys: seq<string>) {
    && (forall k :: k in groupIdx <==> k in keys)
    && (forall k :: k in groupIdx ==> groupIdx[k] < |keys| && keys[groupIdx[k]] == k)
  }

  method Collect(results: seq<ResultByTime>)
    returns (times: seq<string>, groups: seq<GroupSeries>, currency: string)
    ensures times == Times(results)
    ensures groups == RawGroups(Cells(results))
    ensures currency == CurrencyOf(ChargesOf(Cells(results)))
  {
    times, groups, currency := [], [], "USD";
    var groupIdx: map<string, nat> := map[];
    ghost var cells: seq<Cell> := [];
    for i := 0 to |results|
      invariant times == Times(results[..i]) && cells == Cells(results[..i])
      invariant groups == RawGroups(cells) && Indexes(groupIdx, KeyOrder(ChargesOf(cells)))
      invariant currency == CurrencyOf(ChargesOf(cells))
    {
      var r := results[i];
      assert results[..i + 1] == results[..i] + [r];
      CellsSnoc(results[..i], r);
      if r.start.None? {
        continue;
      }
      times := times + [r.start.value];
      groups, groupIdx, currency := CollectPeriod(r.groups, |times| - 1, groups, groupIdx, currency, cells);
      cells := cells + At(Charges(r.groups), |times| - 1);
    }
    assert results[..|results|] == results;
  }

  lemma NextGroup(cells: seq<Cell>, gs: seq<Group>, j: nat, t: nat)
    requires j < |gs|
    ensures cells + At(Charges(gs[..j + 1]), t) == cells + At(Charges(gs[..j]), t)
      + (if Accept(gs[j]).Some? then [Cell(t, Accept(gs[j]).value)] else [])
  {
    assert gs[..j + 1] == gs[..j] + [gs[j]];
    ChargesSnoc(gs[..j], gs[j]);
  }

  /** One period's groups, skipping those without a key or a readable amount. */
  method CollectPeriod(gs: seq<Group>, t: nat, groups: seq<GroupSeries>, groupIdx: map<string, nat>,
                       currency: string, ghost cells: seq<Cell>)
    returns (groups': seq<GroupSeries>, groupIdx': map<string, nat>, currency': string)
    requires groups == RawGroups(cells) && Indexes(groupIdx, KeyOrder(ChargesOf(cells)))
    requires currency == CurrencyOf(ChargesOf(cells))
    ensures var all := cells + At(Charges(gs), t);
      && groups' == RawGroups(all) && Indexes(groupIdx', KeyOrder(ChargesOf(all)))
      && currency' == CurrencyOf(ChargesOf(all))
  {
    groups', groupIdx', currency' := groups, groupIdx, currency;
    ghost var all := cells;
    assert cells == cells + At(Charges(gs[..0]), t);
    for j := 0 to |gs|
      invariant all == cells + At(Charges(gs[..j]), t)
      invariant groups' == RawGroups(all) && Indexes(groupIdx', KeyOrder(ChargesOf(all)))
      invariant currency' == CurrencyOf(ChargesOf(all))
    {
      var g := gs[j];
      NextGroup(cells, gs, j, t);
      if |g.keys| == 0 {
        continue;
      }
      var key := g.keys[0];
      if g.metric.None? || g.metric.value.amount.NoAmount? {
        continue;
      }
      if g.metric.value.amount.BadAmount? {
        continue;
      }
      var amount := g.metric.value.amount.v;
      if g.metric.value.unit.Some? && g.metric.value.unit.value != "" {
        currency' := g.metric.value.unit.value;
      }
      ghost var x := Cell(t, Accept(g).value);
      CurrencySnoc(ChargesOf(all), x.charge);
      ChargesOfSnoc(all, x);
      groups', groupIdx' := AddCharge(groups', groupIdx', t, key, amount, all, x);
      all := all + [x];
    }
    assert gs[..|gs|] == gs;
  }

  /** The groups once the key has one, and the keys in their order. */
  ghost function Opened(cells: seq<Cell>, key: string): seq<GroupSeries> {
    RawGroups(cells) + if key in KeyOrder(ChargesOf(cells)) then [] else [GroupSeries(key, [], 0.0)]
  }

  ghost function OpenedKeys(cells: seq<Cell>, key: string): seq<string> {
    KeyOrder(ChargesOf(cells)) + if key in KeyOrder(ChargesOf(cells)) then [] else [key]
  }

  /** Find the key's group, or open it at the end. */
  method OpenGroup(groups: seq<GroupSeries>, groupIdx: map<string, nat>, key: string, ghost cells: seq<Cell>)
    returns (groups': seq<GroupSeries>, groupIdx': map<string, nat>, idx: nat)
    requires groups == RawGroups(cells) && Indexes(groupIdx, KeyOrder(ChargesOf(cells)))
    ensures groups' == Opened(cells, key) && Indexes(groupIdx', OpenedKeys(cells, key))
    ensures idx < |groups'| == |OpenedKeys(cells, key)| && OpenedKeys(cells, key)[idx] == key == groups'[idx].key
  {
    groups', groupIdx' := groups, groupIdx;
    if key !in groupIdx' {
      groupIdx' := groupIdx'[key := |groups'|];
      groups' := groups' + [GroupSeries(key, [], 0.0)];
    }
    idx := groupIdx'[key];
  }

  /** A charge changes its key's group alone. */
  lemma ChargeOneGroup(cells: seq<Cell>, x: Cell, idx: nat)
    requires idx < |Opened(cells, x.charge.key)| == |OpenedKeys(cells, x.charge.key)|
    requires OpenedKeys(cells, x.charge.key)[idx] == x.charge.key
    ensures KeyOrder(ChargesOf(cells + [x])) == OpenedKeys(cells, x.charge.key)
    ensures var g := Opened(cells, x.charge.key)[idx];
      RawGroups(cells + [x]) == Opened(cells, x.charge.key)[idx :=
        GroupSeries(g.key, PadTo(g.values, x.t) + [x.charge.amount], g.total + x.charge.amount)]
  {
    ChargesOfSnoc(cells, x);
    TotalsSnoc(ChargesOf(cells), x.charge);
    if x.charge.key in KeyOrder(ChargesOf(cells)) {
      assert Opened(cells, x.charge.key) == RawGroups(cells);
      KnownKeySnoc(cells, x, idx);
    } else {
      NewKeySnoc(cells, x);
      assert idx == |RawGroups(cells)|;
    }
  }

  /** Zero-fill the key's group up to the current period, append the amount and add it to the total. */
  method AddCharge(groups: seq<GroupSeries>, groupIdx: map<string, nat>, t: nat, key: string, amount: real,
                   ghost cells: seq<Cell>, ghost x: Cell)
    returns (groups': seq<GroupSeries>, groupIdx': map<string, nat>)
    requires groups == RawGroups(cells) && Indexes(groupIdx, KeyOrder(ChargesOf(cells)))
    requires x.t == t && x.charge.key == key && x.charge.amount == amount
    ensures groups' == RawGroups(cells + [x]) && Indexes(groupIdx', KeyOrder(ChargesOf(cells + [x])))
  {
    var idx;
    groups', groupIdx', idx := OpenGroup(groups, groupIdx, key, cells);
    var g := groups'[idx];
    ghost var padded := PadTo(g.values, t);
    while |g.values| < t
      invariant PadTo(g.values, t) == padded
      invariant g == groups'[idx].(values := g.values)
    {
      g := g.(values := g.values + [0.0]);
    }
    g := g.(values := g.values + [amount], total := g.total + amount);
    ChargeOneGroup(cells, x, idx);
    groups' := groups'[idx := g];
  }

  /** Zero-fill the trailing periods of every group and add the totals up. */
  method FillAndTotal(raw: seq<GroupSeries>, n: nat) returns (groups: seq<GroupSeries>, total: real)
    ensures groups == ZeroFilled(raw, n)
    ensures total == RealSum(raw, GroupTotal)
  {
    groups, total := raw, 0.0;
    for i := 0 to |groups|
      invariant |groups| == |raw|
      invariant forall k :: 0 <= k < i ==> groups[k] == ZeroFilled(raw, n)[k]
      invariant forall k :: i <= k < |raw| ==> groups[k] == raw[k]
      invariant total == RealSum(raw[..i], GroupTotal)
    {
      var g := groups[i];
      while |g.values| < n
        invariant PadTo(g.values, n) == PadTo(raw[i].values, n)
        invariant g == raw[i].(values := g.values)
      {
        g := g.(values := g.values + [0.0]);
      }
      groups := groups[i := g];
      total := total + g.total;
      assert raw[..i + 1] == raw[..i] + [raw[i]];
      RealSumConcat(raw[..i], [raw[i]], GroupTotal);
      RealSumOne(raw[i], GroupTotal);
    }
    assert raw[..|raw|] == raw;
  }

  /** Add the folded groups' values into one row; a position past the row's end panics. */
  method FoldRest(rest: seq<GroupSeries>, n: nat) returns (other: Result<GroupSeries, string>)
    ensures other.Success? <==> forall i :: 0 <= i < |rest| ==> |rest[i].values| <= n
    ensures other.Failure? ==> other.error == "index out of range"
    ensures other.Success? ==> other.value == GroupSeries("Other", ColumnSums(rest, n), RealSum(rest, GroupTotal))
  {
    var values, total := Zeros(n), 0.0;
    for i := 0 to |rest|
      invariant values == ColumnSums(rest[..i], n) && total == RealSum(rest[..i], GroupTotal)
      invariant forall k :: 0 <= k < i ==> |rest[k].values| <= n
    {
      var g := rest[i];
      for t := 0 to |g.values|
        invariant t <= n && |values| == n
        invariant forall u :: 0 <= u < n ==>
          values[u] == RealSum(rest[..i], Column(u)) + (if u < t then g.values[u] else 0.0)
      {
        if t >= |values| {
          return Failure("index out of range");
        }
        values := values[t := values[t] + g.values[t]];
      }
      total := total + g.total;
      assert rest[..i + 1] == rest[..i] + [g];
      RealSumConcat(rest[..i], [g], GroupTotal);
      RealSumOne(g, GroupTotal);
      forall u | 0 <= u < n
        ensures RealSum(rest[..i + 1], Column(u)) == RealSum(rest[..i], Column(u)) + ValueAt(g.values, u)
      {
        RealSumConcat(rest[..i], [g], Column(u));
        RealSumOne(g, Column(u));
      }
    }
    assert rest[..|rest|] == rest;
    return Success(GroupSeries("Other", values, total));
  }

  method AggregateResults(results: seq<ResultByTime>) returns (r: Result<Series, string>)
    ensures r == Aggregated(results)
  {
    var times, groups, currency := Collect(results);
    var total;
    groups, total := FillAndTotal(groups, |times|);
    TotalsConserve(Cells(results));
    groups := StableSort(groups);
    if |groups| > MAX_GROUPS {
      var other := FoldRest(groups[MAX_GROUPS..], |times|);
      if other.Failure? {
        assert forall i :: 0 <= i < |groups| - MAX_GROUPS ==> groups[MAX_GROUPS..][i] == groups[MAX_GROUPS + i];
        return Failure(other.error);
      }
      groups := groups[..MAX_GROUPS] + [other.value];
    }
    return Success(Series(times, groups, total, currency));
  }
}
