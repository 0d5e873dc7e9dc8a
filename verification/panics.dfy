/**
 * When a repeated key makes the aggregation panic, read off the charges alone, and responses
 * that do it.
 */
module Panics {
  import opened Wrappers
  import opened CostTypes
  import opened Upstream
  import opened Rows
  import opened Ranking
  import opened Aggregate
  import opened AggregateLaws

  // ----- rank, from the charges -----

  /** How many keys come before this one. */
  function PlaceOf(keys: seq<string>, k: string): nat {
    if keys == [] || keys[0] == k then 0 else 1 + PlaceOf(keys[1..], k)
  }

  ghost predicate AllDiffer(keys: seq<string>) {
    forall i, j :: 0 <= i < j < |keys| ==> keys[i] != keys[j]
  }

  lemma {:induction false} PlaceAt(keys: seq<string>, i: nat)
    requires i < |keys| && AllDiffer(keys)
    ensures PlaceOf(keys, keys[i]) == i
  {
    if i > 0 {
      PlaceAt(keys[1..], i - 1);
    }
  }

  /** One key ranks ahead of another: a larger total, or an equal one and charged first earlier. */
  predicate Ahead(cs: seq<Charge>, j: string, k: string) {
    || TotalOf(cs, j) > TotalOf(cs, k)
    || (TotalOf(cs, j) == TotalOf(cs, k) && PlaceOf(KeyOrder(cs), j) < PlaceOf(KeyOrder(cs), k))
  }

  ghost function AheadOf(cs: seq<Charge>, k: string): set<string> {
    set j | j in KeyOrder(cs) && Ahead(cs, j, k)
  }

  predicate Precedes(a: GroupSeries, b: GroupSeries, keys: seq<string>) {
    a.total > b.total || (a.total == b.total && PlaceOf(keys, a.key) < PlaceOf(keys, b.key))
  }

  ghost predicate InRank(s: seq<GroupSeries>, keys: seq<string>) {
    forall i, j :: 0 <= i < j < |s| ==> Precedes(s[i], s[j], keys)
  }

  lemma {:induction false} InsertInRank(g: GroupSeries, s: seq<GroupSeries>, keys: seq<string>)
    requires InRank(s, keys) && forall x :: x in s ==> PlaceOf(keys, g.key) < PlaceOf(keys, x.key)
    ensures InRank(Insert(g, s), keys)
  {
    if s == [] || g.total >= s[0].total {
      forall j | 0 <= j < |s|
        ensures Precedes(g, s[j], keys)
      {
        assert s[j] in s && (j > 0 ==> Precedes(s[0], s[j], keys));
      }
    } else {
      var rest := Insert(g, s[1..]);
      InsertInRank(g, s[1..], keys);
      forall j | 0 <= j < |rest|
        ensures Precedes(s[0], rest[j], keys)
      {
        InsertMembers(g, s[1..], rest[j]);
        if rest[j] != g {
          var i :| 0 <= i < |s[1..]| && s[1..][i] == rest[j];
          assert Precedes(s[0], s[i + 1], keys);
        }
      }
    }
  }

  lemma {:induction false} SortInRank(s: seq<GroupSeries>, keys: seq<string>)
    requires forall i, j :: 0 <= i < j < |s| ==> PlaceOf(keys, s[i].key) < PlaceOf(keys, s[j].key)
    ensures InRank(StableSort(s), keys)
  {
    if s != [] {
      SortInRank(s[1..], keys);
      StableSortIsStableRanking(s[1..]);
      forall x | x in StableSort(s[1..])
        ensures PlaceOf(keys, s[0].key) < PlaceOf(keys, x.key)
      {
        var i :| 0 <= i < |s[1..]| && s[1..][i] == x;
        assert s[i + 1] == x;
      }
      InsertInRank(s[0], StableSort(s[1..]), keys);
    }
  }

  lemma RankedInRank(results: seq<ResultByTime>)
    ensures InRank(Ranked(results), KeyOrder(ChargesOf(Cells(results))))
  {
    var keys := KeyOrder(ChargesOf(Cells(results)));
    var filled := ZeroFilled(RawGroups(Cells(results)), |Times(results)|);
    KeyOrderExact(ChargesOf(Cells(results)));
    forall i | 0 <= i < |filled|
      ensures PlaceOf(keys, filled[i].key) == i
    {
      PlaceAt(keys, i);
    }
    SortInRank(filled, keys);
  }

  lemma PrecedesIsAhead(results: seq<ResultByTime>, a: GroupSeries, b: GroupSeries)
    requires IsGroupOf(a, results) && IsGroupOf(b, results)
    ensures var cs := ChargesOf(Cells(results));
      Precedes(a, b, KeyOrder(cs)) <==> Ahead(cs, a.key, b.key)
  {
  }

  function KeysBefore(ranked: seq<GroupSeries>, p: nat): seq<string>
    requires p <= |ranked|
  {
    seq(p, i requires 0 <= i < p => ranked[i].key)
  }

  /** The keys ahead of a group's key are the keys of the groups before it. */
  lemma AheadAreBefore(results: seq<ResultByTime>, p: nat, j: string)
    requires p < |Ranked(results)|
    ensures var cs, ranked := ChargesOf(Cells(results)), Ranked(results);
      j in AheadOf(cs, ranked[p].key) <==> j in KeysBefore(ranked, p)
  {
    var cs, ranked := ChargesOf(Cells(results)), Ranked(results);
    RankedInRank(results);
    RankedGroups(results);
    if j in KeysBefore(ranked, p) {
      var i :| 0 <= i < p && KeysBefore(ranked, p)[i] == j;
      PrecedesIsAhead(results, ranked[i], ranked[p]);
    }
    if j in AheadOf(cs, ranked[p].key) {
      var i := RankedCoversKeys(results, j);
      PrecedesIsAhead(results, ranked[i], ranked[p]);
      if i < p {
        assert KeysBefore(ranked, p)[i] == j;
      } else if p < i {
        assert Precedes(ranked[p], ranked[i], KeyOrder(cs));
      }
    }
  }

  lemma KeysBeforeDiffer(results: seq<ResultByTime>, p: nat)
    requires p <= |Ranked(results)|
    ensures AllDiffer(KeysBefore(Ranked(results), p))
  {
    var ranked := Ranked(results);
    RankedInRank(results);
    RankedGroups(results);
    forall i, j | 0 <= i < j < p
      ensures ranked[i].key != ranked[j].key
    {
      PrecedesIsAhead(results, ranked[i], ranked[j]);
    }
  }

  lemma {:induction false} CountOfDistinct(names: seq<string>, keys: set<string>)
    requires AllDiffer(names) && forall k :: k in keys <==> k in names
    ensures |keys| == |names|
  {
    if names == [] {
      assert keys == {};
    } else {
      var n := |names| - 1;
      assert names == names[..n] + [names[n]];
      CountOfDistinct(names[..n], keys - {names[n]});
    }
  }

  /** A group stands in the ranking as far down as there are keys ahead of its own. */
  lemma RankIsCount(results: seq<ResultByTime>, p: nat)
    requires p < |Ranked(results)|
    ensures |AheadOf(ChargesOf(Cells(results)), Ranked(results)[p].key)| == p
  {
    var cs, ranked := ChargesOf(Cells(results)), Ranked(results);
    forall j: string
      ensures j in AheadOf(cs, ranked[p].key) <==> j in KeysBefore(ranked, p)
    {
      AheadAreBefore(results, p, j);
    }
    KeysBeforeDiffer(results, p);
    CountOfDistinct(KeysBefore(ranked, p), AheadOf(cs, ranked[p].key));
  }

  /** A charged key with twelve or more keys ahead of it that is charged too often to fit the time axis. */
  ghost predicate BreaksFold(results: seq<ResultByTime>, k: string) {
    var cells := Cells(results);
    && k in KeyOrder(ChargesOf(cells))
    && |AheadOf(ChargesOf(cells), k)| >= 12
    && Overflows(cells, k, |Times(results)|)
  }

  /**
   * The aggregation panics exactly when some key has, from some period on, more charges than
   * there are periods left, while at least twelve keys have a larger total, or an equal one and
   * an earlier first charge.
   */
  lemma PanicsIff(results: seq<ResultByTime>)
    ensures Aggregated(results).Failure? <==> exists k :: BreaksFold(results, k)
  {
    var ranked := Ranked(results);
    PanicsByRank(results);
    RankedGroups(results);
    forall i | 0 <= i < |ranked|
      ensures |AheadOf(ChargesOf(Cells(results)), ranked[i].key)| == i && IsGroupOf(ranked[i], results)
    {
      RankIsCount(results, i);
    }
    if exists k :: BreaksFold(results, k) {
      var k :| BreaksFold(results, k);
      var i := RankedCoversKeys(results, k);
      assert 12 <= i;
    }
    if Aggregated(results).Failure? {
      var i :| 12 <= i < |ranked| && Overflows(Cells(results), ranked[i].key, |Times(results)|);
      assert BreaksFold(results, ranked[i].key);
    }
  }

  // ----- responses that do it -----

  /** A group that charges one key. */
  function Costs(key: string, v: real): Group {
    Group([key], Some(Metric(Amount(v), None)))
  }

  function OneEach(names: seq<string>): seq<Group> {
    seq(|names|, i requires 0 <= i < |names| => Costs(names[i], 1.0))
  }

  function OnesCharged(names: seq<string>): seq<Charge> {
    seq(|names|, i requires 0 <= i < |names| => Charge(names[i], 1.0, ""))
  }

  lemma {:induction false} OnesAreCharged(names: seq<string>)
    ensures Charges(OneEach(names)) == OnesCharged(names)
  {
    if names != [] {
      var before, last := names[..|names| - 1], names[|names| - 1];
      OnesAreCharged(before);
      assert OneEach(names) == OneEach(before) + [Costs(last, 1.0)];
      ChargesSnoc(OneEach(before), Costs(last, 1.0));
    }
  }

  lemma {:induction false} OnesTotal(names: seq<string>, k: string)
    requires AllDiffer(names)
    ensures TotalOf(OnesCharged(names), k) == if k in names then 1.0 else 0.0
    ensures k in KeyOrder(OnesCharged(names)) <==> k in names
  {
    if names != [] {
      var before, last := names[..|names| - 1], names[|names| - 1];
      OnesTotal(before, k);
      assert names == before + [last];
      assert OnesCharged(names) == OnesCharged(before) + [Charge(last, 1.0, "")];
      TotalsSnoc(OnesCharged(before), Charge(last, 1.0, ""));
    }
  }

  /** One period: each name once at 1, and then `k` twice at 0. */
  function OverchargedPeriod(day: string, names: seq<string>, k: string): ResultByTime {
    ResultByTime(Some(day), OneEach(names) + [Costs(k, 0.0)] + [Costs(k, 0.0)])
  }

  function Overcharges(names: seq<string>, k: string): seq<Charge> {
    OnesCharged(names) + [Charge(k, 0.0, "")] + [Charge(k, 0.0, "")]
  }

  lemma OverchargedCells(day: string, names: seq<string>, k: string)
    ensures var results := [OverchargedPeriod(day, names, k)];
      Cells(results) == At(Overcharges(names, k), 0) && Times(results) == [day]
      && ChargesOf(Cells(results)) == Overcharges(names, k)
  {
    var r := OverchargedPeriod(day, names, k);
    OnesAreCharged(names);
    ChargesSnoc(OneEach(names), Costs(k, 0.0));
    ChargesSnoc(OneEach(names) + [Costs(k, 0.0)], Costs(k, 0.0));
    CellsSnoc([], r);
    assert [] + [r] == [r];
  }

  lemma OverchargesRank(names: seq<string>, k: string)
    requires AllDiffer(names) && k !in names
    ensures k in KeyOrder(Overcharges(names, k)) && TotalOf(Overcharges(names, k), k) == 0.0
    ensures forall j :: j in names ==> j in AheadOf(Overcharges(names, k), k)
  {
    TotalsSnoc(OnesCharged(names), Charge(k, 0.0, ""));
    TotalsSnoc(OnesCharged(names) + [Charge(k, 0.0, "")], Charge(k, 0.0, ""));
    OnesTotal(names, k);
    forall j | j in names
      ensures j in AheadOf(Overcharges(names, k), k)
    {
      OnesTotal(names, j);
    }
  }

  lemma OverchargesOverflow(names: seq<string>, k: string)
    ensures Overflows(At(Overcharges(names, k), 0), k, 1)
  {
    var ones, x := At(OnesCharged(names), 0), Cell(0, Charge(k, 0.0, ""));
    var cells := At(Overcharges(names, k), 0);
    assert cells[..|cells| - 1] == ones + [x] && (ones + [x])[..|ones|] == ones;
    assert CountFrom(cells, k, 0) == CountFrom(ones + [x], k, 0) + 1;
    assert CountFrom(ones + [x], k, 0) == CountFrom(ones, k, 0) + 1;
    assert CountFrom(cells, k, 0) > 1 - 0;
  }

  lemma AtLeastTwelve(names: seq<string>, keys: set<string>)
    requires AllDiffer(names) && forall j :: j in names ==> j in keys
    ensures |keys| >= |names|
  {
    var listed := set j | j in names;
    CountOfDistinct(names, listed);
    assert listed <= keys && keys == listed + (keys - listed);
    assert |keys| == |listed| + |keys - listed|;
  }

  /** Any twelve keys at 1 and a thirteenth twice at 0 within one period make the aggregation panic. */
  lemma OverchargedPeriodPanics(day: string, names: seq<string>, k: string)
    requires |names| == 12 && AllDiffer(names) && k !in names
    ensures Aggregated([OverchargedPeriod(day, names, k)]).Failure?
  {
    var results := [OverchargedPeriod(day, names, k)];
    OverchargedCells(day, names, k);
    OverchargesRank(names, k);
    OverchargesOverflow(names, k);
    AtLeastTwelve(names, AheadOf(Overcharges(names, k), k));
    assert BreaksFold(results, k);
    PanicsIff(results);
  }

  function Letter(i: nat): string
    requires i < 26
  {
    ['a' + i as char]
  }

  /** One such response: services a to l at 1, and m twice at 0. */
  lemma PanicExample() returns (results: seq<ResultByTime>)
    ensures |results| == 1 && |results[0].groups| == 14 && results[0].start == Some("2026-07-01")
    ensures Aggregated(results).Failure?
  {
    var names := seq(12, i requires 0 <= i < 12 => Letter(i));
    forall i, j | 0 <= i < j < 12
      ensures names[i] != names[j]
    {
      assert names[i][0] != names[j][0];
    }
    assert forall i :: 0 <= i < 12 ==> names[i][0] != 'm';
    results := [OverchargedPeriod("2026-07-01", names, "m")];
    OverchargedPeriodPanics("2026-07-01", names, "m");
  }

  // ----- a row out of step that is returned -----

  /** Two periods, the key charged twice in the first and once in the second. */
  function RepeatedKey(key: string, a: real, b: real, c: real): seq<ResultByTime> {
    [ResultByTime(Some("2026-07-01"), [Costs(key, a), Costs(key, b)]),
     ResultByTime(Some("2026-07-02"), [Costs(key, c)])]
  }

  lemma OneCharge(key: string, v: real)
    ensures Charges([Costs(key, v)]) == [Charge(key, v, "")]
  {
    ChargesSnoc([], Costs(key, v));
    assert [] + [Costs(key, v)] == [Costs(key, v)];
  }

  lemma TwoCharges(key: string, v: real, w: real)
    ensures Charges([Costs(key, v), Costs(key, w)]) == [Charge(key, v, ""), Charge(key, w, "")]
  {
    OneCharge(key, v);
    ChargesSnoc([Costs(key, v)], Costs(key, w));
    assert [Costs(key, v)] + [Costs(key, w)] == [Costs(key, v), Costs(key, w)];
  }

  lemma OnePeriod(r: ResultByTime)
    requires r.start.Some?
    ensures Times([r]) == [r.start.value] && Cells([r]) == At(Charges(r.groups), 0)
  {
    CellsSnoc([], r);
    assert [] + [r] == [r];
  }

  lemma TwoPeriods(r: ResultByTime, q: ResultByTime)
    requires r.start.Some? && q.start.Some?
    ensures Times([r] + [q]) == [r.start.value, q.start.value]
    ensures Cells([r] + [q]) == At(Charges(r.groups), 0) + At(Charges(q.groups), 1)
  {
    OnePeriod(r);
    CellsSnoc([r], q);
  }

  lemma RepeatedKeyCells(key: string, a: real, b: real, c: real)
    ensures var x, y, z := Cell(0, Charge(key, a, "")), Cell(0, Charge(key, b, "")), Cell(1, Charge(key, c, ""));
      Cells(RepeatedKey(key, a, b, c)) == [x] + [y] + [z]
    ensures Times(RepeatedKey(key, a, b, c)) == ["2026-07-01", "2026-07-02"]
  {
    TwoCharges(key, a, b);
    OneCharge(key, c);
    var r, q := RepeatedKey(key, a, b, c)[0], RepeatedKey(key, a, b, c)[1];
    TwoPeriods(r, q);
    assert RepeatedKey(key, a, b, c) == [r] + [q];
  }

  lemma FirstCharge(x: Cell)
    requires x.t == 0
    ensures RawGroups([x]) == [GroupSeries(x.charge.key, [x.charge.amount], x.charge.amount)]
  {
    assert ChargesOf([]) == [] && RawGroups([]) == [];
    NewKeySnoc([], x);
    assert [] + [x] == [x] && PadTo([], 0) + [x.charge.amount] == [x.charge.amount];
  }

  lemma FurtherCharge(cells: seq<Cell>, x: Cell, row: seq<real>, total: real)
    requires RawGroups(cells) == [GroupSeries(x.charge.key, row, total)] && x.t <= |row|
    ensures RawGroups(cells + [x])
         == [GroupSeries(x.charge.key, row + [x.charge.amount], total + x.charge.amount)]
  {
    assert RawGroups(cells)[0].key == KeyOrder(ChargesOf(cells))[0];
    KnownKeySnoc(cells, x, 0);
  }

  lemma RepeatedKeyRow(key: string, a: real, b: real, c: real)
    ensures RawGroups(Cells(RepeatedKey(key, a, b, c))) == [GroupSeries(key, [a, b, c], a + b + c)]
  {
    var x, y, z := Cell(0, Charge(key, a, "")), Cell(0, Charge(key, b, "")), Cell(1, Charge(key, c, ""));
    RepeatedKeyCells(key, a, b, c);
    FirstCharge(x);
    FurtherCharge([x], y, [a], a);
    FurtherCharge([x] + [y], z, [a] + [b], a + b);
    assert [a] + [b] + [c] == [a, b, c];
  }

  /**
   * A key charged twice in the first of two periods comes back with three values on a time axis
   * of two, its second charge standing under the second period.
   */
  lemma RepeatedKeyShiftsRow(key: string, a: real, b: real, c: real)
    ensures var r := Aggregated(RepeatedKey(key, a, b, c));
      && r.Success? && |r.value.times| == 2
      && r.value.groups == [GroupSeries(key, [a, b, c], a + b + c)]
  {
    var results := RepeatedKey(key, a, b, c);
    RepeatedKeyCells(key, a, b, c);
    RepeatedKeyRow(key, a, b, c);
    var g := GroupSeries(key, [a, b, c], a + b + c);
    assert ZeroFilled([g], 2) == [g];
    assert StableSort([g]) == [g];
    assert Ranked(results) == [g];
  }
}
