/**
 * The demo upstream as a whole: names emitted in one sorted order, one charge per name and
 * period, and what the dashboard built from them looks like.
 */
module Demo {
  import opened Wrappers
  import opened CostTypes
  import opened Upstream
  import opened Rows
  import opened Aggregate
  import opened AggregateLaws
  import opened Panics
  import opened Calendar
  import opened Windows

  // ----- one order of emission -----

  /** The order of strings: by the first character in which they differ, a prefix first. */
  predicate Before(a: string, b: string) {
    if b == "" then false
    else if a == "" then true
    else if a[0] != b[0] then a[0] < b[0]
    else Before(a[1..], b[1..])
  }

  lemma {:induction false} BeforeIsTransitive(a: string, b: string, c: string)
    requires Before(a, b) && Before(b, c)
    ensures Before(a, c)
  {
    if a != "" && a[0] == b[0] == c[0] {
      BeforeIsTransitive(a[1..], b[1..], c[1..]);
    }
  }

  lemma {:induction false} BeforeIsTotal(a: string, b: string)
    ensures a == b || Before(a, b) || Before(b, a)
    ensures !(Before(a, b) && Before(b, a)) && !Before(a, a)
  {
    if a != "" {
      BeforeIsTotal(a[1..], a[1..]);
      if b != "" && a[0] == b[0] {
        BeforeIsTotal(a[1..], b[1..]);
        assert a == [a[0]] + a[1..] && b == [b[0]] + b[1..];
      }
    }
  }

  /** The two differ first at position i, or the first ends there. */
  ghost predicate DiffersAt(a: string, b: string, i: nat) {
    && i <= |a| && i < |b| && a[..i] == b[..i]
    && (i == |a| || (i < |a| && a[i] < b[i]))
  }

  lemma {:induction false} BeforeExact(a: string, b: string)
    ensures Before(a, b) <==> exists i :: DiffersAt(a, b, i)
  {
    if Before(a, b) {
      var i := FirstDifference(a, b);
    }
    if exists i :: DiffersAt(a, b, i) {
      var i :| DiffersAt(a, b, i);
      DifferenceDecides(a, b, i);
    }
  }

  lemma {:induction false} FirstDifference(a: string, b: string) returns (i: nat)
    requires Before(a, b)
    ensures DiffersAt(a, b, i)
  {
    if a == "" || a[0] != b[0] {
      i := 0;
    } else {
      var j := FirstDifference(a[1..], b[1..]);
      i := j + 1;
      assert a[..i] == [a[0]] + a[1..][..j] && b[..i] == [b[0]] + b[1..][..j];
    }
  }

  lemma {:induction false} DifferenceDecides(a: string, b: string, i: nat)
    requires DiffersAt(a, b, i)
    ensures Before(a, b)
  {
    if i > 0 {
      assert a[0] == a[..i][0] == b[..i][0] == b[0];
      assert a[1..][..i - 1] == a[..i][1..] && b[1..][..i - 1] == b[..i][1..];
      DifferenceDecides(a[1..], b[1..], i - 1);
    }
  }

  ghost predicate Ascending(names: seq<string>) {
    forall i, j :: 0 <= i < j < |names| ==> Before(names[i], names[j])
  }

  ghost predicate Lists(names: seq<string>, keys: set<string>) {
    forall k :: k in names <==> k in keys
  }

  lemma NextLeast(a: seq<string>, b: seq<string>, i: nat)
    requires Ascending(a) && Ascending(b) && i < |a| && i < |b| && a[..i] == b[..i]
    requires a[i] in b
    ensures !Before(a[i], b[i])
  {
    var j :| 0 <= j < |b| && b[j] == a[i];
    BeforeIsTotal(a[i], b[i]);
    BeforeIsTotal(a[i], a[i]);
    assert forall k :: 0 <= k < i ==> a[k] == a[..i][k] == b[..i][k] == b[k];
  }

  /** Two ascending lists of the same names are the same list, so map-iteration order cannot show. */
  lemma {:induction false} OneEmissionOrder(a: seq<string>, b: seq<string>, keys: set<string>, i: nat)
    requires Ascending(a) && Lists(a, keys) && Ascending(b) && Lists(b, keys)
    requires i <= |a| && i <= |b| && a[..i] == b[..i]
    ensures a == b
    decreases |a| - i
  {
    if i < |a| && i < |b| {
      assert a[i] in a && b[i] in b;
      NextLeast(a, b, i);
      NextLeast(b, a, i);
      BeforeIsTotal(a[i], b[i]);
      assert a[..i + 1] == a[..i] + [a[i]] && b[..i + 1] == b[..i] + [b[i]];
      OneEmissionOrder(a, b, keys, i + 1);
    } else if i < |a| {
      NoMoreNames(b, a);
    } else if i < |b| {
      NoMoreNames(a, b);
    }
  }

  lemma NoMoreNames(short: seq<string>, long: seq<string>)
    requires Ascending(long) && |short| < |long| && long[..|short|] == short
    ensures long[|short|] !in short
  {
    if long[|short|] in short {
      var j :| 0 <= j < |short| && short[j] == long[|short|];
      assert long[j] == long[..|short|][j];
      BeforeIsTotal(long[j], long[|short|]);
    }
  }

  function InsertName(x: string, names: seq<string>): seq<string> {
    if names == [] || Before(x, names[0]) then [x] + names
    else [names[0]] + InsertName(x, names[1..])
  }

  lemma {:induction false} InsertNameSorts(x: string, names: seq<string>)
    requires Ascending(names) && x !in names
    ensures Ascending(InsertName(x, names))
    ensures forall k :: k in InsertName(x, names) <==> k == x || k in names
  {
    if names != [] {
      BeforeIsTotal(x, names[0]);
      assert names == [names[0]] + names[1..];
      if Before(x, names[0]) {
        forall j | 0 < j < |names|
          ensures Before(x, names[j])
        {
          BeforeIsTransitive(x, names[0], names[j]);
        }
      } else {
        InsertNameSorts(x, names[1..]);
        var rest := InsertName(x, names[1..]);
        forall j | 0 <= j < |rest|
          ensures Before(names[0], rest[j])
        {
          assert rest[j] in rest;
        }
      }
    }
  }

  /** The names of a map ranged over in any order, then sorted. */
  method SortedNames(keys: set<string>) returns (names: seq<string>)
    ensures Ascending(names) && Lists(names, keys)
  {
    names := [];
    var toVisit := keys;
    while toVisit != {}
      invariant toVisit <= keys && Ascending(names)
      invariant forall k :: k in names <==> k in keys && k !in toVisit
      decreases |toVisit|
    {
      var k :| k in toVisit;
      InsertNameSorts(k, names);
      names := InsertName(k, names);
      toVisit := toVisit - {k};
    }
  }

  // ----- what is emitted -----

  /** The charge for a name in a period; the amounts and date formats themselves are given. */
  datatype Tariff = Tariff(amount: (string, Period) -> real, stamp: int -> string)

  function GroupFor(name: string, p: Period, tariff: Tariff): Group {
    Group([name], Some(Metric(Amount(tariff.amount(name, p)), Some("USD"))))
  }

  function GroupsFor(names: seq<string>, p: Period, tariff: Tariff): seq<Group> {
    seq(|names|, i requires 0 <= i < |names| => GroupFor(names[i], p, tariff))
  }

  function Emitted(names: seq<string>, p: Period, tariff: Tariff): ResultByTime {
    ResultByTime(Some(tariff.stamp(p.pStart)), GroupsFor(names, p, tariff))
  }

  function AllEmitted(names: seq<string>, periods: seq<Period>, tariff: Tariff): seq<ResultByTime> {
    seq(|periods|, t requires 0 <= t < |periods| => Emitted(names, periods[t], tariff))
  }

  /** All names in ascending order, for every period the window is split into. */
  ghost predicate Emits(results: seq<ResultByTime>, names: seq<string>, periods: seq<Period>,
                        grain: Grain, w: Window, keys: set<string>, tariff: Tariff) {
    && Ascending(names) && Lists(names, keys) && IsDemoSplit(grain, w, periods)
    && results == AllEmitted(names, periods, tariff)
  }

  ghost predicate IsDemoAnswer(results: seq<ResultByTime>, grain: Grain, w: Window, keys: set<string>, tariff: Tariff) {
    exists names, periods :: Emits(results, names, periods, grain, w, keys, tariff)
  }

  method EmitPeriod(names: seq<string>, p: Period, tariff: Tariff) returns (r: ResultByTime)
    ensures r == Emitted(names, p, tariff)
  {
    var groups: seq<Group> := [];
    for i := 0 to |names|
      invariant groups == GroupsFor(names, p, tariff)[..i]
    {
      groups := groups + [Group([names[i]], Some(Metric(Amount(tariff.amount(names[i], p)), Some("USD"))))];
    }
    r := ResultByTime(Some(tariff.stamp(p.pStart)), groups);
  }

  method DemoUsage(grain: Grain, w: Window, keys: set<string>, tariff: Tariff)
    returns (results: seq<ResultByTime>)
    ensures IsDemoAnswer(results, grain, w, keys, tariff)
  {
    var names := SortedNames(keys);
    var periods := DemoPeriods(grain, w);
    results := [];
    for t := 0 to |periods|
      invariant results == AllEmitted(names, periods[..t], tariff)
    {
      var r := EmitPeriod(names, periods[t], tariff);
      results := results + [r];
      assert periods[..t + 1] == periods[..t] + [periods[t]];
    }
    assert periods[..|periods|] == periods;
    assert Emits(results, names, periods, grain, w, keys, tariff);
  }

  // ----- the dashboard over it -----

  function ChargeFor(name: string, p: Period, tariff: Tariff): Charge {
    Charge(name, tariff.amount(name, p), "USD")
  }

  function ChargesFor(names: seq<string>, p: Period, tariff: Tariff): seq<Charge> {
    seq(|names|, i requires 0 <= i < |names| => ChargeFor(names[i], p, tariff))
  }

  lemma OneMoreName(before: seq<string>, last: string, p: Period, tariff: Tariff)
    ensures GroupsFor(before + [last], p, tariff) == GroupsFor(before, p, tariff) + [GroupFor(last, p, tariff)]
    ensures ChargesFor(before + [last], p, tariff) == ChargesFor(before, p, tariff) + [ChargeFor(last, p, tariff)]
  {
  }

  lemma {:induction false} EmittedCharges(names: seq<string>, p: Period, tariff: Tariff)
    ensures Charges(GroupsFor(names, p, tariff)) == ChargesFor(names, p, tariff)
  {
    if names != [] {
      var before, last := names[..|names| - 1], names[|names| - 1];
      EmittedCharges(before, p, tariff);
      assert names == before + [last];
      OneMoreName(before, last, p, tariff);
      ChargesSnoc(GroupsFor(before, p, tariff), GroupFor(last, p, tariff));
    }
  }

  ghost predicate Holds(cells: seq<Cell>, names: seq<string>, periods: seq<Period>, tariff: Tariff) {
    forall t, i :: 0 <= t < |periods| && 0 <= i < |names| ==> Cell(t, ChargeFor(names[i], periods[t], tariff)) in cells
  }

  lemma NamesDiffer(names: seq<string>)
    requires Ascending(names)
    ensures forall i, j :: 0 <= i < j < |names| ==> names[i] != names[j]
  {
    forall i, j | 0 <= i < j < |names|
      ensures names[i] != names[j]
    {
      BeforeIsTotal(names[i], names[j]);
    }
  }

  lemma OnePeriodMore(before: seq<Cell>, names: seq<string>, periods: seq<Period>, p: Period, tariff: Tariff)
    requires Ascending(names) && InPeriodOrder(before, |periods|) && NoKeyRepeats(before)
    requires Holds(before, names, periods, tariff)
    ensures var cells := before + At(Charges(Emitted(names, p, tariff).groups), |periods|);
      NoKeyRepeats(cells) && Holds(cells, names, periods + [p], tariff)
  {
    EmittedCharges(names, p, tariff);
    NamesDiffer(names);
    var added := At(ChargesFor(names, p, tariff), |periods|);
    forall i | 0 <= i < |names|
      ensures Cell(|periods|, ChargeFor(names[i], p, tariff)) in added
    {
      assert added[i] == Cell(|periods|, ChargeFor(names[i], p, tariff));
    }
  }

  lemma AllEmittedSnoc(names: seq<string>, before: seq<Period>, last: Period, tariff: Tariff)
    ensures AllEmitted(names, before + [last], tariff)
         == AllEmitted(names, before, tariff) + [Emitted(names, last, tariff)]
  {
  }

  lemma EmittedSnoc(names: seq<string>, periods: seq<Period>, tariff: Tariff)
    returns (before: seq<Period>, last: Period)
    requires periods != []
    ensures before == periods[..|periods| - 1] && last == periods[|periods| - 1] && periods == before + [last]
    ensures var prior, results := AllEmitted(names, before, tariff), AllEmitted(names, periods, tariff);
      && Times(results) == Times(prior) + [tariff.stamp(last.pStart)]
      && Cells(results) == Cells(prior) + At(Charges(Emitted(names, last, tariff).groups), |Times(prior)|)
  {
    before, last := periods[..|periods| - 1], periods[|periods| - 1];
    assert periods == before + [last];
    AllEmittedSnoc(names, before, last, tariff);
    CellsSnoc(AllEmitted(names, before, tariff), Emitted(names, last, tariff));
  }

  lemma {:induction false} EmittedTimes(names: seq<string>, periods: seq<Period>, tariff: Tariff)
    ensures Times(AllEmitted(names, periods, tariff))
         == seq(|periods|, t requires 0 <= t < |periods| => tariff.stamp(periods[t].pStart))
  {
    if periods != [] {
      var before, _ := EmittedSnoc(names, periods, tariff);
      EmittedTimes(names, before, tariff);
    }
  }

  lemma {:induction false} EmittedCells(names: seq<string>, periods: seq<Period>, tariff: Tariff)
    requires Ascending(names)
    ensures var cells := Cells(AllEmitted(names, periods, tariff));
      NoKeyRepeats(cells) && Holds(cells, names, periods, tariff)
  {
    if periods != [] {
      var before, last := EmittedSnoc(names, periods, tariff);
      EmittedCells(names, before, tariff);
      EmittedTimes(names, before, tariff);
      CellsInPeriodOrder(AllEmitted(names, before, tariff));
      OnePeriodMore(Cells(AllEmitted(names, before, tariff)), names, before, last, tariff);
    }
  }

  /** A row of the dashboard carries its name's amount in every period. */
  ghost predicate IsDemoRow(g: GroupSeries, periods: seq<Period>, tariff: Tariff) {
    |g.values| == |periods| && forall t :: 0 <= t < |periods| ==> g.values[t] == tariff.amount(g.key, periods[t])
  }

  /**
   * The demo dashboard. Whatever the map-iteration order, the demo's periods aggregate without
   * a panic into one time per period, and every row before the fold belongs to an emitted name
   * and carries that name's amount in every single period.
   */
  lemma DemoDashboard(names: seq<string>, periods: seq<Period>, keys: set<string>, tariff: Tariff)
    requires Ascending(names) && Lists(names, keys)
    ensures var results := AllEmitted(names, periods, tariff);
      && Aggregated(results).Success?
      && |Aggregated(results).value.times| == |periods| && Aggregated(results).value.currency == "USD"
      && (forall t :: 0 <= t < |periods| ==> Aggregated(results).value.times[t] == tariff.stamp(periods[t].pStart))
      && (forall i :: 0 <= i < |Ranked(results)| ==>
            Ranked(results)[i].key in keys && IsDemoRow(Ranked(results)[i], periods, tariff))
      && (periods != [] ==> |Ranked(results)| == |keys| && forall k :: k in keys ==> HasRow(results, k))
  {
    var results := AllEmitted(names, periods, tariff);
    EmittedCells(names, periods, tariff);
    EmittedTimes(names, periods, tariff);
    DemoCurrency(names, periods, tariff);
    DenseFromSparse(results);
    DenseRows(results);
    RankedGroups(results);
    forall i | 0 <= i < |Ranked(results)|
      ensures Ranked(results)[i].key in keys && IsDemoRow(Ranked(results)[i], periods, tariff)
    {
      assert IsGroupOf(Ranked(results)[i], results);
      DemoRow(names, periods, keys, tariff, Ranked(results)[i]);
    }
    if periods != [] {
      EveryNameHasRow(names, periods, keys, tariff);
    }
  }

  ghost predicate HasRow(results: seq<ResultByTime>, k: string) {
    exists i :: 0 <= i < |Ranked(results)| && Ranked(results)[i].key == k
  }

  lemma EveryNameIsCharged(names: seq<string>, periods: seq<Period>, keys: set<string>, tariff: Tariff, k: string)
    requires Ascending(names) && Lists(names, keys) && periods != [] && k in keys
    ensures k in KeyOrder(ChargesOf(Cells(AllEmitted(names, periods, tariff))))
  {
    var cells := Cells(AllEmitted(names, periods, tariff));
    EmittedCells(names, periods, tariff);
    var i :| 0 <= i < |names| && names[i] == k;
    assert Cell(0, ChargeFor(names[i], periods[0], tariff)) in cells;
    var j :| 0 <= j < |cells| && cells[j] == Cell(0, ChargeFor(names[i], periods[0], tariff));
    assert ChargesOf(cells)[j].key == k;
    KeyOrderExact(ChargesOf(cells));
  }

  /** With at least one period, there is one row per name. */
  lemma EveryNameHasRow(names: seq<string>, periods: seq<Period>, keys: set<string>, tariff: Tariff)
    requires Ascending(names) && Lists(names, keys) && periods != []
    ensures var results := AllEmitted(names, periods, tariff);
      |Ranked(results)| == |keys| && forall k :: k in keys ==> HasRow(results, k)
  {
    var results := AllEmitted(names, periods, tariff);
    var charged := KeyOrder(ChargesOf(Cells(results)));
    forall k: string
      ensures k in keys <==> k in charged
      ensures k in keys ==> HasRow(results, k)
    {
      if k in keys {
        EveryNameIsCharged(names, periods, keys, tariff, k);
        var i := RankedCoversKeys(results, k);
      }
      if k in charged {
        OnlyTheNames(names, periods, tariff, k);
      }
    }
    KeyOrderExact(ChargesOf(Cells(results)));
    RankedGroups(results);
    CountOfDistinct(charged, keys);
  }

  lemma DemoRow(names: seq<string>, periods: seq<Period>, keys: set<string>, tariff: Tariff, g: GroupSeries)
    requires Ascending(names) && Lists(names, keys)
    requires var cells := Cells(AllEmitted(names, periods, tariff));
      && NoKeyRepeats(cells) && Holds(cells, names, periods, tariff)
      && g.key in KeyOrder(ChargesOf(cells))
      && IsDense(g, cells, |periods|)
    ensures g.key in keys && IsDemoRow(g, periods, tariff)
  {
    var cells := Cells(AllEmitted(names, periods, tariff));
    OnlyTheNames(names, periods, tariff, g.key);
    var i :| 0 <= i < |names| && names[i] == g.key;
    forall t | 0 <= t < |periods|
      ensures g.values[t] == tariff.amount(g.key, periods[t])
    {
      assert Cell(t, ChargeFor(names[i], periods[t], tariff)) in cells;
      ChargeAtIsTheCharge(cells, g.key, t);
    }
  }

  lemma OnlyTheNames(names: seq<string>, periods: seq<Period>, tariff: Tariff, key: string)
    requires key in KeyOrder(ChargesOf(Cells(AllEmitted(names, periods, tariff))))
    ensures key in names
  {
    var cells := Cells(AllEmitted(names, periods, tariff));
    KeyOrderExact(ChargesOf(cells));
    var i :| 0 <= i < |cells| && ChargesOf(cells)[i].key == key;
    CellsAreNamed(names, periods, tariff);
    assert cells[i].charge.key in names;
  }

  lemma EmittedAreNamed(names: seq<string>, p: Period, tariff: Tariff, t: nat, c: Cell)
    requires c in At(Charges(Emitted(names, p, tariff).groups), t)
    ensures c.charge.key in names && c.charge.unit == "USD"
  {
    EmittedCharges(names, p, tariff);
    var i :| 0 <= i < |names| && c == Cell(t, ChargeFor(names[i], p, tariff));
  }

  lemma {:induction false} CellsAreNamed(names: seq<string>, periods: seq<Period>, tariff: Tariff)
    ensures forall c :: c in Cells(AllEmitted(names, periods, tariff)) ==>
      c.charge.key in names && c.charge.unit == "USD"
  {
    if periods != [] {
      var before, last := EmittedSnoc(names, periods, tariff);
      CellsAreNamed(names, before, tariff);
      var t := |Times(AllEmitted(names, before, tariff))|;
      forall c | c in Cells(AllEmitted(names, periods, tariff))
        ensures c.charge.key in names && c.charge.unit == "USD"
      {
        if c !in Cells(AllEmitted(names, before, tariff)) {
          EmittedAreNamed(names, last, tariff, t, c);
        }
      }
    }
  }

  lemma {:induction false} OneCurrency(cs: seq<Charge>, unit: string)
    requires unit != "" && cs != [] && forall i :: 0 <= i < |cs| ==> cs[i].unit == unit
    ensures CurrencyOf(cs) == unit
  {
  }

  lemma DemoCurrency(names: seq<string>, periods: seq<Period>, tariff: Tariff)
    ensures CurrencyOf(ChargesOf(Cells(AllEmitted(names, periods, tariff)))) == "USD"
  {
    var cells := Cells(AllEmitted(names, periods, tariff));
    CellsAreNamed(names, periods, tariff);
    if cells != [] {
      OneCurrency(ChargesOf(cells), "USD");
    }
  }

  /** How many points a query draws on the demo upstream. */
  function PointsFor(grain: Grain, days: int, now: int): int {
    match grain
    case Hourly => 24 * days
    case Daily => days
    case Monthly => days / 30 - if DateOf(DayOfInstant(now)).day == 1 then 1 else 0
  }

  /** Determinism, end to end: a query at an instant has one dashboard, with as many points as it asks for. */
  lemma DemoIsDeterministic(grain: Grain, days: int, now: int, keys: set<string>, tariff: Tariff,
                            a: seq<ResultByTime>, b: seq<ResultByTime>)
    requires days >= 1 && (grain.Monthly? ==> days >= 30)
    requires IsDemoAnswer(a, grain, QueryWindow(grain, days, now), keys, tariff)
    requires IsDemoAnswer(b, grain, QueryWindow(grain, days, now), keys, tariff)
    ensures a == b
    ensures Aggregated(a).Success? && |Aggregated(a).value.times| == PointsFor(grain, days, now)
  {
    var w := QueryWindow(grain, days, now);
    var names, p :| Emits(a, names, p, grain, w, keys, tariff);
    var others, q :| Emits(b, others, q, grain, w, keys, tariff);
    OneEmissionOrder(names, others, keys, 0);
    PeriodCounts(grain, days, now, p);
    PeriodCounts(grain, days, now, q);
    SplitIsOne(grain, w, p, q);
    DemoDashboard(names, p, keys, tariff);
  }

  lemma SplitIsOne(grain: Grain, w: Window, p: seq<Period>, q: seq<Period>)
    requires IsDemoSplit(grain, w, p) && IsDemoSplit(grain, w, q) && |p| == |q|
    ensures p == q
  {
  }
}
