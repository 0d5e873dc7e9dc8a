/**
 * The aggregation and the summary's fold read straight off the responses: period by period and
 * group by group, with no reference to charges, cells or the order of the loops.
 */
module Ledger {
  import opened Wrappers
  import opened CostTypes
  import opened Upstream
  import opened Rows
  import opened Alignment
  import opened Ranking
  import opened Aggregate
  import opened AggregateLaws
  import opened Panics
  import opened Fetch
  import opened Movers
  import opened Sums

  // ----- one group -----

  /** A group counts if it has a key and an UnblendedCost amount that is a number. */
  predicate Readable(g: Group) {
    |g.keys| > 0 && g.metric.Some? && g.metric.value.amount.Amount?
  }

  /** What a group adds to a key. */
  function AmountFor(key: string): Group -> real {
    (g: Group) => if Readable(g) && g.keys[0] == key then g.metric.value.amount.v else 0.0
  }

  function AnyAmount(g: Group): real {
    if Readable(g) then g.metric.value.amount.v else 0.0
  }

  /** Which groups are counted, under which key, with which amount and unit. */
  lemma AcceptExact(g: Group)
    ensures Accept(g).Some? <==> |g.keys| > 0 && g.metric.Some? && g.metric.value.amount.Amount?
    ensures Accept(g).Some? ==> Accept(g).value.key == g.keys[0] && Accept(g).value.amount == g.metric.value.amount.v
    ensures Accept(g).Some? ==> g.metric.value.unit.Some? ==> Accept(g).value.unit == g.metric.value.unit.value
    ensures Accept(g).Some? ==> g.metric.value.unit.None? ==> Accept(g).value.unit == ""
    ensures Readable(g) <==> Accept(g).Some?
  {
  }

  lemma SumSnoc<T>(s: seq<T>, x: T, w: T -> real)
    ensures RealSum(s + [x], w) == RealSum(s, w) + w(x)
  {
    RealSumConcat(s, [x], w);
    RealSumOne(x, w);
  }

  // ----- one period -----

  lemma GroupAdds(before: seq<Group>, g: Group, key: string)
    ensures TotalOf(Charges(before + [g]), key) == TotalOf(Charges(before), key) + AmountFor(key)(g)
  {
    ChargesSnoc(before, g);
    if Accept(g).Some? {
      TotalsSnoc(Charges(before), Accept(g).value);
    } else {
      assert Charges(before) + [] == Charges(before);
    }
  }

  lemma {:induction false} PeriodTotal(groups: seq<Group>, key: string)
    ensures TotalOf(Charges(groups), key) == RealSum(groups, AmountFor(key))
  {
    if groups != [] {
      var before, g := groups[..|groups| - 1], groups[|groups| - 1];
      assert groups == before + [g];
      PeriodTotal(before, key);
      GroupAdds(before, g, key);
      SumSnoc(before, g, AmountFor(key));
    }
  }

  lemma {:induction false} PeriodGrandTotal(groups: seq<Group>)
    ensures GrandTotal(Charges(groups)) == RealSum(groups, AnyAmount)
  {
    if groups != [] {
      var before, g := groups[..|groups| - 1], groups[|groups| - 1];
      assert groups == before + [g];
      PeriodGrandTotal(before);
      ChargesSnoc(before, g);
      SumSnoc(before, g, AnyAmount);
      if Accept(g).Some? {
        TotalsSnoc(Charges(before), Accept(g).value);
      } else {
        assert Charges(before) + [] == Charges(before);
      }
    }
  }

  ghost predicate NamesKey(groups: seq<Group>, k: string) {
    exists g :: g in groups && Readable(g) && g.keys[0] == k
  }

  lemma NamesKeySnoc(groups: seq<Group>, g: Group, k: string)
    ensures NamesKey(groups + [g], k) <==> NamesKey(groups, k) || (Readable(g) && g.keys[0] == k)
  {
    assert g in groups + [g];
    assert forall x :: x in groups ==> x in groups + [g];
  }

  lemma {:induction false} PeriodCharges(groups: seq<Group>, k: string)
    ensures Charged(Charges(groups), k) <==> NamesKey(groups, k)
  {
    if groups != [] {
      var before, g := groups[..|groups| - 1], groups[|groups| - 1];
      assert groups == before + [g];
      PeriodCharges(before, k);
      ChargesSnoc(before, g);
      NamesKeySnoc(before, g, k);
      if Accept(g).Some? {
        ChargedSnoc(Charges(before), Accept(g).value, k);
      } else {
        assert Charges(before) + [] == Charges(before);
      }
    }
  }

  lemma {:induction false} TotalOfConcat(a: seq<Charge>, b: seq<Charge>, key: string)
    ensures TotalOf(a + b, key) == TotalOf(a, key) + TotalOf(b, key)
    ensures GrandTotal(a + b) == GrandTotal(a) + GrandTotal(b)
  {
    if b == [] {
      assert a + b == a;
    } else {
      var before, c := b[..|b| - 1], b[|b| - 1];
      assert b == before + [c] && a + b == (a + before) + [c];
      TotalOfConcat(a, before, key);
      TotalsSnoc(a + before, c);
      TotalsSnoc(before, c);
    }
  }

  lemma ChargedConcat(a: seq<Charge>, b: seq<Charge>, k: string)
    ensures Charged(a + b, k) <==> Charged(a, k) || Charged(b, k)
  {
    if Charged(a, k) {
      var i :| 0 <= i < |a| && a[i].key == k;
      assert (a + b)[i].key == k;
    }
    if Charged(b, k) {
      var i :| 0 <= i < |b| && b[i].key == k;
      assert (a + b)[|a| + i].key == k;
    }
    if Charged(a + b, k) {
      var i :| 0 <= i < |a + b| && (a + b)[i].key == k;
      assert i < |a| ==> a[i].key == k;
      assert i >= |a| ==> b[i - |a|].key == k;
    }
  }

  // ----- all periods -----

  /** What a period adds to a key, or in all; the aggregation reads only periods with a start. */
  function PeriodAmount(key: string): ResultByTime -> real {
    (r: ResultByTime) => RealSum(r.groups, AmountFor(key))
  }

  function PeriodSpend(r: ResultByTime): real {
    RealSum(r.groups, AnyAmount)
  }

  function StartedAmount(key: string): ResultByTime -> real {
    (r: ResultByTime) => if r.start.Some? then RealSum(r.groups, AmountFor(key)) else 0.0
  }

  function StartedSpend(r: ResultByTime): real {
    if r.start.Some? then RealSum(r.groups, AnyAmount) else 0.0
  }

  lemma {:induction false} AllChargesTotal(results: seq<ResultByTime>, key: string)
    ensures TotalOf(AllCharges(results), key) == RealSum(results, PeriodAmount(key))
    ensures GrandTotal(AllCharges(results)) == RealSum(results, PeriodSpend)
  {
    if results != [] {
      var before, r := results[..|results| - 1], results[|results| - 1];
      assert results == before + [r];
      AllChargesTotal(before, key);
      AllChargesSnoc(before, r);
      TotalOfConcat(AllCharges(before), Charges(r.groups), key);
      PeriodTotal(r.groups, key);
      PeriodGrandTotal(r.groups);
      SumSnoc(before, r, PeriodAmount(key));
      SumSnoc(before, r, PeriodSpend);
    }
  }

  /** The charges of the cells, with one period more. */
  lemma StartedChargesSnoc(before: seq<ResultByTime>, r: ResultByTime)
    ensures ChargesOf(Cells(before + [r]))
         == ChargesOf(Cells(before)) + if r.start.Some? then Charges(r.groups) else []
  {
    CellsSnoc(before, r);
    ChargesOfMore(Cells(before), Charges(r.groups), |Times(before)|);
    assert Cells(before) + [] == Cells(before);
    assert ChargesOf(Cells(before)) + [] == ChargesOf(Cells(before));
  }

  lemma {:induction false} StartedTotal(results: seq<ResultByTime>, key: string)
    ensures TotalOf(ChargesOf(Cells(results)), key) == RealSum(results, StartedAmount(key))
    ensures GrandTotal(ChargesOf(Cells(results))) == RealSum(results, StartedSpend)
  {
    if results == [] {
      assert ChargesOf(Cells(results)) == [];
    } else {
      var before, r := results[..|results| - 1], results[|results| - 1];
      assert results == before + [r];
      StartedTotal(before, key);
      StartedChargesSnoc(before, r);
      TotalOfConcat(ChargesOf(Cells(before)), if r.start.Some? then Charges(r.groups) else [], key);
      PeriodTotal(r.groups, key);
      PeriodGrandTotal(r.groups);
      SumSnoc(before, r, StartedAmount(key));
      SumSnoc(before, r, StartedSpend);
    }
  }

  // ----- which keys -----

  ghost predicate Names(results: seq<ResultByTime>, k: string) {
    exists r :: r in results && NamesKey(r.groups, k)
  }

  ghost predicate StartedNames(results: seq<ResultByTime>, k: string) {
    exists r :: r in results && r.start.Some? && NamesKey(r.groups, k)
  }

  lemma NamesSnoc(before: seq<ResultByTime>, r: ResultByTime, k: string)
    ensures Names(before + [r], k) <==> Names(before, k) || NamesKey(r.groups, k)
    ensures StartedNames(before + [r], k) <==> StartedNames(before, k) || (r.start.Some? && NamesKey(r.groups, k))
  {
    assert r in before + [r];
    assert forall x :: x in before ==> x in before + [r];
  }

  lemma {:induction false} AllChargesName(results: seq<ResultByTime>, k: string)
    ensures Charged(AllCharges(results), k) <==> Names(results, k)
  {
    if results != [] {
      var before, r := results[..|results| - 1], results[|results| - 1];
      assert results == before + [r];
      AllChargesName(before, k);
      AllChargesSnoc(before, r);
      ChargedConcat(AllCharges(before), Charges(r.groups), k);
      PeriodCharges(r.groups, k);
      NamesSnoc(before, r, k);
    }
  }

  lemma {:induction false} StartedChargesName(results: seq<ResultByTime>, k: string)
    ensures Charged(ChargesOf(Cells(results)), k) <==> StartedNames(results, k)
  {
    if results != [] {
      var before, r := results[..|results| - 1], results[|results| - 1];
      assert results == before + [r];
      StartedChargesName(before, k);
      StartedChargesSnoc(before, r);
      ChargedConcat(ChargesOf(Cells(before)), if r.start.Some? then Charges(r.groups) else [], k);
      PeriodCharges(r.groups, k);
      NamesSnoc(before, r, k);
    }
  }

  /** The distinct keys of the readable groups of periods with a start. */
  ghost function KeysIn(results: seq<ResultByTime>): set<string> {
    set r, g | r in results && r.start.Some? && g in r.groups && Readable(g) :: g.keys[0]
  }

  lemma KeysInAreCharged(results: seq<ResultByTime>, k: string)
    ensures k in KeysIn(results) <==> k in KeyOrder(ChargesOf(Cells(results)))
  {
    StartedChargesName(results, k);
    KeyOrderMembers(ChargesOf(Cells(results)), k);
    if StartedNames(results, k) {
      var r :| r in results && r.start.Some? && NamesKey(r.groups, k);
      var g :| g in r.groups && Readable(g) && g.keys[0] == k;
      assert k in KeysIn(results);
    }
    if k in KeysIn(results) {
      var r, g :| r in results && r.start.Some? && g in r.groups && Readable(g) && g.keys[0] == k;
      assert NamesKey(r.groups, k);
    }
  }

  lemma RankedCount(results: seq<ResultByTime>)
    ensures |Ranked(results)| == |KeysIn(results)|
  {
    var keys := KeyOrder(ChargesOf(Cells(results)));
    KeyOrderDiffers(ChargesOf(Cells(results)));
    forall k: string
      ensures k in KeysIn(results) <==> k in keys
    {
      KeysInAreCharged(results, k);
    }
    CountOfDistinct(keys, KeysIn(results));
    RankedGroups(results);
  }

  /**
   * The cut, in numbers. With n distinct keys charged, n groups are returned if n is at most
   * twelve, and thirteen otherwise. The first twelve are the groups of different charged keys,
   * each with all that its key was charged; the thirteenth, and no other, is the fold "Other",
   * which holds the rest.
   */
  lemma CutAtTwelve(results: seq<ResultByTime>)
    requires Aggregated(results).Success?
    ensures var n, groups := |KeysIn(results)|, Aggregated(results).value.groups;
      && |groups| == (if n <= 12 then n else 13)
      && (forall i :: 0 <= i < |groups| && i < 12 ==>
            groups[i].key in KeysIn(results) && groups[i].total == RealSum(results, StartedAmount(groups[i].key)))
      && (forall i, j :: 0 <= i < j < |groups| && j < 12 ==> groups[i].key != groups[j].key)
      && (|groups| == 13 ==> groups[12].key == "Other")
      && (|groups| == 13 ==> RealSum(groups[..12], GroupTotal) + groups[12].total == RealSum(results, StartedSpend))
  {
    RankedCount(results);
    KeptGroupsAreKeys(results);
    StartedTotal(results, "");
    Conservation(results);
    if |Ranked(results)| > 12 {
      var groups := Aggregated(results).value.groups;
      assert groups == groups[..12] + [groups[12]];
      SumSnoc(groups[..12], groups[12], GroupTotal);
    }
  }

  lemma KeptGroupsAreKeys(results: seq<ResultByTime>)
    requires Aggregated(results).Success?
    ensures var groups := Aggregated(results).value.groups;
      && (forall i :: 0 <= i < |groups| && i < 12 ==>
            groups[i].key in KeysIn(results) && groups[i].total == RealSum(results, StartedAmount(groups[i].key)))
      && (forall i, j :: 0 <= i < j < |groups| && j < 12 ==> groups[i].key != groups[j].key)
  {
    var ranked, groups := Ranked(results), Aggregated(results).value.groups;
    RankedGroups(results);
    KeysBeforeDiffer(results, |ranked|);
    var names := KeysBefore(ranked, |ranked|);
    forall i | 0 <= i < |groups| && i < 12
      ensures groups[i] == ranked[i] && groups[i].key == names[i] && groups[i].key in KeysIn(results)
      ensures groups[i].total == RealSum(results, StartedAmount(groups[i].key))
    {
      assert IsGroupOf(ranked[i], results);
      KeysInAreCharged(results, ranked[i].key);
      StartedTotal(results, ranked[i].key);
    }
  }

  // ----- the time axis -----

  /** How many periods before the i-th have a start. */
  ghost function Place(results: seq<ResultByTime>, i: nat): nat
    requires i <= |results|
  {
    |set j | 0 <= j < i && results[j].start.Some?|
  }

  lemma PlaceStep(results: seq<ResultByTime>, i: nat)
    requires i < |results|
    ensures Place(results, i + 1) == Place(results, i) + if results[i].start.Some? then 1 else 0
  {
    var before := set j | 0 <= j < i && results[j].start.Some?;
    var after := set j | 0 <= j < i + 1 && results[j].start.Some?;
    if results[i].start.Some? {
      assert after == before + {i};
    } else {
      assert after == before;
    }
  }

  lemma {:induction false} TimesUpTo(results: seq<ResultByTime>, i: nat)
    requires i <= |results|
    ensures |Times(results[..i])| == Place(results, i)
  {
    if i > 0 {
      TimesUpTo(results, i - 1);
      PlaceStep(results, i - 1);
      assert results[..i] == results[..i - 1] + [results[i - 1]];
      CellsSnoc(results[..i - 1], results[i - 1]);
    }
  }

  lemma {:induction false} TimesGoOn(results: seq<ResultByTime>, i: nat, n: nat)
    requires i < n <= |results| && results[i].start.Some?
    ensures Place(results, i) < |Times(results[..n])|
    ensures Times(results[..n])[Place(results, i)] == results[i].start.value
  {
    assert results[..n] == results[..n - 1] + [results[n - 1]];
    CellsSnoc(results[..n - 1], results[n - 1]);
    if i == n - 1 {
      TimesUpTo(results, i);
    } else {
      TimesGoOn(results, i, n - 1);
    }
  }

  /** The times are the starts, in order, of the periods that have one. */
  lemma TimesExact(results: seq<ResultByTime>)
    ensures |Times(results)| == Place(results, |results|)
    ensures forall i :: 0 <= i < |results| && results[i].start.Some? ==>
      Place(results, i) < |Times(results)| && Times(results)[Place(results, i)] == results[i].start.value
  {
    assert results[..|results|] == results;
    TimesUpTo(results, |results|);
    forall i | 0 <= i < |results| && results[i].start.Some?
      ensures Place(results, i) < |Times(results)| && Times(results)[Place(results, i)] == results[i].start.value
    {
      TimesGoOn(results, i, |results|);
    }
  }

  // ----- one cell -----

  lemma {:induction false} SumAtMore(cells: seq<Cell>, cs: seq<Charge>, t0: nat, key: string, t: nat)
    ensures SumAt(cells + At(cs, t0), key, t) == SumAt(cells, key, t) + if t == t0 then TotalOf(cs, key) else 0.0
  {
    if cs == [] {
      assert cells + At(cs, t0) == cells;
    } else {
      var before, c := cs[..|cs| - 1], cs[|cs| - 1];
      var all := cells + At(cs, t0);
      SumAtMore(cells, before, t0, key, t);
      assert all[..|all| - 1] == cells + At(before, t0);
    }
  }

  lemma NothingAhead(results: seq<ResultByTime>, key: string, t: nat)
    requires t >= |Times(results)|
    ensures SumAt(Cells(results), key, t) == 0.0
  {
    CellsInPeriodOrder(results);
    NoChargeNoSum(Cells(results), key, t);
  }

  lemma SumAtSnoc(before: seq<ResultByTime>, r: ResultByTime, key: string, t: nat)
    ensures SumAt(Cells(before + [r]), key, t) == SumAt(Cells(before), key, t)
      + if r.start.Some? && t == |Times(before)| then RealSum(r.groups, AmountFor(key)) else 0.0
  {
    CellsSnoc(before, r);
    SumAtMore(Cells(before), Charges(r.groups), |Times(before)|, key, t);
    PeriodTotal(r.groups, key);
    assert Cells(before) + [] == Cells(before);
  }

  lemma {:induction false} CellAmount(results: seq<ResultByTime>, i: nat, n: nat, key: string)
    requires i < n <= |results| && results[i].start.Some?
    ensures SumAt(Cells(results[..n]), key, Place(results, i)) == RealSum(results[i].groups, AmountFor(key))
  {
    var before, r := results[..n - 1], results[n - 1];
    assert results[..n] == before + [r];
    SumAtSnoc(before, r, key, Place(results, i));
    TimesUpTo(results, n - 1);
    if i == n - 1 {
      NothingAhead(before, key, Place(results, i));
    } else {
      CellAmount(results, i, n - 1, key);
      TimesGoOn(results, i, n - 1);
    }
  }

  // ----- repeats -----

  /** No two readable groups of the period have the same key. */
  ghost predicate KeysDiffer(groups: seq<Group>) {
    forall i, j :: 0 <= i < j < |groups| && Readable(groups[i]) && Readable(groups[j]) ==>
      groups[i].keys[0] != groups[j].keys[0]
  }

  ghost predicate ChargesDiffer(cs: seq<Charge>) {
    forall i, j :: 0 <= i < j < |cs| ==> cs[i].key != cs[j].key
  }

  lemma {:induction false} KeysDifferThenCharges(groups: seq<Group>)
    requires KeysDiffer(groups)
    ensures ChargesDiffer(Charges(groups))
  {
    if groups != [] {
      var before, g := groups[..|groups| - 1], groups[|groups| - 1];
      assert groups == before + [g];
      KeysDifferThenCharges(before);
      ChargesSnoc(before, g);
      if Accept(g).Some? {
        PeriodCharges(before, g.keys[0]);
        assert !NamesKey(before, g.keys[0]);
      }
    }
  }

  lemma {:induction false} NoRepeatsInCells(results: seq<ResultByTime>)
    requires forall i :: 0 <= i < |results| && results[i].start.Some? ==> KeysDiffer(results[i].groups)
    ensures NoKeyRepeats(Cells(results))
  {
    if results != [] {
      var before, r := results[..|results| - 1], results[|results| - 1];
      assert results == before + [r];
      NoRepeatsInCells(before);
      CellsInPeriodOrder(before);
      CellsSnoc(before, r);
      if r.start.Some? {
        KeysDifferThenCharges(r.groups);
      }
    }
  }

  /**
   * The dashboard reads off the response. If no two readable groups of a period share a key,
   * the series has one time per period with a start, and every group before the fold shows, at
   * that period's place, exactly what the period's groups say for its key; the total is all
   * that those periods' groups say.
   */
  lemma AggregateReadsOff(results: seq<ResultByTime>)
    requires forall i :: 0 <= i < |results| && results[i].start.Some? ==> KeysDiffer(results[i].groups)
    ensures Aggregated(results).Success?
    ensures var s := Aggregated(results).value;
      && |s.times| == Place(results, |results|) && s.total == RealSum(results, StartedSpend)
      && (forall i :: 0 <= i < |results| && results[i].start.Some? ==>
            Place(results, i) < |s.times| && s.times[Place(results, i)] == results[i].start.value)
      && forall k :: 0 <= k < |s.groups| && k < 12 ==> ReadsOff(s.groups[k], results)
  {
    NoRepeatsInCells(results);
    DenseFromSparse(results);
    TimesExact(results);
    StartedTotal(results, "");
    Conservation(results);
    var s := Aggregated(results).value;
    forall k | 0 <= k < |s.groups| && k < 12
      ensures ReadsOff(s.groups[k], results)
    {
      DenseReadsOff(s.groups[k], results);
    }
  }

  ghost predicate ReadsOff(g: GroupSeries, results: seq<ResultByTime>) {
    && |g.values| == Place(results, |results|)
    && forall i :: 0 <= i < |results| && results[i].start.Some? ==> ShowsPeriod(g, results, i)
  }

  ghost predicate ShowsPeriod(g: GroupSeries, results: seq<ResultByTime>, i: nat)
    requires i < |results|
  {
    Place(results, i) < |g.values| && g.values[Place(results, i)] == RealSum(results[i].groups, AmountFor(g.key))
  }

  lemma DenseReadsOff(g: GroupSeries, results: seq<ResultByTime>)
    requires NoKeyRepeats(Cells(results)) && IsDense(g, Cells(results), |Times(results)|)
    ensures ReadsOff(g, results)
  {
    TimesExact(results);
    assert results[..|results|] == results;
    forall i | 0 <= i < |results| && results[i].start.Some?
      ensures ShowsPeriod(g, results, i)
    {
      CellAmount(results, i, |results|, g.key);
      SumIsTheCharge(Cells(results), g.key, Place(results, i));
    }
  }

  // ----- the currency -----

  /** A group that can set the currency: readable, in a period with a start, with a unit. */
  predicate HasUnit(g: Group) {
    Readable(g) && g.metric.value.unit.Some? && g.metric.value.unit.value != ""
  }

  ghost predicate NoUnitFrom(groups: seq<Group>, j: nat) {
    forall k :: j <= k < |groups| ==> !HasUnit(groups[k])
  }

  lemma CurrencyAfter(a: seq<Charge>, b: seq<Charge>, c: Charge)
    ensures CurrencyOf(a + (b + [c])) == if c.unit != "" then c.unit else CurrencyOf(a + b)
  {
    assert a + (b + [c]) == (a + b) + [c];
    CurrencySnoc(a + b, c);
  }

  lemma GroupSetsCurrency(cs: seq<Charge>, before: seq<Group>, g: Group)
    ensures CurrencyOf(cs + Charges(before + [g]))
         == if HasUnit(g) then g.metric.value.unit.value else CurrencyOf(cs + Charges(before))
  {
    ChargesSnoc(before, g);
    if Accept(g).Some? {
      CurrencyAfter(cs, Charges(before), Accept(g).value);
    } else {
      assert Charges(before) + [] == Charges(before);
    }
  }

  lemma {:induction false} NoUnitKeepsCurrency(cs: seq<Charge>, groups: seq<Group>)
    requires NoUnitFrom(groups, 0)
    ensures CurrencyOf(cs + Charges(groups)) == CurrencyOf(cs)
  {
    if groups == [] {
      assert cs + Charges(groups) == cs;
    } else {
      var before, g := groups[..|groups| - 1], groups[|groups| - 1];
      assert groups == before + [g];
      NoUnitKeepsCurrency(cs, before);
      GroupSetsCurrency(cs, before, g);
    }
  }

  lemma {:induction false} LastUnitSetsCurrency(cs: seq<Charge>, groups: seq<Group>, j: nat)
    requires j < |groups| && HasUnit(groups[j]) && NoUnitFrom(groups, j + 1)
    ensures CurrencyOf(cs + Charges(groups)) == groups[j].metric.value.unit.value
  {
    var before, g := groups[..|groups| - 1], groups[|groups| - 1];
    assert groups == before + [g];
    GroupSetsCurrency(cs, before, g);
    if j < |before| {
      assert !HasUnit(groups[|before|]);
      LastUnitSetsCurrency(cs, before, j);
    }
  }

  lemma PeriodCurrency(cs: seq<Charge>, groups: seq<Group>)
    ensures NoUnitFrom(groups, 0) ==> CurrencyOf(cs + Charges(groups)) == CurrencyOf(cs)
    ensures forall j: nat :: j < |groups| && HasUnit(groups[j]) && NoUnitFrom(groups, j + 1) ==>
      CurrencyOf(cs + Charges(groups)) == groups[j].metric.value.unit.value
  {
    if NoUnitFrom(groups, 0) {
      NoUnitKeepsCurrency(cs, groups);
    }
    forall j: nat | j < |groups| && HasUnit(groups[j]) && NoUnitFrom(groups, j + 1)
      ensures CurrencyOf(cs + Charges(groups)) == groups[j].metric.value.unit.value
    {
      LastUnitSetsCurrency(cs, groups, j);
    }
  }

  /** From the i-th period on, no period with a start has a unit. */
  ghost predicate NoUnitAfter(results: seq<ResultByTime>, i: nat) {
    forall k :: i <= k < |results| && results[k].start.Some? ==> NoUnitFrom(results[k].groups, 0)
  }

  /** The j-th group of the i-th period is the last to name a unit. */
  ghost predicate NamesUnitLast(results: seq<ResultByTime>, i: nat, j: nat) {
    && i < |results| && results[i].start.Some? && j < |results[i].groups| && HasUnit(results[i].groups[j])
    && NoUnitFrom(results[i].groups, j + 1) && NoUnitAfter(results, i + 1)
  }

  /** The currency is the last unit named, and "USD" if there is none. */
  lemma {:induction false} CurrencyReadsOff(results: seq<ResultByTime>)
    ensures NoUnitAfter(results, 0) ==> CurrencyOf(ChargesOf(Cells(results))) == "USD"
    ensures forall i: nat, j: nat :: NamesUnitLast(results, i, j) ==>
      CurrencyOf(ChargesOf(Cells(results))) == results[i].groups[j].metric.value.unit.value
  {
    if results == [] {
      assert ChargesOf(Cells(results)) == [];
    } else {
      var before, r := results[..|results| - 1], results[|results| - 1];
      assert results == before + [r];
      CurrencyReadsOff(before);
      StartedChargesSnoc(before, r);
      PeriodCurrency(ChargesOf(Cells(before)), r.groups);
      assert ChargesOf(Cells(before)) + [] == ChargesOf(Cells(before));
      assert NoUnitAfter(results, 0) ==> NoUnitAfter(before, 0);
      assert NoUnitAfter(results, 0) ==> r.start.Some? ==> NoUnitFrom(r.groups, 0);
      forall i: nat, j: nat | NamesUnitLast(results, i, j)
        ensures CurrencyOf(ChargesOf(Cells(results))) == results[i].groups[j].metric.value.unit.value
      {
        if i < |before| {
          assert results[|before|] == r && before[i] == results[i];
          assert NamesUnitLast(before, i, j);
        }
      }
    }
  }

  // ----- the summary's fold -----

  /**
   * The totals of a window read off its responses: the keys are those of readable groups, each
   * total is what all groups say for the key, and together they are all that was said.
   */
  lemma TotalsReadOff(results: seq<ResultByTime>)
    ensures var m := TotalsMap(AllCharges(results));
      && (forall k :: k in m <==> Names(results, k))
      && (forall k :: k in m ==> m[k] == RealSum(results, PeriodAmount(k)))
      && SumOver(m.Keys, Reading(m)) == RealSum(results, PeriodSpend)
  {
    var cs := AllCharges(results);
    forall k: string
      ensures k in TotalsMap(cs) <==> Names(results, k)
      ensures k in TotalsMap(cs) ==> TotalsMap(cs)[k] == RealSum(results, PeriodAmount(k))
    {
      AllChargesName(results, k);
      KeyOrderMembers(cs, k);
      AllChargesTotal(results, k);
    }
    AllChargesTotal(results, "");
    TotalsSumUp(cs);
  }

  lemma MoverReadsOff(current: map<string, real>, results: seq<ResultByTime>, svc: string, shown: real)
    requires current == TotalsMap(AllCharges(results)) && shown == if svc in current then current[svc] else 0.0
    ensures shown == RealSum(results, PeriodAmount(svc))
  {
    TotalsReadOff(results);
    if svc !in current {
      UnnamedAddNothing(results, svc);
    }
  }

  lemma KeptMover(s: Summary, m: Mover, current: map<string, real>, previous: map<string, real>)
    requires IsSummary(s, current, previous) && m in s.topMovers
    ensures m.current == if m.service in current then current[m.service] else 0.0
    ensures m.previous == if m.service in previous then previous[m.service] else 0.0
  {
    TopMoversLead(s, current, previous);
  }

  lemma SumsReadOff(s: Summary, now: seq<ResultByTime>, before: seq<ResultByTime>)
    requires IsSummary(s, TotalsMap(AllCharges(now)), TotalsMap(AllCharges(before)))
    ensures s.monthToDate == RealSum(now, PeriodSpend) && s.prevMonthToDate == RealSum(before, PeriodSpend)
  {
    var current, previous := TotalsMap(AllCharges(now)), TotalsMap(AllCharges(before));
    var all :| IsCutFrom(s, all, current, previous);
    CutGivesSums(s, all, current, previous);
    TotalsReadOff(now);
    TotalsReadOff(before);
  }

  lemma ColumnsReadOff(s: Summary, m: Mover, now: seq<ResultByTime>, before: seq<ResultByTime>)
    requires IsSummary(s, TotalsMap(AllCharges(now)), TotalsMap(AllCharges(before))) && m in s.topMovers
    ensures m.current == RealSum(now, PeriodAmount(m.service))
    ensures m.previous == RealSum(before, PeriodAmount(m.service))
  {
    KeptMover(s, m, TotalsMap(AllCharges(now)), TotalsMap(AllCharges(before)));
    MoverReadsOff(TotalsMap(AllCharges(now)), now, m.service, m.current);
    MoverReadsOff(TotalsMap(AllCharges(before)), before, m.service, m.previous);
  }

  /** The summary read off the two windows' responses. */
  lemma SummaryReadsOff(s: Summary, now: seq<ResultByTime>, before: seq<ResultByTime>)
    requires IsSummary(s, TotalsMap(AllCharges(now)), TotalsMap(AllCharges(before)))
    ensures s.monthToDate == RealSum(now, PeriodSpend) && s.prevMonthToDate == RealSum(before, PeriodSpend)
    ensures forall m :: m in s.topMovers ==> m.current == RealSum(now, PeriodAmount(m.service))
    ensures forall m :: m in s.topMovers ==> m.previous == RealSum(before, PeriodAmount(m.service))
  {
    SumsReadOff(s, now, before);
    forall m | m in s.topMovers
      ensures m.current == RealSum(now, PeriodAmount(m.service))
      ensures m.previous == RealSum(before, PeriodAmount(m.service))
    {
      ColumnsReadOff(s, m, now, before);
    }
  }

  lemma UnnamedAddNothing(results: seq<ResultByTime>, k: string)
    requires k !in TotalsMap(AllCharges(results))
    ensures RealSum(results, PeriodAmount(k)) == 0.0
  {
    UnchargedKeyTotalsZero(AllCharges(results), k);
    AllChargesTotal(results, k);
  }

  lemma {:induction false} SumOverAdds(keys: set<string>, v: string -> real, w: string -> real, x: string, d: real)
    requires x in keys && v(x) == w(x) + d && forall k :: k in keys && k != x ==> v(k) == w(k)
    ensures SumOver(keys, v) == SumOver(keys, w) + d
  {
    SumOverPick(keys, v, x);
    SumOverPick(keys, w, x);
    SumOverSame(keys - {x}, v, w);
  }

  lemma {:induction false} SumOverSame(keys: set<string>, v: string -> real, w: string -> real)
    requires forall k :: k in keys ==> v(k) == w(k)
    ensures SumOver(keys, v) == SumOver(keys, w)
    decreases |keys|
  {
    if keys != {} {
      var x :| x in keys;
      SumOverPick(keys, v, x);
      SumOverPick(keys, w, x);
      SumOverSame(keys - {x}, v, w);
    }
  }

  lemma {:induction false} TotalsSumUp(cs: seq<Charge>)
    ensures SumOver(TotalsMap(cs).Keys, Reading(TotalsMap(cs))) == GrandTotal(cs)
  {
    if cs != [] {
      var before, c := cs[..|cs| - 1], cs[|cs| - 1];
      var m, n := TotalsMap(before), TotalsMap(cs);
      assert cs == before + [c];
      TotalsSumUp(before);
      TotalsMapSnoc(before, c);
      TotalsSnoc(before, c);
      assert n.Keys == m.Keys + {c.key};
      AbsentAddNothing(n.Keys, m);
      SumOverAdds(n.Keys, Reading(n), Reading(m), c.key, c.amount);
    } else {
      assert TotalsMap(cs).Keys == {};
    }
  }
}
