/**
 * What the aggregation loop builds: from sparse, paged charges to one row of values per key.
 * Rows are defined key by key, with no reference to the loop's index map or its order of work.
 */
module Rows {
  import opened CostTypes
  import opened Upstream
  import opened Sums

  /** A charge placed in the t-th period that has a start. */
  datatype Cell = Cell(t: nat, charge: Charge)

  /** The starts of the periods that have one. */
  function Times(results: seq<ResultByTime>): seq<string> {
    if results == [] then []
    else
      var r := results[|results| - 1];
      Times(results[..|results| - 1]) + (if r.start.Some? then [r.start.value] else [])
  }

  function At(cs: seq<Charge>, t: nat): seq<Cell> {
    seq(|cs|, i requires 0 <= i < |cs| => Cell(t, cs[i]))
  }

  /** The charges of periods that have a start, each with its period's index. */
  function Cells(results: seq<ResultByTime>): seq<Cell> {
    if results == [] then []
    else
      var before := results[..|results| - 1];
      var r := results[|results| - 1];
      Cells(before) + (if r.start.Some? then At(Charges(r.groups), |Times(before)|) else [])
  }

  function ChargesOf(cells: seq<Cell>): seq<Charge> {
    seq(|cells|, i requires 0 <= i < |cells| => cells[i].charge)
  }

  function Zeros(n: nat): seq<real> {
    seq(n, _ => 0.0)
  }

  function PadTo(row: seq<real>, n: nat): seq<real> {
    if |row| >= n then row else row + Zeros(n - |row|)
  }

  /** A row's value in a period, zero past its end. */
  function ValueAt(row: seq<real>, t: nat): real {
    if t < |row| then row[t] else 0.0
  }

  /** The row a key accumulates: zeros up to the period of each charge, then its amount appended. */
  function RawRow(cells: seq<Cell>, key: string): seq<real> {
    if cells == [] then []
    else
      var x := cells[|cells| - 1];
      var row := RawRow(cells[..|cells| - 1], key);
      if x.charge.key == key then PadTo(row, x.t) + [x.charge.amount] else row
  }

  function RawGroup(cells: seq<Cell>, key: string): GroupSeries {
    GroupSeries(key, RawRow(cells, key), TotalOf(ChargesOf(cells), key))
  }

  /** One group per key, in order of first appearance. */
  function RawGroups(cells: seq<Cell>): seq<GroupSeries> {
    var keys := KeyOrder(ChargesOf(cells));
    seq(|keys|, i requires 0 <= i < |keys| => RawGroup(cells, keys[i]))
  }

  /** The unit of the last charge that has one. */
  function CurrencyOf(cs: seq<Charge>): string {
    if cs == [] then "USD"
    else if cs[|cs| - 1].unit != "" then cs[|cs| - 1].unit
    else CurrencyOf(cs[..|cs| - 1])
  }

  // ----- one more charge -----

  lemma ChargesOfSnoc(cells: seq<Cell>, x: Cell)
    ensures ChargesOf(cells + [x]) == ChargesOf(cells) + [x.charge]
  {
  }

  lemma RawRowSnoc(cells: seq<Cell>, x: Cell, key: string)
    ensures RawRow(cells + [x], key)
         == if x.charge.key == key then PadTo(RawRow(cells, key), x.t) + [x.charge.amount] else RawRow(cells, key)
  {
    assert (cells + [x])[..|cells|] == cells;
  }

  lemma RawGroupSnoc(cells: seq<Cell>, x: Cell, key: string)
    ensures var g := RawGroup(cells, key);
      RawGroup(cells + [x], key) ==
        if x.charge.key == key
        then GroupSeries(key, PadTo(g.values, x.t) + [x.charge.amount], g.total + x.charge.amount)
        else g
  {
    RawRowSnoc(cells, x, key);
    ChargesOfSnoc(cells, x);
    TotalsSnoc(ChargesOf(cells), x.charge);
  }

  /** A charge for a known key changes that key's group alone. */
  lemma KnownKeySnoc(cells: seq<Cell>, x: Cell, idx: nat)
    requires idx < |RawGroups(cells)| && KeyOrder(ChargesOf(cells))[idx] == x.charge.key
    ensures var g := RawGroups(cells)[idx];
      RawGroups(cells + [x]) == RawGroups(cells)[idx :=
        GroupSeries(g.key, PadTo(g.values, x.t) + [x.charge.amount], g.total + x.charge.amount)]
  {
    var cs := ChargesOf(cells);
    ChargesOfSnoc(cells, x);
    TotalsSnoc(cs, x.charge);
    KeyOrderExact(cs);
    assert x.charge.key in KeyOrder(cs);
    forall i | 0 <= i < |KeyOrder(cs)|
      ensures RawGroup(cells + [x], KeyOrder(cs)[i]) ==
        if i == idx then
          var g := RawGroups(cells)[idx];
          GroupSeries(g.key, PadTo(g.values, x.t) + [x.charge.amount], g.total + x.charge.amount)
        else RawGroups(cells)[i]
    {
      RawGroupSnoc(cells, x, KeyOrder(cs)[i]);
      assert i != idx ==> KeyOrder(cs)[i] != KeyOrder(cs)[idx];
    }
  }

  /** A charge for a new key appends a group. */
  lemma NewKeySnoc(cells: seq<Cell>, x: Cell)
    requires x.charge.key !in KeyOrder(ChargesOf(cells))
    ensures RawGroups(cells + [x]) == RawGroups(cells)
      + [GroupSeries(x.charge.key, PadTo([], x.t) + [x.charge.amount], x.charge.amount)]
  {
    var cs := ChargesOf(cells);
    ChargesOfSnoc(cells, x);
    TotalsSnoc(cs, x.charge);
    UnchargedKeyTotalsZero(cs, x.charge.key);
    UnchargedKeyHasNoRow(cells, x.charge.key);
    forall i | 0 <= i <= |KeyOrder(cs)|
      ensures RawGroups(cells + [x])[i] ==
        if i < |KeyOrder(cs)| then RawGroups(cells)[i]
        else GroupSeries(x.charge.key, PadTo([], x.t) + [x.charge.amount], x.charge.amount)
    {
      RawGroupSnoc(cells, x, KeyOrder(cs + [x.charge])[i]);
    }
  }

  lemma {:induction false} UnchargedKeyHasNoRow(cells: seq<Cell>, key: string)
    requires key !in KeyOrder(ChargesOf(cells))
    ensures RawRow(cells, key) == []
  {
    if cells != [] {
      var n := |cells| - 1;
      assert cells == cells[..n] + [cells[n]];
      ChargesOfSnoc(cells[..n], cells[n]);
      TotalsSnoc(ChargesOf(cells[..n]), cells[n].charge);
      UnchargedKeyHasNoRow(cells[..n], key);
    }
  }

  lemma CellsSnoc(results: seq<ResultByTime>, r: ResultByTime)
    ensures Times(results + [r]) == Times(results) + (if r.start.Some? then [r.start.value] else [])
    ensures Cells(results + [r]) == Cells(results)
      + (if r.start.Some? then At(Charges(r.groups), |Times(results)|) else [])
  {
    assert (results + [r])[..|results|] == results;
  }

  lemma CurrencySnoc(cs: seq<Charge>, c: Charge)
    ensures CurrencyOf(cs + [c]) == if c.unit != "" then c.unit else CurrencyOf(cs)
  {
    assert (cs + [c])[..|cs|] == cs;
  }

  // ----- what a row holds -----

  /** Charges come period by period, and every period index is in range. */
  ghost predicate InPeriodOrder(cells: seq<Cell>, n: nat) {
    && (forall i :: 0 <= i < |cells| ==> cells[i].t < n)
    && (forall i, j :: 0 <= i < j < |cells| ==> cells[i].t <= cells[j].t)
  }

  lemma {:induction false} CellsInPeriodOrder(results: seq<ResultByTime>)
    ensures InPeriodOrder(Cells(results), |Times(results)|)
  {
    if results != [] {
      CellsInPeriodOrder(results[..|results| - 1]);
    }
  }

  /** No key is charged twice within one period. */
  ghost predicate NoKeyRepeats(cells: seq<Cell>) {
    forall i, j :: 0 <= i < j < |cells| && cells[i].t == cells[j].t ==> cells[i].charge.key != cells[j].charge.key
  }

  /** A key's amount in a period: its (last) charge there, or zero. */
  function ChargeAt(cells: seq<Cell>, key: string, t: nat): real {
    if cells == [] then 0.0
    else
      var x := cells[|cells| - 1];
      if x.charge.key == key && x.t == t then x.charge.amount
      else ChargeAt(cells[..|cells| - 1], key, t)
  }

  /** When no key repeats, `ChargeAt` is the one amount charged, and zero where there is none. */
  lemma {:induction false} ChargeAtIsTheCharge(cells: seq<Cell>, key: string, t: nat)
    requires NoKeyRepeats(cells)
    ensures forall i :: 0 <= i < |cells| && cells[i].t == t && cells[i].charge.key == key ==>
      ChargeAt(cells, key, t) == cells[i].charge.amount
    ensures (forall i :: 0 <= i < |cells| && cells[i].t == t ==> cells[i].charge.key != key) ==>
      ChargeAt(cells, key, t) == 0.0
  {
    if cells != [] {
      var prev := cells[..|cells| - 1];
      ChargeAtIsTheCharge(prev, key, t);
      assert forall i :: 0 <= i < |prev| ==> prev[i] == cells[i];
    }
  }

  /** Without repeats a row ends at the period of its key's last charge. */
  lemma {:induction false} RawRowEnd(cells: seq<Cell>, key: string, n: nat) returns (w: nat)
    requires InPeriodOrder(cells, n) && NoKeyRepeats(cells)
    ensures |RawRow(cells, key)| <= n
    ensures RawRow(cells, key) != [] ==>
      w < |cells| && cells[w].charge.key == key && cells[w].t == |RawRow(cells, key)| - 1
  {
    w := 0;
    if cells != [] {
      var last := |cells| - 1;
      w := RawRowEnd(cells[..last], key, n);
      if cells[last].charge.key == key {
        w := last;
      }
    }
  }

  lemma PrefixInOrder(cells: seq<Cell>, m: nat, n: nat)
    requires InPeriodOrder(cells, n) && NoKeyRepeats(cells) && m <= |cells|
    ensures InPeriodOrder(cells[..m], n) && NoKeyRepeats(cells[..m])
  {
  }

  /** Without repeats the row so far ends before the period of its key's next charge. */
  lemma RowEndsBefore(cells: seq<Cell>, n: nat)
    requires InPeriodOrder(cells, n) && NoKeyRepeats(cells) && cells != []
    ensures var last := |cells| - 1;
      |RawRow(cells[..last], cells[last].charge.key)| <= cells[last].t
  {
    var last := |cells| - 1;
    PrefixInOrder(cells, last, n);
    var w := RawRowEnd(cells[..last], cells[last].charge.key, n);
    if RawRow(cells[..last], cells[last].charge.key) != [] {
      assert cells[w] == cells[..last][w];
    }
  }

  /** Without repeats a row carries its key's amount in every period it reaches, and misses none. */
  lemma {:induction false} RawRowIsDense(cells: seq<Cell>, key: string, n: nat, t: nat)
    requires InPeriodOrder(cells, n) && NoKeyRepeats(cells)
    ensures ValueAt(RawRow(cells, key), t) == ChargeAt(cells, key, t)
  {
    if cells != [] {
      var last := |cells| - 1;
      PrefixInOrder(cells, last, n);
      RawRowIsDense(cells[..last], key, n, t);
      RowEndsBefore(cells, n);
      AppendedValue(RawRow(cells[..last], key), cells[last].t, cells[last].charge.amount, t);
    }
  }

  lemma AppendedValue(row: seq<real>, at: nat, amount: real, t: nat)
    ensures |row| <= at ==> ValueAt(PadTo(row, at) + [amount], t) == if t == at then amount else ValueAt(row, t)
  {
  }

  // ----- how long a row gets when keys do repeat -----

  /** The number of charges for a key from period t0 on. */
  function CountFrom(cells: seq<Cell>, key: string, t0: nat): nat {
    if cells == [] then 0
    else
      var x := cells[|cells| - 1];
      CountFrom(cells[..|cells| - 1], key, t0) + (if x.charge.key == key && x.t >= t0 then 1 else 0)
  }

  /** From some period on, a key has more charges than there are periods left. */
  ghost predicate Overflows(cells: seq<Cell>, key: string, n: nat) {
    exists t0: nat :: t0 <= n && CountFrom(cells, key, t0) > n - t0
  }

  lemma {:induction false} CountFromPast(cells: seq<Cell>, key: string, t0: nat)
    requires forall i :: 0 <= i < |cells| ==> cells[i].t < t0
    ensures CountFrom(cells, key, t0) == 0
  {
    if cells != [] {
      CountFromPast(cells[..|cells| - 1], key, t0);
    }
  }

  lemma CountSnoc(cells: seq<Cell>, x: Cell, key: string, t0: nat)
    ensures CountFrom(cells + [x], key, t0)
         == CountFrom(cells, key, t0) + if x.charge.key == key && x.t >= t0 then 1 else 0
  {
    assert (cells + [x])[..|cells|] == cells;
  }

  /** A row is at least as long as the charges from any period on demand. */
  lemma {:induction false} RawRowAtLeast(cells: seq<Cell>, key: string, n: nat, t: nat)
    requires InPeriodOrder(cells, n) && CountFrom(cells, key, t) > 0
    ensures |RawRow(cells, key)| >= t + CountFrom(cells, key, t)
  {
    var last := |cells| - 1;
    var x, prev := cells[last], cells[..last];
    assert cells == prev + [x];
    CountSnoc(prev, x, key, t);
    RawRowSnoc(prev, x, key);
    if t > x.t {
      CountFromPast(prev, key, t);
    }
    if CountFrom(prev, key, t) > 0 {
      RawRowAtLeast(prev, key, n, t);
    }
  }

  /** Some period's charges account for all of a row past that period. */
  ghost predicate EndsWith(cells: seq<Cell>, key: string, t0: nat) {
    CountFrom(cells, key, t0) > 0 && |RawRow(cells, key)| == t0 + CountFrom(cells, key, t0)
  }

  lemma {:induction false} RawRowLength(cells: seq<Cell>, key: string, n: nat) returns (t0: nat)
    requires InPeriodOrder(cells, n) && RawRow(cells, key) != []
    ensures t0 < n && EndsWith(cells, key, t0)
  {
    var last := |cells| - 1;
    var x, prev := cells[last], cells[..last];
    assert cells == prev + [x];
    RawRowSnoc(prev, x, key);
    if RawRow(prev, key) == [] {
      t0 := x.t;
      if CountFrom(prev, key, x.t) > 0 {
        RawRowAtLeast(prev, key, n, x.t);
      }
    } else {
      t0 := RawRowLength(prev, key, n);
      if x.charge.key == key {
        if t0 > x.t {
          CountFromPast(prev, key, t0);
        }
        if |RawRow(prev, key)| < x.t {
          t0 := x.t;
          if CountFrom(prev, key, x.t) > 0 {
            RawRowAtLeast(prev, key, n, x.t);
          }
        }
      }
    }
    CountSnoc(prev, x, key, t0);
  }

  /** A row outgrows the n periods exactly when some stretch of last periods is over-charged. */
  lemma RowOutgrowsIff(cells: seq<Cell>, key: string, n: nat)
    requires InPeriodOrder(cells, n)
    ensures |RawRow(cells, key)| > n <==> Overflows(cells, key, n)
  {
    if |RawRow(cells, key)| > n {
      var t0 := RawRowLength(cells, key, n);
      assert t0 <= n && CountFrom(cells, key, t0) > n - t0;
    }
    if Overflows(cells, key, n) {
      var t0: nat :| t0 <= n && CountFrom(cells, key, t0) > n - t0;
      RawRowAtLeast(cells, key, n, t0);
    }
  }

  /** Without repeats nothing outgrows the periods. */
  lemma NoRepeatsNoOverflow(cells: seq<Cell>, key: string, n: nat)
    requires InPeriodOrder(cells, n) && NoKeyRepeats(cells)
    ensures !Overflows(cells, key, n)
  {
    var _ := RawRowEnd(cells, key, n);
    RowOutgrowsIff(cells, key, n);
  }

  // ----- sums -----

  lemma {:induction false} ZerosSum(n: nat)
    ensures RealSum(Zeros(n), Id) == 0.0
  {
    if n > 0 {
      assert Zeros(n)[1..] == Zeros(n - 1);
      ZerosSum(n - 1);
    }
  }

  lemma PaddingKeepsSum(row: seq<real>, n: nat)
    ensures RealSum(PadTo(row, n), Id) == RealSum(row, Id)
  {
    if |row| < n {
      RealSumConcat(row, Zeros(n - |row|), Id);
      ZerosSum(n - |row|);
    }
  }

  /** A row always sums to its key's total, repeats or not. */
  lemma {:induction false} RawRowSumsToTotal(cells: seq<Cell>, key: string)
    ensures RealSum(RawRow(cells, key), Id) == TotalOf(ChargesOf(cells), key)
  {
    if cells != [] {
      var n := |cells| - 1;
      var x, prev := cells[n], cells[..n];
      assert cells == prev + [x];
      RawRowSumsToTotal(prev, key);
      RawGroupSnoc(prev, x, key);
      if x.charge.key == key {
        PaddingKeepsSum(RawRow(prev, key), x.t);
        RealSumConcat(PadTo(RawRow(prev, key), x.t), [x.charge.amount], Id);
        RealSumOne(x.charge.amount, Id);
      }
    }
  }

  function GroupTotal(g: GroupSeries): real { g.total }

  /** The groups' totals add up to every accepted amount. */
  lemma {:induction false} TotalsConserve(cells: seq<Cell>)
    ensures RealSum(RawGroups(cells), GroupTotal) == GrandTotal(ChargesOf(cells))
  {
    if cells != [] {
      var n := |cells| - 1;
      var x, prev := cells[n], cells[..n];
      assert cells == prev + [x];
      TotalsConserve(prev);
      ChargesOfSnoc(prev, x);
      TotalsSnoc(ChargesOf(prev), x.charge);
      var gs, keys := RawGroups(prev), KeyOrder(ChargesOf(prev));
      if x.charge.key in keys {
        var idx :| 0 <= idx < |keys| && keys[idx] == x.charge.key;
        KnownKeySnoc(prev, x, idx);
        RealSumUpdate(gs, GroupTotal, idx, RawGroups(cells)[idx]);
      } else {
        NewKeySnoc(prev, x);
        RealSumConcat(gs, [RawGroups(cells)[|gs|]], GroupTotal);
        RealSumOne(RawGroups(cells)[|gs|], GroupTotal);
      }
    }
  }

  lemma RealSumUpdate<T>(s: seq<T>, w: T -> real, i: nat, x: T)
    requires i < |s|
    ensures RealSum(s[i := x], w) == RealSum(s, w) - w(s[i]) + w(x)
  {
    var before, after := s[..i], s[i + 1..];
    assert s == before + ([s[i]] + after) && s[i := x] == before + ([x] + after);
    RealSumConcat(before, [s[i]] + after, w);
    RealSumConcat(before, [x] + after, w);
    RealSumCons(s[i], after, w);
    RealSumCons(x, after, w);
  }
}
