/** What the aggregated series means for its reader: dense, conserved, ranked and cut. */
module AggregateLaws {
  import opened CostTypes
  import opened Upstream
  import opened Rows
  import opened Ranking
  import opened Aggregate
  import opened Sums

  /** The key is charged in some period, and `g` is its zero-filled row and total. */
  ghost predicate IsGroupOf(g: GroupSeries, results: seq<ResultByTime>) {
    var cells := Cells(results);
    && g.key in KeyOrder(ChargesOf(cells))
    && g.values == PadTo(RawRow(cells, g.key), |Times(results)|)
    && g.total == TotalOf(ChargesOf(cells), g.key)
  }

  lemma RankedGroups(results: seq<ResultByTime>)
    ensures var filled := ZeroFilled(RawGroups(Cells(results)), |Times(results)|);
      && IsStableRanking(filled, Ranked(results))
      && multiset(Ranked(results)) == multiset(filled) && |Ranked(results)| == |filled|
    ensures forall i :: 0 <= i < |Ranked(results)| ==> IsGroupOf(Ranked(results)[i], results)
  {
    var filled := ZeroFilled(RawGroups(Cells(results)), |Times(results)|);
    StableSortIsStableRanking(filled);
    forall i | 0 <= i < |Ranked(results)|
      ensures IsGroupOf(Ranked(results)[i], results)
    {
      assert Ranked(results)[i] in filled;
    }
  }

  /**
   * Ranking and cut. Before the cut the groups are one per charged key in the unique stable
   * descending order of totals; the first twelve are returned as they stand, no folded group
   * has a larger total than a kept one, and "Other" is appended, last, iff there were more
   * than twelve. Twelve or fewer come back as a permutation.
   */
  lemma RankingAndCut(results: seq<ResultByTime>)
    requires Aggregated(results).Success?
    ensures var ranked, out := Ranked(results), Aggregated(results).value.groups;
      var filled := ZeroFilled(RawGroups(Cells(results)), |Times(results)|);
      && IsStableRanking(filled, ranked)
      && (forall other :: IsStableRanking(filled, other) ==> other == ranked)
      && (|ranked| <= 12 ==> out == ranked && multiset(out) == multiset(filled))
      && (|ranked| > 12 ==>
            && |out| == 13 && out[..12] == ranked[..12]
            && out[12].key == "Other"
            && forall i, j :: 0 <= i < 12 <= j < |ranked| ==> out[i].total >= ranked[j].total)
  {
    var ranked, out := Ranked(results), Aggregated(results).value.groups;
    var filled := ZeroFilled(RawGroups(Cells(results)), |Times(results)|);
    RankedGroups(results);
    forall other | IsStableRanking(filled, other)
      ensures other == ranked
    {
      StableRankingIsUnique(filled, other, ranked);
    }
    if |ranked| > 12 {
      forall i, j | 0 <= i < 12 <= j < |ranked|
        ensures out[i].total >= ranked[j].total
      {
        assert out[i] == ranked[i];
      }
    }
  }

  /** Every charged key has a group in the ranking. */
  lemma RankedCoversKeys(results: seq<ResultByTime>, k: string) returns (i: nat)
    requires k in KeyOrder(ChargesOf(Cells(results)))
    ensures i < |Ranked(results)| && Ranked(results)[i].key == k
  {
    RankedGroups(results);
    var keys := KeyOrder(ChargesOf(Cells(results)));
    var filled := ZeroFilled(RawGroups(Cells(results)), |Times(results)|);
    var j :| 0 <= j < |keys| && keys[j] == k;
    assert filled[j].key == k && filled[j] in multiset(filled);
    assert filled[j] in multiset(Ranked(results));
    i :| 0 <= i < |Ranked(results)| && Ranked(results)[i] == filled[j];
  }

  /** A group past the cut whose row has outgrown the time axis is what makes the fold panic. */
  lemma PanicsByRank(results: seq<ResultByTime>)
    ensures Aggregated(results).Failure? <==>
      exists i :: 12 <= i < |Ranked(results)|
        && Overflows(Cells(results), Ranked(results)[i].key, |Times(results)|)
  {
    var cells, ranked, n := Cells(results), Ranked(results), |Times(results)|;
    RankedGroups(results);
    CellsInPeriodOrder(results);
    forall i | 0 <= i < |ranked|
      ensures |ranked[i].values| > n <==> Overflows(cells, ranked[i].key, n)
    {
      assert IsGroupOf(ranked[i], results);
      RowOutgrowsIff(cells, ranked[i].key, n);
    }
  }

  /** As long as the time axis, with the key's charge in each period. */
  ghost predicate IsDense(g: GroupSeries, cells: seq<Cell>, n: nat) {
    |g.values| == n && forall t :: 0 <= t < n ==> g.values[t] == ChargeAt(cells, g.key, t)
  }

  lemma GroupIsDense(g: GroupSeries, results: seq<ResultByTime>)
    requires NoKeyRepeats(Cells(results)) && IsGroupOf(g, results)
    ensures IsDense(g, Cells(results), |Times(results)|)
  {
    var cells, n := Cells(results), |Times(results)|;
    CellsInPeriodOrder(results);
    var _ := RawRowEnd(cells, g.key, n);
    forall t | 0 <= t < n
      ensures g.values[t] == ChargeAt(cells, g.key, t)
    {
      RawRowIsDense(cells, g.key, n, t);
    }
  }

  /** Without repeats within a period, aggregation succeeds and every row lines up with the times. */
  lemma DenseRows(results: seq<ResultByTime>)
    requires NoKeyRepeats(Cells(results))
    ensures Aggregated(results).Success?
    ensures forall i :: 0 <= i < |Ranked(results)| ==> IsDense(Ranked(results)[i], Cells(results), |Times(results)|)
  {
    RankedGroups(results);
    forall i | 0 <= i < |Ranked(results)|
      ensures IsDense(Ranked(results)[i], Cells(results), |Times(results)|)
    {
      GroupIsDense(Ranked(results)[i], results);
    }
  }

  /** A key's charge in period t, as a weight over groups. */
  ghost function ChargeIn(cells: seq<Cell>, t: nat): GroupSeries -> real {
    (g: GroupSeries) => ChargeAt(cells, g.key, t)
  }

  lemma FoldedColumn(rest: seq<GroupSeries>, cells: seq<Cell>, n: nat, t: nat)
    requires t < n && forall i :: 0 <= i < |rest| ==> IsDense(rest[i], cells, n)
    ensures ColumnSums(rest, n)[t] == RealSum(rest, ChargeIn(cells, t))
  {
    RealSumSame(rest, Column(t), ChargeIn(cells, t));
  }

  /** "Other" at every period is the sum of the folded keys' charges there. */
  ghost predicate IsFoldOf(other: GroupSeries, rest: seq<GroupSeries>, cells: seq<Cell>, n: nat) {
    |other.values| == n && forall t :: 0 <= t < n ==> other.values[t] == RealSum(rest, ChargeIn(cells, t))
  }

  lemma OtherIsFold(ranked: seq<GroupSeries>, cells: seq<Cell>, n: nat)
    requires |ranked| > 12 && forall i :: 0 <= i < |ranked| ==> IsDense(ranked[i], cells, n)
    ensures IsFoldOf(Folded(ranked, n)[12], ranked[12..], cells, n)
  {
    var rest := ranked[12..];
    forall t | 0 <= t < n
      ensures ColumnSums(rest, n)[t] == RealSum(rest, ChargeIn(cells, t))
    {
      FoldedColumn(rest, cells, n, t);
    }
  }

  /**
   * Dense from sparse. When no key repeats within a period, every returned row is as long as
   * the time axis; a kept row's value at t is its key's charge in period t, or zero; and
   * "Other" at t is the sum of the folded keys' charges in period t.
   */
  lemma DenseFromSparse(results: seq<ResultByTime>)
    requires NoKeyRepeats(Cells(results))
    ensures Aggregated(results).Success? && Aggregated(results).value.times == Times(results)
    ensures var cells, ranked, n := Cells(results), Ranked(results), |Times(results)|;
      var groups := Aggregated(results).value.groups;
      && (forall i :: 0 <= i < |groups| && i < 12 ==> IsDense(groups[i], cells, n))
      && (|ranked| <= 12 ==> |groups| == |ranked|)
      && (|ranked| > 12 ==>
            |groups| == 13 && IsFoldOf(groups[12], ranked[12..], cells, n))
  {
    DenseRows(results);
    if |Ranked(results)| > 12 {
      OtherIsFold(Ranked(results), Cells(results), |Times(results)|);
    }
  }

  // ----- conservation -----

  function RowSum(g: GroupSeries): real {
    RealSum(g.values, Id)
  }

  /** Folding keeps any sum that the "Other" group carries over from the groups it replaces. */
  lemma FoldKeepsSum(ranked: seq<GroupSeries>, n: nat, w: GroupSeries -> real)
    requires |ranked| > 12 ==>
      w(Folded(ranked, n)[12]) == RealSum(ranked[12..], w)
    ensures RealSum(Folded(ranked, n), w) == RealSum(ranked, w)
  {
    if |ranked| > 12 {
      ReplaceKeepsSum(ranked[..12], ranked[12..], Folded(ranked, n)[12], w);
      assert ranked == ranked[..12] + ranked[12..];
    }
  }

  lemma ReplaceKeepsSum(kept: seq<GroupSeries>, rest: seq<GroupSeries>, other: GroupSeries, w: GroupSeries -> real)
    requires w(other) == RealSum(rest, w)
    ensures RealSum(kept + [other], w) == RealSum(kept + rest, w)
  {
    RealSumConcat(kept, rest, w);
    RealSumConcat(kept, [other], w);
    RealSumOne(other, w);
  }

  /** Adding up columns and adding up rows come to the same. */
  lemma {:induction false} ColumnsSumToRows(gs: seq<GroupSeries>, n: nat)
    requires forall i :: 0 <= i < |gs| ==> |gs[i].values| <= n
    ensures RealSum(ColumnSums(gs, n), Id) == RealSum(gs, RowSum)
  {
    if gs == [] {
      assert ColumnSums(gs, n) == Zeros(n);
      ZerosSum(n);
    } else {
      ColumnsSumToRows(gs[1..], n);
      PointwiseSum(ColumnSums(gs, n), PadTo(gs[0].values, n), ColumnSums(gs[1..], n));
      PaddingKeepsSum(gs[0].values, n);
    }
  }

  lemma {:induction false} PointwiseSum(sum: seq<real>, a: seq<real>, b: seq<real>)
    requires |sum| == |a| == |b|
    requires forall i :: 0 <= i < |sum| ==> sum[i] == a[i] + b[i]
    ensures RealSum(sum, Id) == RealSum(a, Id) + RealSum(b, Id)
  {
    if sum != [] {
      PointwiseSum(sum[1..], a[1..], b[1..]);
    }
  }

  /** Zero-filling changes no sum that zeros do not change. */
  lemma {:induction false} FillKeepsSum(gs: seq<GroupSeries>, n: nat, w: GroupSeries -> real)
    requires forall g: GroupSeries :: w(g.(values := PadTo(g.values, n))) == w(g)
    ensures RealSum(ZeroFilled(gs, n), w) == RealSum(gs, w)
  {
    if gs != [] {
      assert ZeroFilled(gs, n)[1..] == ZeroFilled(gs[1..], n);
      FillKeepsSum(gs[1..], n, w);
    }
  }

  lemma RankedKeepsSum(results: seq<ResultByTime>, w: GroupSeries -> real)
    requires forall g: GroupSeries :: w(g.(values := PadTo(g.values, |Times(results)|))) == w(g)
    ensures RealSum(Ranked(results), w) == RealSum(RawGroups(Cells(results)), w)
  {
    var n := |Times(results)|;
    StableSortKeepsSum(ZeroFilled(RawGroups(Cells(results)), n), w);
    FillKeepsSum(RawGroups(Cells(results)), n, w);
  }

  lemma RowSumsAreTotals(results: seq<ResultByTime>)
    ensures RealSum(RawGroups(Cells(results)), RowSum) == RealSum(RawGroups(Cells(results)), GroupTotal)
  {
    var cells := Cells(results);
    var gs := RawGroups(cells);
    forall i | 0 <= i < |gs|
      ensures RowSum(gs[i]) == GroupTotal(gs[i])
    {
      RawRowSumsToTotal(cells, KeyOrder(ChargesOf(cells))[i]);
    }
    RealSumSame(gs, RowSum, GroupTotal);
  }

  /**
   * Conservation. The series total equals the sum of every accepted amount, the sum of the
   * returned group totals and the sum of all returned cells, and the sort and the fold leave
   * every period's column sum as it was. This needs no assumption about repeats.
   */
  lemma Conservation(results: seq<ResultByTime>)
    requires Aggregated(results).Success?
    ensures var s, cells := Aggregated(results).value, Cells(results);
      && s.total == GrandTotal(ChargesOf(cells))
      && s.total == RealSum(s.groups, GroupTotal)
      && s.total == RealSum(s.groups, RowSum)
      && forall t: nat :: RealSum(s.groups, Column(t)) == RealSum(RawGroups(cells), Column(t))
  {
    var cells, ranked, n := Cells(results), Ranked(results), |Times(results)|;
    TotalsConserve(cells);
    RankedKeepsSum(results, GroupTotal);
    FoldKeepsSum(ranked, n, GroupTotal);
    RowSumConserved(results);
    forall t: nat
      ensures RealSum(Folded(ranked, n), Column(t)) == RealSum(RawGroups(cells), Column(t))
    {
      RankedKeepsSum(results, Column(t));
      ColumnConserved(ranked, n, t);
    }
  }

  lemma RowSumConserved(results: seq<ResultByTime>)
    requires Aggregated(results).Success?
    ensures RealSum(Aggregated(results).value.groups, RowSum) == RealSum(RawGroups(Cells(results)), GroupTotal)
  {
    var ranked, n := Ranked(results), |Times(results)|;
    forall g: GroupSeries
      ensures RowSum(g.(values := PadTo(g.values, n))) == RowSum(g)
    {
      PaddingKeepsSum(g.values, n);
    }
    RankedKeepsSum(results, RowSum);
    if |ranked| > 12 {
      ColumnsSumToRows(ranked[12..], n);
    }
    FoldKeepsSum(ranked, n, RowSum);
    RowSumsAreTotals(results);
  }

  lemma ColumnConserved(ranked: seq<GroupSeries>, n: nat, t: nat)
    requires FoldFits(ranked, n)
    ensures RealSum(Folded(ranked, n), Column(t)) == RealSum(ranked, Column(t))
  {
    if |ranked| > 12 && t >= n {
      NoColumnPast(ranked[12..], n, t);
    }
    FoldKeepsSum(ranked, n, Column(t));
  }

  lemma {:induction false} NoColumnPast(gs: seq<GroupSeries>, n: nat, t: nat)
    requires t >= n && forall i :: 0 <= i < |gs| ==> |gs[i].values| <= n
    ensures RealSum(gs, Column(t)) == 0.0
  {
    if gs != [] {
      NoColumnPast(gs[1..], n, t);
    }
  }
}
