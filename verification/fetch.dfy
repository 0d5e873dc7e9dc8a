/** Following page tokens, and the two ways the service folds the pages it gets. */
module Fetch {
  import opened Wrappers
  import opened CostTypes
  import opened Upstream
  import opened Rows
  import opened Aggregate
  import opened AggregateLaws

  /** The pagination loop of the cost query. */
  method FetchPages(up: Pages) returns (r: Result<seq<ResultByTime>, string>)
    ensures r == AllResults(up)
    ensures forall msg :: r == Failure(msg) <==> FailsWith(up, msg)
    ensures r.Success? <==> NeverFails(up)
  {
    FailureIsPassedOn(up);
    var results: seq<ResultByTime> := [];
    var page := up;
    assert forall more: seq<ResultByTime> :: [] + more == more;
    while true
      invariant AllResults(up) == match AllResults(page)
        case Failure(msg) => Failure(msg)
        case Success(more) => Success(results + more)
      decreases page
    {
      match page
      case Fails(msg) =>
        return Failure(msg);
      case Page(more, token, next) =>
        ghost var before := results;
        results := results + more;
        if token.None? || token.value == "" {
          return Success(results);
        }
        assert forall rest :: before + (more + rest) == results + rest;
        page := next;
    }
  }

  /** The whole cost fetch: an upstream failure passes through, anything else is aggregated. */
  method FetchCosts(up: Pages) returns (r: Result<Series, string>)
    ensures r == match AllResults(up)
      case Failure(msg) => Failure(msg)
      case Success(results) => Aggregated(results)
    ensures forall msg :: FailsWith(up, msg) ==> r == Failure(msg)
  {
    var results := FetchPages(up);
    if results.Failure? {
      return Failure(results.error);
    }
    r := AggregateResults(results.value);
  }

  /** Total per key, as a map. */
  function TotalsMap(cs: seq<Charge>): map<string, real> {
    map k | k in KeyOrder(cs) :: TotalOf(cs, k)
  }

  lemma TotalsMapSnoc(cs: seq<Charge>, c: Charge)
    ensures var m := TotalsMap(cs);
      TotalsMap(cs + [c]) == m[c.key := (if c.key in m then m[c.key] else 0.0) + c.amount]
  {
    TotalsSnoc(cs, c);
    if c.key !in KeyOrder(cs) {
      UnchargedKeyTotalsZero(cs, c.key);
    }
  }

  /** The charges so far, with those of a group added if it carries one. */
  function WithGroup(cs: seq<Charge>, g: Group): seq<Charge> {
    if Accept(g).Some? then cs + [Accept(g).value] else cs
  }

  lemma NextGroup(cs: seq<Charge>, groups: seq<Group>, j: nat)
    requires j < |groups|
    ensures cs + Charges(groups[..j + 1]) == WithGroup(cs + Charges(groups[..j]), groups[j])
  {
    assert groups[..j + 1] == groups[..j] + [groups[j]];
    ChargesSnoc(groups[..j], groups[j]);
  }

  method AddGroup(totals: map<string, real>, g: Group, ghost cs: seq<Charge>) returns (totals': map<string, real>)
    requires totals == TotalsMap(cs)
    ensures totals' == TotalsMap(WithGroup(cs, g))
  {
    totals' := totals;
    if |g.keys| == 0 {
      return;
    }
    if g.metric.Some? && g.metric.value.amount.Amount? {
      var key := g.keys[0];
      TotalsMapSnoc(cs, Accept(g).value);
      totals' := totals'[key := (if key in totals' then totals'[key] else 0.0) + g.metric.value.amount.v];
    }
  }

  /** Add one period's charges to the running totals; the period's start is not looked at. */
  method AddPeriod(totals: map<string, real>, groups: seq<Group>, ghost cs: seq<Charge>)
    returns (totals': map<string, real>)
    requires totals == TotalsMap(cs)
    ensures totals' == TotalsMap(cs + Charges(groups))
  {
    totals' := totals;
    ghost var all := cs;
    for j := 0 to |groups|
      invariant all == cs + Charges(groups[..j]) && totals' == TotalsMap(all)
    {
      NextGroup(cs, groups, j);
      totals' := AddGroup(totals', groups[j], all);
      all := WithGroup(all, groups[j]);
    }
    assert groups[..|groups|] == groups;
  }

  method AddPage(totals: map<string, real>, results: seq<ResultByTime>, ghost cs: seq<Charge>)
    returns (totals': map<string, real>)
    requires totals == TotalsMap(cs)
    ensures totals' == TotalsMap(cs + AllCharges(results))
  {
    totals' := totals;
    assert cs + AllCharges(results[..0]) == cs;
    for i := 0 to |results|
      invariant totals' == TotalsMap(cs + AllCharges(results[..i]))
    {
      totals' := AddPeriod(totals', results[i].groups, cs + AllCharges(results[..i]));
      assert results[..i + 1] == results[..i] + [results[i]];
      AllChargesSnoc(results[..i], results[i]);
      assert cs + AllCharges(results[..i + 1]) == (cs + AllCharges(results[..i])) + Charges(results[i].groups);
    }
    assert results[..|results|] == results;
  }

  /** Totals per service over all pages, folded page by page as they arrive. */
  method ByService(up: Pages) returns (r: Result<map<string, real>, string>)
    ensures r == match AllResults(up)
      case Failure(msg) => Failure(msg)
      case Success(results) => Success(TotalsMap(AllCharges(results)))
    ensures forall msg :: r == Failure(msg) <==> FailsWith(up, msg)
    ensures r.Success? <==> NeverFails(up)
  {
    FailureIsPassedOn(up);
    var totals: map<string, real> := map[];
    var page := up;
    ghost var seen: seq<ResultByTime> := [];
    assert forall more: seq<ResultByTime> :: [] + more == more;
    while true
      invariant totals == TotalsMap(AllCharges(seen))
      invariant AllResults(up) == match AllResults(page)
        case Failure(msg) => Failure(msg)
        case Success(more) => Success(seen + more)
      decreases page
    {
      match page
      case Fails(msg) =>
        return Failure(msg);
      case Page(more, token, next) =>
        totals := AddPage(totals, more, AllCharges(seen));
        AllChargesConcat(seen, more);
        ghost var before := seen;
        seen := seen + more;
        if token.None? || token.value == "" {
          return Success(totals);
        }
        assert forall rest :: before + (more + rest) == seen + rest;
        page := next;
    }
  }

  // ----- page breaks do not matter -----

  function Flatten(chunks: seq<seq<ResultByTime>>): seq<ResultByTime> {
    if chunks == [] then [] else chunks[0] + Flatten(chunks[1..])
  }

  /** Pages with tokens of their own, and after them whatever comes. */
  function Leading(chunks: seq<seq<ResultByTime>>, tokens: seq<string>, rest: Pages): Pages
    requires |tokens| == |chunks|
  {
    if chunks == [] then rest else Page(chunks[0], Some(tokens[0]), Leading(chunks[1..], tokens[1..], rest))
  }

  /**
   * A call that fails, the first or any later one, makes the whole fetch fail with its message,
   * whatever the pages before it held: nothing of them is returned.
   */
  lemma {:induction false} AnyFailingPageFails(chunks: seq<seq<ResultByTime>>, tokens: seq<string>, msg: string)
    requires |tokens| == |chunks| && "" !in tokens
    ensures AllResults(Leading(chunks, tokens, Fails(msg))) == Failure(msg)
    ensures FailsWith(Leading(chunks, tokens, Fails(msg)), msg)
  {
    if chunks != [] {
      AnyFailingPageFails(chunks[1..], tokens[1..], msg);
    }
  }

  /** And a fetch only fails that way. */
  lemma {:induction false} OnlyAFailingPageFails(up: Pages, msg: string)
    returns (chunks: seq<seq<ResultByTime>>, tokens: seq<string>)
    requires AllResults(up) == Failure(msg)
    ensures |tokens| == |chunks| && "" !in tokens && up == Leading(chunks, tokens, Fails(msg))
  {
    match up
    case Fails(_) => chunks, tokens := [], [];
    case Page(results, token, next) =>
      var more, others := OnlyAFailingPageFails(next, msg);
      chunks, tokens := [results] + more, [token.value] + others;
  }

  /**
   * An upstream that serves the chunks one page each: every page but the last carries a token
   * of its own, and the last one may carry none or an empty one.
   */
  function Paged(chunks: seq<seq<ResultByTime>>, tokens: seq<string>, last: Option<string>, rest: Pages): Pages
    requires chunks != [] && |tokens| == |chunks| - 1
  {
    if |chunks| == 1 then Page(chunks[0], last, rest)
    else Page(chunks[0], Some(tokens[0]), Paged(chunks[1..], tokens[1..], last, rest))
  }

  /** Wherever the pages break and whatever the tokens are, the service sees the same results. */
  lemma {:induction false} PageBreaksDoNotMatter(chunks: seq<seq<ResultByTime>>, tokens: seq<string>,
                                                 last: Option<string>, rest: Pages)
    requires chunks != [] && |tokens| == |chunks| - 1
    requires "" !in tokens && (last == None || last == Some(""))
    ensures AllResults(Paged(chunks, tokens, last, rest)) == Success(Flatten(chunks))
  {
    if |chunks| == 1 {
      assert chunks[0] + Flatten(chunks[1..]) == chunks[0];
    } else {
      PageBreaksDoNotMatter(chunks[1..], tokens[1..], last, rest);
    }
  }

  // ----- the two routes agree -----

  lemma ChargesOfMore(cells: seq<Cell>, cs: seq<Charge>, t: nat)
    ensures ChargesOf(cells + At(cs, t)) == ChargesOf(cells) + cs
  {
  }

  lemma {:induction false} CellsCarryAllCharges(results: seq<ResultByTime>)
    requires forall i :: 0 <= i < |results| ==> results[i].start.Some?
    ensures ChargesOf(Cells(results)) == AllCharges(results)
  {
    if results != [] {
      var before, r := results[..|results| - 1], results[|results| - 1];
      CellsCarryAllCharges(before);
      ChargesOfMore(Cells(before), Charges(r.groups), |Times(before)|);
    }
  }

  /**
   * On the same pages, with every period's start present, the per-service fold and the
   * aggregation (before its cut) have the same keys and the same total for each.
   */
  lemma RoutesAgree(results: seq<ResultByTime>)
    requires forall i :: 0 <= i < |results| ==> results[i].start.Some?
    ensures var totals, ranked := TotalsMap(AllCharges(results)), Ranked(results);
      && (forall i :: 0 <= i < |ranked| ==> ranked[i].key in totals && totals[ranked[i].key] == ranked[i].total)
      && (forall k :: k in totals ==> exists i :: 0 <= i < |ranked| && ranked[i].key == k)
      && |ranked| == |totals|
  {
    CellsCarryAllCharges(results);
    RankedGroups(results);
    var cs, ranked := AllCharges(results), Ranked(results);
    forall i | 0 <= i < |ranked|
      ensures ranked[i].key in TotalsMap(cs) && TotalsMap(cs)[ranked[i].key] == ranked[i].total
    {
      assert IsGroupOf(ranked[i], results);
    }
    forall k | k in TotalsMap(cs)
      ensures exists i :: 0 <= i < |ranked| && ranked[i].key == k
    {
      var i := RankedCoversKeys(results, k);
    }
    KeyOrderExact(cs);
    DistinctCount(KeyOrder(cs), TotalsMap(cs));
  }

  lemma {:induction false} DistinctCount(keys: seq<string>, m: map<string, real>)
    requires forall i, j :: 0 <= i < j < |keys| ==> keys[i] != keys[j]
    requires forall k :: k in m <==> k in keys
    ensures |m| == |keys|
  {
    if keys == [] {
      assert m == map[];
    } else {
      var rest := m - {keys[0]};
      assert forall k :: k in keys <==> k == keys[0] || k in keys[1..];
      assert m == rest[keys[0] := m[keys[0]]];
      DistinctCount(keys[1..], rest);
    }
  }
}
