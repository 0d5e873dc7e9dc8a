/** The Cost Explorer responses the service reads, and the charges it accepts from them. */
module Upstream {
  import opened Wrappers

  /** A metric's amount: absent, not a number, or the number it parses to (kept exact). */
  datatype Amount = NoAmount | BadAmount | Amount(v: real)

  datatype Metric = Metric(amount: Amount, unit: Option<string>)

  /** A group, with its UnblendedCost metric if it has one. */
  datatype Group = Group(keys: seq<string>, metric: Option<Metric>)

  /** A period, with its start if the response names one. */
  datatype ResultByTime = ResultByTime(start: Option<string>, groups: seq<Group>)

  /** The pages an upstream would answer one query with. */
  datatype Pages = Fails(msg: string) | Page(results: seq<ResultByTime>, token: Option<string>, next: Pages)

  /** An amount counted under a key; `unit` is "" when the metric has none. */
  datatype Charge = Charge(key: string, amount: real, unit: string)

  function Accept(g: Group): Option<Charge> {
    if |g.keys| == 0 || g.metric.None? || !g.metric.value.amount.Amount? then None
    else
      var m := g.metric.value;
      Some(Charge(g.keys[0], m.amount.v, if m.unit.Some? then m.unit.value else ""))
  }

  /** The charges of one period, in order. */
  function Charges(groups: seq<Group>): seq<Charge> {
    if groups == [] then []
    else
      var last := Accept(groups[|groups| - 1]);
      Charges(groups[..|groups| - 1]) + (if last.Some? then [last.value] else [])
  }

  /** Every charge of every period, whether or not the period has a start. */
  function AllCharges(results: seq<ResultByTime>): seq<Charge> {
    if results == [] then []
    else AllCharges(results[..|results| - 1]) + Charges(results[|results| - 1].groups)
  }

  /** What following the page tokens yields: the first failure, or all the pages' results in order. */
  function AllResults(up: Pages): Result<seq<ResultByTime>, string> {
    match up
    case Fails(msg) => Failure(msg)
    case Page(results, token, next) =>
      if token.None? || token.value == "" then Success(results)
      else
        match AllResults(next)
        case Failure(msg) => Failure(msg)
        case Success(more) => Success(results + more)
  }

  /** The call that following the tokens ends in fails with this message. */
  predicate FailsWith(up: Pages, msg: string) {
    match up
    case Fails(m) => m == msg
    case Page(_, token, next) => token.Some? && token.value != "" && FailsWith(next, msg)
  }

  predicate NeverFails(up: Pages) {
    match up
    case Fails(_) => false
    case Page(_, token, next) => token.None? || token.value == "" || NeverFails(next)
  }

  /** The only failure there is is the one met, and if none is met the pages are returned. */
  lemma {:induction false} FailureIsPassedOn(up: Pages)
    ensures forall msg :: AllResults(up) == Failure(msg) <==> FailsWith(up, msg)
    ensures AllResults(up).Success? <==> NeverFails(up)
  {
    if up.Page? {
      FailureIsPassedOn(up.next);
    }
  }

  lemma ChargesSnoc(groups: seq<Group>, g: Group)
    ensures Charges(groups + [g]) == Charges(groups) + (if Accept(g).Some? then [Accept(g).value] else [])
  {
    assert (groups + [g])[..|groups|] == groups;
  }

  lemma AllChargesSnoc(results: seq<ResultByTime>, r: ResultByTime)
    ensures AllCharges(results + [r]) == AllCharges(results) + Charges(r.groups)
  {
    assert (results + [r])[..|results|] == results;
  }

  lemma {:induction false} AllChargesConcat(a: seq<ResultByTime>, b: seq<ResultByTime>)
    ensures AllCharges(a + b) == AllCharges(a) + AllCharges(b)
  {
    if b == [] {
      assert a + b == a;
    } else {
      var n := |b| - 1;
      assert a + b == (a + b[..n]) + [b[n]];
      assert b == b[..n] + [b[n]];
      AllChargesConcat(a, b[..n]);
      AllChargesSnoc(a + b[..n], b[n]);
      AllChargesSnoc(b[..n], b[n]);
    }
  }

  // ----- totals per key -----

  /** The distinct keys in order of first appearance. */
  function KeyOrder(cs: seq<Charge>): seq<string> {
    if cs == [] then []
    else
      var before := KeyOrder(cs[..|cs| - 1]);
      var k := cs[|cs| - 1].key;
      if k in before then before else before + [k]
  }

  function TotalOf(cs: seq<Charge>, key: string): real {
    if cs == [] then 0.0
    else
      var c := cs[|cs| - 1];
      TotalOf(cs[..|cs| - 1], key) + (if c.key == key then c.amount else 0.0)
  }

  /** The sum of all amounts, whatever their keys. */
  function GrandTotal(cs: seq<Charge>): real {
    if cs == [] then 0.0 else GrandTotal(cs[..|cs| - 1]) + cs[|cs| - 1].amount
  }

  lemma TotalsSnoc(cs: seq<Charge>, c: Charge)
    ensures KeyOrder(cs + [c]) == (if c.key in KeyOrder(cs) then KeyOrder(cs) else KeyOrder(cs) + [c.key])
    ensures forall k :: TotalOf(cs + [c], k) == TotalOf(cs, k) + (if c.key == k then c.amount else 0.0)
    ensures GrandTotal(cs + [c]) == GrandTotal(cs) + c.amount
  {
    assert (cs + [c])[..|cs|] == cs;
  }

  ghost predicate Charged(cs: seq<Charge>, k: string) {
    exists i :: 0 <= i < |cs| && cs[i].key == k
  }

  lemma ChargedSnoc(cs: seq<Charge>, c: Charge, k: string)
    ensures Charged(cs + [c], k) <==> Charged(cs, k) || c.key == k
  {
    if Charged(cs, k) {
      var i :| 0 <= i < |cs| && cs[i].key == k;
      assert (cs + [c])[i].key == k;
    }
    if c.key == k {
      assert (cs + [c])[|cs|].key == k;
    }
  }

  lemma {:induction false} KeyOrderMembers(cs: seq<Charge>, k: string)
    ensures k in KeyOrder(cs) <==> Charged(cs, k)
  {
    if cs != [] {
      var n := |cs| - 1;
      assert cs == cs[..n] + [cs[n]];
      KeyOrderMembers(cs[..n], k);
      ChargedSnoc(cs[..n], cs[n], k);
    }
  }

  lemma {:induction false} KeyOrderDiffers(cs: seq<Charge>)
    ensures forall i, j :: 0 <= i < j < |KeyOrder(cs)| ==> KeyOrder(cs)[i] != KeyOrder(cs)[j]
  {
    if cs != [] {
      KeyOrderDiffers(cs[..|cs| - 1]);
    }
  }

  /** The key order lists exactly the keys charged, each once. */
  lemma KeyOrderExact(cs: seq<Charge>)
    ensures forall i, j :: 0 <= i < j < |KeyOrder(cs)| ==> KeyOrder(cs)[i] != KeyOrder(cs)[j]
    ensures forall k :: k in KeyOrder(cs) <==> Charged(cs, k)
  {
    KeyOrderDiffers(cs);
    forall k: string
      ensures k in KeyOrder(cs) <==> Charged(cs, k)
    {
      KeyOrderMembers(cs, k);
    }
  }

  /** A key is charged before another is charged at all. */
  ghost predicate ChargedFirst(cs: seq<Charge>, k: string, later: string) {
    exists p :: 0 <= p < |cs| && cs[p].key == k && forall q :: 0 <= q <= p ==> cs[q].key != later
  }

  /** The order is that of first appearance. */
  lemma {:induction false} KeyOrderByFirst(cs: seq<Charge>, i: nat, j: nat)
    requires i < j < |KeyOrder(cs)|
    ensures ChargedFirst(cs, KeyOrder(cs)[i], KeyOrder(cs)[j])
  {
    var before := cs[..|cs| - 1];
    assert forall q :: 0 <= q < |before| ==> before[q] == cs[q];
    if j < |KeyOrder(before)| {
      KeyOrderByFirst(before, i, j);
      var p :| 0 <= p < |before| && before[p].key == KeyOrder(before)[i]
        && forall q :: 0 <= q <= p ==> before[q].key != KeyOrder(before)[j];
      assert cs[p].key == KeyOrder(cs)[i];
    } else {
      KeyOrderMembers(before, KeyOrder(cs)[i]);
      KeyOrderMembers(before, KeyOrder(cs)[j]);
      var p :| 0 <= p < |before| && before[p].key == KeyOrder(cs)[i];
      assert cs[p].key == KeyOrder(cs)[i];
    }
  }

  lemma {:induction false} UnchargedKeyTotalsZero(cs: seq<Charge>, key: string)
    requires key !in KeyOrder(cs)
    ensures TotalOf(cs, key) == 0.0
  {
    if cs != [] {
      assert cs == cs[..|cs| - 1] + [cs[|cs| - 1]];
      TotalsSnoc(cs[..|cs| - 1], cs[|cs| - 1]);
      UnchargedKeyTotalsZero(cs[..|cs| - 1], key);
    }
  }
}
