/** The service over its cache: the requests behind the keys, and what every answer is worth to its caller. */
module Service {
  import opened Wrappers
  import opened CostTypes
  import opened CacheSweep
  import opened CacheProtocol
  import opened CacheRuns
  import opened CacheLimits
  import opened QueryKeys

  /** What a caller of the service wants: a cost series for a normalised query, or the summary. */
  datatype Request = CostsRequest(q: Query) | SummaryRequest

  function KeyOf(r: Request): string {
    match r
    case CostsRequest(q) => CostsKey(q)
    case SummaryRequest => SUMMARY_KEY
  }

  predicate ValidRequest(r: Request, allowed: set<string>) {
    r.CostsRequest? ==> IsNormal(r.q, allowed)
  }

  /** The dynamic type the caller asserts on what the cache hands back. */
  predicate HasAssertedType(r: Request, v: Value) {
    match r
    case CostsRequest(_) => v.SeriesValue?
    case SummaryRequest => v.SummaryValue?
  }

  /** Requests with one key are one request. */
  lemma SameKeySameRequest(a: Request, b: Request, allowed: set<string>)
    requires ValidRequest(a, allowed) && ValidRequest(b, allowed)
    ensures KeyOf(a) == KeyOf(b) <==> a == b
  {
    match (a, b)
    case (CostsRequest(p), CostsRequest(q)) => KeysTellNormalQueriesApart(p, q, allowed);
    case (CostsRequest(p), SummaryRequest) => CostsKeyIsNotSummary(p);
    case (SummaryRequest, CostsRequest(q)) => CostsKeyIsNotSummary(q);
    case (SummaryRequest, SummaryRequest) =>
  }

  /** Each caller of the cache came with a request and uses that request's key. */
  ghost predicate Serves(e: State, reqs: seq<Request>, allowed: set<string>) {
    && |reqs| == |e.callers|
    && forall c :: 0 <= c < |reqs| ==> ValidRequest(reqs[c], allowed) && e.callers[c].key == KeyOf(reqs[c])
  }

  predicate BypassedWell(p: Pc) {
    p.Finished? && p.how.Bypassed? && p.outcome.Ok?
  }

  /** Every `fn` that ran and succeeded fetched a value that fits the request of the caller that ran it. */
  ghost predicate FetchesFit(e: State, reqs: seq<Request>, fits: (Request, Value) -> bool) {
    && (forall id :: 0 <= id < |e.calls| && e.calls[id].outcome.Some? && e.calls[id].outcome.value.Ok? ==>
          e.calls[id].leader < |reqs| && fits(reqs[e.calls[id].leader], e.calls[id].outcome.value.val))
    && (forall c :: 0 <= c < |reqs| && c < |e.callers| && BypassedWell(e.callers[c]) ==>
          fits(reqs[c], e.callers[c].outcome.val))
  }

  /**
   * Answers belong to their requests. If what each run of `fn` fetches fits the request of the
   * caller that ran it, then in every run of the service, under every interleaving, what any
   * caller gets (from the cache, by joining, or by its own run) fits its own request.
   */
  lemma AnswersFitRequests(s: State, acts: seq<Action>, reqs: seq<Request>, allowed: set<string>,
                           fits: (Request, Value) -> bool)
    requires Init(s) && IsRun(s, acts)
    requires Serves(EndOf(s, acts), reqs, allowed) && FetchesFit(EndOf(s, acts), reqs, fits)
    ensures forall c :: 0 <= c < |reqs| ==>
      var p := EndOf(s, acts).callers[c];
      p.Finished? && p.outcome.Ok? ==> fits(reqs[c], p.outcome.val)
  {
    RunKeepsInv(s, acts);
    var e := EndOf(s, acts);
    forall c | 0 <= c < |reqs| && e.callers[c].Finished? && e.callers[c].outcome.Ok?
      ensures fits(reqs[c], e.callers[c].outcome.val)
    {
      if !e.callers[c].how.Bypassed? {
        var id := SourceOfAnswer(e, c);
        assert CallInv(e, id);
        SameKeySameRequest(reqs[c], reqs[e.calls[id].leader], allowed);
      }
    }
  }

  /** No type assertion on a cached value can fail. */
  lemma AssertionsHold(s: State, acts: seq<Action>, reqs: seq<Request>, allowed: set<string>)
    requires Init(s) && IsRun(s, acts)
    requires Serves(EndOf(s, acts), reqs, allowed) && FetchesFit(EndOf(s, acts), reqs, HasAssertedType)
    ensures forall c :: 0 <= c < |reqs| ==>
      var p := EndOf(s, acts).callers[c];
      && (p.Finished? && p.outcome.Ok? && reqs[c].CostsRequest? ==> p.outcome.val.SeriesValue?)
      && (p.Finished? && p.outcome.Ok? && reqs[c].SummaryRequest? ==> p.outcome.val.SummaryValue?)
  {
    AnswersFitRequests(s, acts, reqs, allowed, HasAssertedType);
  }

  lemma SourceOfAnswer(e: State, c: nat) returns (id: nat)
    requires Inv(e) && c < |e.callers| && e.callers[c].Finished? && !e.callers[c].how.Bypassed?
    ensures id < |e.calls| && e.calls[id].key == e.callers[c].key
    ensures e.calls[id].outcome == Some(e.callers[c].outcome)
  {
    assert CallerInv(e, c);
    var p := e.callers[c];
    match p.how
    case Hit(at) =>
      var i, pub :| PublishedBy(e.calls, i, p.key, p.outcome.val, pub) && pub <= at < pub + e.ttl;
      id := i;
    case Joined(call, _) => id := call;
    case Led(call) => id := call;
  }

  /** The service only ever uses keys from its finite key space, none of them empty. */
  lemma KeysAreFromTheKeySpace(e: State, reqs: seq<Request>, allowed: set<string>)
    requires Serves(e, reqs, allowed)
    ensures KeysWithin(e, AllKeys(allowed)) && "" !in AllKeys(allowed)
    ensures |AllKeys(allowed)| == 739 * (5 + |allowed|) + 1 > 256
  {
    KeySpace(allowed);
    forall c | 0 <= c < |e.callers|
      ensures e.callers[c].key in AllKeys(allowed)
    {
      if reqs[c].CostsRequest? {
        NormalKeyIsAKey(reqs[c].q, allowed);
      }
    }
  }

  ghost function KeysOf(shapes: set<Request>): set<string> {
    set r | r in shapes :: KeyOf(r)
  }

  lemma {:induction false} NoMoreKeysThanRequests(shapes: set<Request>)
    ensures |KeysOf(shapes)| <= |shapes|
    decreases |shapes|
  {
    if shapes == {} {
      assert KeysOf(shapes) == {};
    } else {
      var r :| r in shapes;
      NoMoreKeysThanRequests(shapes - {r});
      assert KeysOf(shapes) == KeysOf(shapes - {r}) + {KeyOf(r)};
    }
  }

  /** What the callers ask for is among the given requests. */
  ghost predicate AskFor(reqs: seq<Request>, shapes: set<Request>) {
    forall c :: 0 <= c < |reqs| ==> reqs[c] in shapes
  }

  lemma KeysOfAreFew(e: State, reqs: seq<Request>, allowed: set<string>, shapes: set<Request>)
    requires Serves(e, reqs, allowed) && AskFor(reqs, shapes)
    ensures KeysWithin(e, KeysOf(shapes)) && "" !in KeysOf(shapes) && |KeysOf(shapes)| <= |shapes|
  {
    NoMoreKeysThanRequests(shapes);
    forall k | k in KeysOf(shapes)
      ensures k != ""
    {
      var x :| x in shapes && k == KeyOf(x);
      if x.CostsRequest? {
        CostsKeyIsNotSummary(x.q);
      }
    }
  }

  /**
   * The bill of the service: as long as callers ask for at most 256 different things, any
   * stretch of time of length T costs at most T/ttl + 1 fetches per request that do not fail.
   */
  lemma ServiceBill(s: State, acts: seq<Action>, reqs: seq<Request>, allowed: set<string>, shapes: set<Request>,
                    r: Request, from: int, length: nat)
    requires Init(s) && IsRun(s, acts) && s.ttl > 0 && Serves(EndOf(s, acts), reqs, allowed)
    requires AskFor(reqs, shapes) && |shapes| <= 256
    ensures var calls := EndOf(s, acts).calls;
      |PaidCalls(calls, |calls|, KeyOf(r), from, length)| <= length / s.ttl + 1
  {
    KeysOfAreFew(EndOf(s, acts), reqs, allowed, shapes);
    PaidCallBound(s, acts, KeysOf(shapes), KeyOf(r), from, length);
  }

  // ----- where the bill stops holding -----

  /** Every run of the service in which at most n different things are asked for spaces its fetches. */
  ghost predicate ServiceSpaced(n: nat, ttl: int, allowed: set<string>) {
    forall s, acts, reqs, shapes ::
      Init(s) && s.ttl == ttl && IsRun(s, acts) && Serves(EndOf(s, acts), reqs, allowed)
      && AskFor(reqs, shapes) && |shapes| <= n
      ==> EntriesOfFnSpaced(EndOf(s, acts).calls, ttl)
  }

  function DailyRequests(n: nat): seq<Request> {
    seq(n, i requires 0 <= i < n => CostsRequest(DailyQuery(i)))
  }

  /** Daily queries for two days and up, and once more the first. */
  function DailyThenFirst(n: nat): seq<Request> {
    DailyRequests(n) + [CostsRequest(DailyQuery(0))]
  }

  lemma DailyIsNormal(i: nat, allowed: set<string>)
    requires i < 364
    ensures IsNormal(DailyQuery(i), allowed)
  {
    DimensionsAreNotTags("SERVICE");
  }

  lemma DailyRunServes(e: State, n: nat, allowed: set<string>)
    requires 0 < n <= 364 && AskedAndAgain(e, DailySeriesKeys(n))
    ensures Serves(e, DailyThenFirst(n), allowed) && AskFor(DailyThenFirst(n), Elements(DailyRequests(n)))
  {
    var reqs := DailyThenFirst(n);
    forall c | 0 <= c < |reqs|
      ensures ValidRequest(reqs[c], allowed) && e.callers[c].key == KeyOf(reqs[c])
      ensures reqs[c] in Elements(DailyRequests(n))
    {
      var i := if c < n then c else 0;
      DailyIsNormal(i, allowed);
      assert reqs[c] == DailyRequests(n)[i];
      assert e.callers[c].key == DailySeriesKeys(n)[i];
    }
  }

  /**
   * The service spaces its fetches by `ttl` (failures aside) for up to n different requests
   * exactly if n is at most 256: asking for one daily series more, all of them legal queries,
   * can make it pay twice within `ttl`, whatever tags are allowed.
   */
  lemma ServiceSpacingIff(n: nat, ttl: int, allowed: set<string>)
    requires ttl > 0
    ensures ServiceSpaced(n, ttl, allowed) <==> n <= 256
  {
    if n <= 256 {
      forall s, acts, reqs, shapes |
        Init(s) && s.ttl == ttl && IsRun(s, acts) && Serves(EndOf(s, acts), reqs, allowed)
        && AskFor(reqs, shapes) && |shapes| <= n
        ensures EntriesOfFnSpaced(EndOf(s, acts).calls, ttl)
      {
        KeysOfAreFew(EndOf(s, acts), reqs, allowed, shapes);
        PaidCallsAreSpaced(s, acts, KeysOf(shapes));
      }
    } else {
      ServicePaysTwice(n, ttl, allowed);
    }
  }

  lemma ServicePaysTwice(n: nat, ttl: int, allowed: set<string>)
    requires ttl > 0 && n > 256
    ensures !ServiceSpaced(n, ttl, allowed)
  {
    var s := State(ttl, 0, map[], map[], [], [], 0, 0);
    var m: nat := 257;
    var acts := PayTwiceDaily(s, ttl - 1);
    DailyRunServes(EndOf(s, acts), m, allowed);
    FewElements(DailyRequests(m));
  }
}
