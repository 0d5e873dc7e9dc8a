/**
 * The limits of the cache's promise: 256 distinct keys is exactly the point up to which paid
 * calls stay `ttl` apart, and a cache without a positive `ttl` keeps nothing at all.
 */
module CacheLimits {
  import opened Wrappers
  import opened CostTypes
  import opened CacheSweep
  import opened CacheProtocol
  import opened CacheRuns
  import QueryKeys
  import Sums

  /** Every run that uses at most `n` distinct non-empty keys spaces its paid calls. */
  ghost predicate AlwaysSpaced(n: nat, ttl: int) {
    forall s, acts, keys ::
      Init(s) && s.ttl == ttl && IsRun(s, acts) && KeysWithin(EndOf(s, acts), keys)
      && "" !in keys && |keys| <= n
      ==> EntriesOfFnSpaced(EndOf(s, acts).calls, ttl)
  }

  // ----- a run of 257 keys that pays twice at once for one key -----

  /** The state after one caller has fetched `key` with nobody else moving. */
  ghost function Fetched(s: State, key: string, val: Value, swept: Entries): State {
    s.(callers := s.callers + [Finished(key, Ok(val), Led(|s.calls|))],
       calls := s.calls + [Call(key, |s.callers|, s.now, Some(s.now), Some(Ok(val)), Some(s.now))],
       entries := swept[key := Entry(val, s.now + s.ttl)],
       misses := s.misses + 1)
  }

  ghost predicate Fetchable(s: State, key: string) {
    && s.ttl > 0 && s.inflight == map[]
    && (key in s.entries ==> !Fresh(s.entries[key], s.now))
  }

  ghost function Opening(s: State, key: string): seq<Action> {
    [Arrive(key), Lookup(|s.callers|), EnterFn(|s.callers|)]
  }

  ghost function Underway(s: State, key: string): State {
    s.(callers := s.callers + [InFn(key, |s.calls|)],
       calls := s.calls + [Call(key, |s.callers|, s.now, Some(s.now), None, None)],
       inflight := s.inflight[key := |s.calls|],
       misses := s.misses + 1)
  }

  lemma OpeningRuns(s: State, key: string)
    requires Fetchable(s, key)
    ensures IsRun(s, Opening(s, key)) && EndOf(s, Opening(s, key)) == Underway(s, key)
  {
    var c := |s.callers|;
    var s1 := Apply(s, Arrive(key));
    var s2 := Apply(s1, Lookup(c));
    var s3 := Apply(s2, EnterFn(c));
    assert s3 == Underway(s, key);
    StepsMakeRun([s, s1, s2, s3], Opening(s, key));
  }

  ghost function Closing(s: State, val: Value, swept: Entries): seq<Action> {
    [FnReturns(|s.callers|, Ok(val)), Publish(|s.callers|, s.now, swept)]
  }

  /** `fn` has returned, and the call is not yet retired. */
  ghost function Done(s: State, key: string, val: Value): State {
    s.(callers := s.callers + [Returned(key, |s.calls|)],
       calls := s.calls + [Call(key, |s.callers|, s.now, Some(s.now), Some(Ok(val)), None)],
       inflight := s.inflight[key := |s.calls|],
       misses := s.misses + 1)
  }

  lemma ThenReturns(s: State, key: string, val: Value)
    ensures Enabled(Underway(s, key), FnReturns(|s.callers|, Ok(val)))
    ensures Apply(Underway(s, key), FnReturns(|s.callers|, Ok(val))) == Done(s, key, val)
  {
  }

  lemma ThenPublishes(s: State, key: string, val: Value, swept: Entries)
    requires Fetchable(s, key) && Swept(s.entries, s.now, swept)
    ensures Enabled(Done(s, key, val), Publish(|s.callers|, s.now, swept))
    ensures Apply(Done(s, key, val), Publish(|s.callers|, s.now, swept)) == Fetched(s, key, val, swept)
  {
    var t := Apply(Done(s, key, val), Publish(|s.callers|, s.now, swept));
    assert t.inflight == s.inflight;
  }

  lemma ClosingRuns(s: State, key: string, val: Value, swept: Entries)
    requires Fetchable(s, key) && Swept(s.entries, s.now, swept)
    ensures IsRun(Underway(s, key), Closing(s, val, swept))
    ensures EndOf(Underway(s, key), Closing(s, val, swept)) == Fetched(s, key, val, swept)
  {
    ThenReturns(s, key, val);
    ThenPublishes(s, key, val, swept);
    StepsMakeRun([Underway(s, key), Done(s, key, val), Fetched(s, key, val, swept)], Closing(s, val, swept));
  }

  lemma FetchRuns(s: State, key: string, val: Value, swept: Entries) returns (acts: seq<Action>)
    requires Fetchable(s, key) && Swept(s.entries, s.now, swept)
    ensures IsRun(s, acts) && EndOf(s, acts) == Fetched(s, key, val, swept)
  {
    OpeningRuns(s, key);
    ClosingRuns(s, key, val, swept);
    acts := Opening(s, key) + Closing(s, val, swept);
    RunsCompose(s, Opening(s, key), Closing(s, val, swept));
  }

  lemma {:induction false} StepsMakeRun(states: seq<State>, acts: seq<Action>)
    requires |states| == |acts| + 1
    requires forall i :: 0 <= i < |acts| ==> Enabled(states[i], acts[i]) && Apply(states[i], acts[i]) == states[i + 1]
    ensures IsRun(states[0], acts) && EndOf(states[0], acts) == states[|acts|]
    decreases |acts|
  {
    if acts != [] {
      StepsMakeRun(states[1..], acts[1..]);
    }
  }

  lemma {:induction false} RunsCompose(s: State, acts: seq<Action>, more: seq<Action>)
    requires IsRun(s, acts) && IsRun(EndOf(s, acts), more)
    ensures IsRun(s, acts + more) && EndOf(s, acts + more) == EndOf(EndOf(s, acts), more)
    decreases |acts|
  {
    if acts == [] {
      assert acts + more == more;
    } else {
      assert (acts + more)[1..] == acts[1..] + more;
      RunsCompose(Apply(s, acts[0]), acts[1..], more);
    }
  }

  /** A stand-in for what an upstream returns. */
  function AnyValue(): Value {
    SummaryValue(Summary(0.0, 0.0, 0.0, []))
  }

  ghost predicate HasExactly(m: Entries, keys: seq<string>) {
    forall k :: k in m <==> k in keys
  }

  predicate Expires(m: Entries, k: string, exp: int) {
    k in m && m[k].exp == exp
  }

  /** The first n keys are stored; the first of them expires at `soonest`, the others at `exp`. */
  ghost predicate StoredIn(m: Entries, keys: seq<string>, n: nat, soonest: int, exp: int)
    requires n <= |keys|
  {
    && HasExactly(m, keys[..n]) && |m| == n
    && forall i :: 0 <= i < n ==> Expires(m, keys[i], if i == 0 then soonest else exp)
  }

  /** The first n keys are stored; the first of them was at `first`, the others now. */
  ghost predicate Stored(s: State, keys: seq<string>, n: nat, first: int)
    requires n <= |keys|
  {
    StoredIn(s.entries, keys, n, first + s.ttl, s.now + s.ttl)
  }

  /** One caller asked for each of the first n keys, the first of them at `first`. */
  ghost predicate Asked(s: State, keys: seq<string>, n: nat, first: int)
    requires n <= |keys|
  {
    && |s.calls| == |s.callers| == n
    && (forall i :: 0 <= i < n ==> s.callers[i].key == keys[i])
    && (n > 0 ==> PaidAt(s.calls[0], keys[0], first))
  }

  /** `fn` was entered for the key at that time, and has not failed. */
  ghost predicate PaidAt(call: Call, key: string, at: int) {
    call.key == key && call.start == Some(at) && !Failed(call)
  }

  ghost predicate Holds(s: State, keys: seq<string>, n: nat, first: int)
    requires n <= |keys|
  {
    && s.ttl > 0 && s.inflight == map[] && first <= s.now < first + s.ttl
    && Stored(s, keys, n, first) && Asked(s, keys, n, first)
  }

  lemma AllUnexpired(s: State, keys: seq<string>, n: nat, first: int)
    requires n <= |keys| && Holds(s, keys, n, first)
    ensures Unexpired(s.entries, s.now) == s.entries
    ensures forall k :: k in s.entries ==> first + s.ttl <= s.entries[k].exp
  {
    forall k | k in s.entries
      ensures first + s.ttl <= s.entries[k].exp
    {
      var i :| 0 <= i < n && keys[..n][i] == k;
      assert keys[i] == k;
    }
    assert Unexpired(s.entries, s.now) == s.entries;
  }

  lemma NextIsNew(m: Entries, keys: seq<string>, n: nat)
    requires n < |keys| && Distinct(keys) && HasExactly(m, keys[..n])
    ensures keys[n] !in m
  {
  }

  lemma OneMoreKey(m: Entries, names: seq<string>, k: string, e: Entry)
    requires HasExactly(m, names)
    ensures HasExactly(m[k := e], names + [k])
  {
  }

  lemma OneMoreStored(m: Entries, keys: seq<string>, n: nat, soonest: int, e: Entry)
    requires 0 < n < |keys| && keys[n] !in m && StoredIn(m, keys, n, soonest, e.exp)
    ensures StoredIn(m[keys[n] := e], keys, n + 1, soonest, e.exp)
  {
    var t := m[keys[n] := e];
    AddOne(m, keys[n], e);
    OneMoreKey(m, keys[..n], keys[n], e);
    assert keys[..n + 1] == keys[..n] + [keys[n]];
    forall i | 0 <= i < n + 1
      ensures Expires(t, keys[i], if i == 0 then soonest else e.exp)
    {
      if i < n {
        assert Expires(m, keys[i], if i == 0 then soonest else e.exp);
      }
    }
  }

  lemma OneMoreAsked(s: State, keys: seq<string>, n: nat, first: int, val: Value)
    requires 0 < n < |keys| && Asked(s, keys, n, first)
    ensures Asked(Fetched(s, keys[n], val, s.entries), keys, n + 1, first)
  {
  }

  lemma FetchedStores(s: State, keys: seq<string>, n: nat, first: int, val: Value, m: Entries)
    requires n < |keys|
    requires StoredIn(m[keys[n] := Entry(val, s.now + s.ttl)], keys, n + 1, first + s.ttl, s.now + s.ttl)
    ensures Stored(Fetched(s, keys[n], val, m), keys, n + 1, first)
  {
  }

  lemma OneMore(s: State, keys: seq<string>, n: nat, first: int, val: Value)
    requires 0 < n < |keys| && Distinct(keys) && Holds(s, keys, n, first)
    ensures Holds(Fetched(s, keys[n], val, s.entries), keys, n + 1, first)
  {
    NextIsNew(s.entries, keys, n);
    OneMoreStored(s.entries, keys, n, first + s.ttl, Entry(val, s.now + s.ttl));
    FetchedStores(s, keys, n, first, val, s.entries);
    OneMoreAsked(s, keys, n, first, val);
  }

  /** The first key is fetched, and then time passes. */
  lemma FetchFirst(s: State, keys: seq<string>, gap: nat) returns (acts: seq<Action>)
    requires Init(s) && gap < s.ttl && |keys| > 0
    ensures IsRun(s, acts) && Holds(EndOf(s, acts), keys, 1, s.now)
    ensures EndOf(s, acts).now == s.now + gap && EndOf(s, acts).ttl == s.ttl
  {
    assert Unexpired(s.entries, s.now) == map[];
    var fetch := FetchRuns(s, keys[0], AnyValue(), map[]);
    var t := Fetched(s, keys[0], AnyValue(), map[]);
    var u := Apply(t, Tick(s.now + gap));
    StepsMakeRun([t, u], [Tick(s.now + gap)]);
    RunsCompose(s, fetch, [Tick(s.now + gap)]);
    acts := fetch + [Tick(s.now + gap)];
    assert keys[..1] == [keys[0]];
    assert u.entries == map[keys[0] := Entry(AnyValue(), s.now + s.ttl)];
  }

  lemma {:induction false} FillUp(s: State, keys: seq<string>, n: nat, gap: nat) returns (acts: seq<Action>)
    requires Init(s) && gap < s.ttl && Distinct(keys) && 0 < n <= |keys| && n <= 256
    ensures IsRun(s, acts) && Holds(EndOf(s, acts), keys, n, s.now)
    ensures EndOf(s, acts).now == s.now + gap && EndOf(s, acts).ttl == s.ttl
    decreases n
  {
    if n == 1 {
      acts := FetchFirst(s, keys, gap);
    } else {
      acts := FillUp(s, keys, n - 1, gap);
      var m := EndOf(s, acts);
      AllUnexpired(m, keys, n - 1, s.now);
      NextIsNew(m.entries, keys, n - 1);
      var more := FetchRuns(m, keys[n - 1], AnyValue(), m.entries);
      OneMore(m, keys, n - 1, s.now, AnyValue());
      RunsCompose(s, acts, more);
      acts := acts + more;
    }
  }

  /** If time has passed since the first fetch, the first entry is older than every other. */
  lemma FirstIsOldest(s: State, keys: seq<string>, n: nat, first: int, j: string)
    requires 0 < n <= |keys| && Holds(s, keys, n, first) && first < s.now && j in s.entries && j != keys[0]
    ensures keys[0] in s.entries && s.entries[keys[0]].exp < s.entries[j].exp
  {
    var i :| 0 <= i < n && keys[..n][i] == j;
    assert Expires(s.entries, keys[i], s.now + s.ttl) && Expires(s.entries, keys[0], first + s.ttl);
  }

  /**
   * In a full house the first key may be the victim of the code's own scan; if it is older than
   * the others, the scan can only choose it.
   */
  lemma FirstIsTheVictim(s: State, keys: seq<string>, n: nat, first: int)
    requires n == 256 && n <= |keys| && "" !in keys && Distinct(keys) && Holds(s, keys, n, first)
    ensures SweepOutcome(s.entries, s.now, s.entries - {keys[0]})
    ensures first < s.now ==> forall after :: SweepOutcome(s.entries, s.now, after) ==> after == s.entries - {keys[0]}
  {
    AllUnexpired(s, keys, n, first);
    assert Expires(s.entries, keys[0], first + s.ttl);
    FirstMayGo(s.entries, keys[0]);
    if first < s.now {
      FirstMustGo(s, keys, n, first);
    }
  }

  lemma FirstMustGo(s: State, keys: seq<string>, n: nat, first: int)
    requires n == 256 && n <= |keys| && "" !in keys && Holds(s, keys, n, first) && first < s.now
    ensures forall after :: SweepOutcome(s.entries, s.now, after) ==> after == s.entries - {keys[0]}
  {
    AllUnexpired(s, keys, n, first);
    assert Expires(s.entries, keys[0], first + s.ttl);
    forall j | j in s.entries && j != keys[0]
      ensures s.entries[keys[0]].exp < s.entries[j].exp
    {
      FirstIsOldest(s, keys, n, first, j);
    }
    forall after | SweepOutcome(s.entries, s.now, after)
      ensures after == s.entries - {keys[0]}
    {
      OldestMustGo(s.entries, s.now, keys[0], after);
    }
  }

  lemma FirstMayGo(m: Entries, k: string)
    requires |m| == 256 && IsOldest(k, m) && k != ""
    ensures EvictsTo(m, m - {k})
  {
    OldestMayGo(m, k);
    DropOne(m, k);
    EvictionStep(m, k, m - {k});
  }

  /** A caller for each key in turn, and one more for the first. */
  ghost predicate AskedAndAgain(s: State, keys: seq<string>) {
    && |s.callers| == |keys| + 1
    && forall c :: 0 <= c < |s.callers| ==>
         s.callers[c].key in keys && s.callers[c].key == keys[if c < |keys| then c else 0]
  }

  lemma AgainStarts(s: State, keys: seq<string>, n: nat, first: int)
    requires 0 < n && n + 1 == |keys| && Distinct(keys) && Holds(s, keys, n, first)
    ensures Fetchable(Fetched(s, keys[n], AnyValue(), s.entries - {keys[0]}), keys[0])
  {
    assert keys[0] != keys[n];
  }

  lemma AgainPays(s: State, keys: seq<string>, n: nat, first: int)
    requires 0 < n && n + 1 == |keys| && Holds(s, keys, n, first)
    ensures var e := Underway(Fetched(s, keys[n], AnyValue(), s.entries - {keys[0]}), keys[0]);
      AskedAndAgain(e, keys) && |e.calls| == |keys| + 1
      && PaidAt(e.calls[0], keys[0], first) && PaidAt(e.calls[|keys|], keys[0], s.now)
  {
  }

  lemma Overflow(full: State, keys: seq<string>, n: nat, first: int) returns (acts: seq<Action>)
    requires 0 < n && n + 1 == |keys| && Distinct(keys) && Holds(full, keys, n, first)
    requires Swept(full.entries, full.now, full.entries - {keys[0]})
    ensures IsRun(full, acts)
    ensures EndOf(full, acts) == Underway(Fetched(full, keys[n], AnyValue(), full.entries - {keys[0]}), keys[0])
  {
    NextIsNew(full.entries, keys, n);
    var another := FetchRuns(full, keys[n], AnyValue(), full.entries - {keys[0]});
    var over := Fetched(full, keys[n], AnyValue(), full.entries - {keys[0]});
    AgainStarts(full, keys, n, first);
    OpeningRuns(over, keys[0]);
    RunsCompose(full, another, Opening(over, keys[0]));
    acts := another + Opening(over, keys[0]);
  }

  /** From a full house of 256: the 257th key comes in, the first goes and is fetched again. */
  lemma PayAgain(full: State, keys: seq<string>, n: nat, first: int) returns (acts: seq<Action>)
    requires n == 256 && n + 1 == |keys| && "" !in keys && Distinct(keys) && Holds(full, keys, n, first)
    ensures IsRun(full, acts) && AskedAndAgain(EndOf(full, acts), keys)
    ensures |EndOf(full, acts).calls| == |keys| + 1
    ensures PaidAt(EndOf(full, acts).calls[0], keys[0], first)
    ensures PaidAt(EndOf(full, acts).calls[|keys|], keys[0], full.now)
  {
    FirstIsTheVictim(full, keys, n, first);
    OutcomeIsSwept(full.entries, full.now, full.entries - {keys[0]});
    acts := Overflow(full, keys, n, first);
    AgainPays(full, keys, n, first);
  }

  /**
   * Any 257 keys, asked for once each, are enough to pay twice for the first: it goes when the
   * 257th comes in, and the next caller fetches it again less than `ttl` after the first time.
   */
  lemma PayTwice(s: State, keys: seq<string>, gap: nat) returns (acts: seq<Action>)
    requires Init(s) && gap < s.ttl
    requires |keys| == 257 && "" !in keys && Distinct(keys)
    ensures IsRun(s, acts) && AskedAndAgain(EndOf(s, acts), keys)
    ensures |EndOf(s, acts).calls| == |keys| + 1
    ensures PaidAt(EndOf(s, acts).calls[0], keys[0], s.now)
    ensures PaidAt(EndOf(s, acts).calls[|keys|], keys[0], s.now + gap)
  {
    var n: nat := 256;
    var fill := FillUp(s, keys, n, gap);
    var tail := PayAgain(EndOf(s, fill), keys, n, s.now);
    RunsCompose(s, fill, tail);
    acts := fill + tail;
  }

  lemma TwiceIsNotSpaced(calls: seq<Call>, key: string, ttl: int, i: nat, j: nat, first: int, again: int)
    requires i < j < |calls| && PaidAt(calls[i], key, first) && PaidAt(calls[j], key, again) && again < first + ttl
    ensures !EntriesOfFnSpaced(calls, ttl)
  {
  }

  // ----- the limit -----

  /** The i-th of the daily queries by service, of which there are 364. */
  function DailyQuery(i: nat): Query {
    Query(QueryKeys.DAILY, "SERVICE", i + 2)
  }

  function DailySeriesKeys(n: nat): seq<string> {
    seq(n, i requires 0 <= i < n => QueryKeys.CostsKey(DailyQuery(i)))
  }

  lemma DailySeriesKeysDiffer(n: nat)
    ensures Distinct(DailySeriesKeys(n)) && "" !in DailySeriesKeys(n)
  {
    QueryKeys.GranularitiesDiffer();
    forall i, j | 0 <= i < j < n
      ensures DailySeriesKeys(n)[i] != DailySeriesKeys(n)[j]
    {
      QueryKeys.SameKeySameQuery(DailyQuery(i), DailyQuery(j));
    }
    forall i | 0 <= i < n
      ensures DailySeriesKeys(n)[i] != ""
    {
      QueryKeys.CostsKeyIsNotSummary(DailyQuery(i));
    }
  }

  ghost function Elements<T>(s: seq<T>): set<T> {
    set x | x in s
  }

  lemma {:induction false} FewElements<T>(s: seq<T>)
    ensures |Elements(s)| <= |s|
  {
    if s != [] {
      var n := |s| - 1;
      FewElements(s[..n]);
      assert Elements(s) == Elements(s[..n]) + {s[n]};
    }
  }

  /**
   * The number of keys up to which `fn` is never entered twice within `ttl` for one key
   * (failures aside) is exactly the cap of 256.
   */
  lemma SpacingHoldsIff(n: nat, ttl: int)
    requires ttl > 0
    ensures AlwaysSpaced(n, ttl) <==> n <= 256
  {
    if n <= 256 {
      forall s, acts, keys |
        Init(s) && s.ttl == ttl && IsRun(s, acts) && KeysWithin(EndOf(s, acts), keys)
        && "" !in keys && |keys| <= n
        ensures EntriesOfFnSpaced(EndOf(s, acts).calls, ttl)
      {
        PaidCallsAreSpaced(s, acts, keys);
      }
    } else {
      var s := State(ttl, 0, map[], map[], [], [], 0, 0);
      var acts := PayTwiceDaily(s, ttl - 1);
      FewElements(DailySeriesKeys(257));
      assert KeysWithin(EndOf(s, acts), Elements(DailySeriesKeys(257)));
    }
  }

  /** Paying twice with keys the service uses. */
  lemma PayTwiceDaily(s: State, gap: nat) returns (acts: seq<Action>)
    requires Init(s) && gap < s.ttl
    ensures IsRun(s, acts) && AskedAndAgain(EndOf(s, acts), DailySeriesKeys(257))
    ensures "" !in DailySeriesKeys(257)
    ensures !EntriesOfFnSpaced(EndOf(s, acts).calls, s.ttl)
  {
    var n: nat := 257;
    var keys := DailySeriesKeys(n);
    DailySeriesKeysDiffer(n);
    acts := PayTwice(s, keys, gap);
    TwiceIsNotSpaced(EndOf(s, acts).calls, keys[0], s.ttl, 0, n, s.now, s.now + gap);
  }

  /** Without a positive `ttl` every call runs its own `fn` and nothing is stored or counted. */
  lemma NothingIsCachedWithoutTtl(s: State, acts: seq<Action>)
    requires Init(s) && IsRun(s, acts) && s.ttl <= 0
    ensures var e := EndOf(s, acts);
      && e.entries == map[] && e.inflight == map[] && e.calls == []
      && e.hits == 0 && e.misses == 0
      && forall c :: 0 <= c < |e.callers| && e.callers[c].Finished? ==> e.callers[c].how == Bypassed
  {
    RunKeepsInv(s, acts);
    CountersAreExact(s, acts);
    TtlIsFixed(s, acts);
    NoHitsWithoutTtl(EndOf(s, acts));
  }

  lemma NoHitsWithoutTtl(e: State)
    requires Inv(e) && CountersExact(e) && e.ttl <= 0
    ensures e.hits == 0 && e.misses == 0
    ensures forall c :: 0 <= c < |e.callers| && e.callers[c].Finished? ==> e.callers[c].how == Bypassed
  {
    forall c | 0 <= c < |e.callers|
      ensures IsHit(e.callers[c]) == 0
      ensures e.callers[c].Finished? ==> e.callers[c].how == Bypassed
    {
      assert CallerInv(e, c);
    }
    AllZero(e.callers);
  }

  lemma {:induction false} AllZero(callers: seq<Pc>)
    requires forall c :: 0 <= c < |callers| ==> IsHit(callers[c]) == 0
    ensures Sums.Sum(callers, IsHit) == 0
  {
    if callers != [] {
      AllZero(callers[..|callers| - 1]);
    }
  }
}
