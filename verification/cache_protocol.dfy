/**
 * The cache's `do` as a step machine, cut where the mutex is taken and released, for any
 * number of concurrent callers and any interleaving, and the invariant every step keeps.
 */
module CacheProtocol {
  import opened Wrappers
  import opened CostTypes
  import opened CacheSweep

  /**
   * One in-flight call record; its index in `calls` stands for its address. `outcome` is set
   * when `fn` returns, which is also when the `done` channel closes. The other fields record
   * history for the statements below: when the call was registered, when `fn` was entered,
   * and when it was taken out of `inflight`.
   */
  datatype Call = Call(key: string, leader: nat, reg: int,
                       start: Option<int>, outcome: Option<Outcome>, ended: Option<int>)

  /**
   * How a caller got its answer, with the time of its lookup if it did not run `fn` itself; the
   * result's "from cache" flag is true for a hit alone.
   */
  datatype How = Hit(at: int) | Joined(call: nat, at: int) | Led(call: nat) | Bypassed

  /** Where one invocation of `do` is. */
  datatype Pc =
    | Entering(key: string)
    | GotHit(key: string, val: Value, at: int)
    | Waiting(key: string, call: nat, at: int)
    | Leading(key: string, call: nat)
    | InFn(key: string, call: nat)
    | Returned(key: string, call: nat)
    | InBypass(key: string)
    | Finished(key: string, outcome: Outcome, how: How)

  datatype State = State(ttl: int, now: int, entries: Entries, inflight: map<string, nat>,
                         calls: seq<Call>, callers: seq<Pc>, hits: nat, misses: nat)

  datatype Action =
    | Tick(to: int)
    | Arrive(key: string)
    | Lookup(c: nat)
    | CountHit(c: nat)
    | EnterFn(c: nat)
    | FnReturns(c: nat, outcome: Outcome)
    | Publish(c: nat, at: int, swept: Entries)
    | Wake(c: nat)
    | BypassReturns(c: nat, outcome: Outcome)

  ghost predicate Init(s: State) {
    && s.entries == map[] && s.inflight == map[]
    && s.calls == [] && s.callers == []
    && s.hits == 0 && s.misses == 0
  }

  ghost predicate ReadyToPublish(s: State, c: nat) {
    && c < |s.callers| && s.callers[c].Returned? && s.callers[c].call < |s.calls|
    && s.calls[s.callers[c].call].outcome.Some?
  }

  /** When a step may be taken. The clock never goes backwards. */
  ghost predicate Enabled(s: State, a: Action) {
    match a
    case Tick(t) => s.now <= t
    case Arrive(_) => true
    case Lookup(c) => c < |s.callers| && s.callers[c].Entering?
    case CountHit(c) => c < |s.callers| && s.callers[c].GotHit?
    case EnterFn(c) => c < |s.callers| && s.callers[c].Leading? && s.callers[c].call < |s.calls|
    case FnReturns(c, _) => c < |s.callers| && s.callers[c].InFn? && s.callers[c].call < |s.calls|
    case Publish(c, t, swept) =>
      && ReadyToPublish(s, c)
      && s.now <= t
      && (s.calls[s.callers[c].call].outcome.value.Ok? ==> Swept(s.entries, s.now, swept))
    case Wake(c) =>
      && c < |s.callers| && s.callers[c].Waiting? && s.callers[c].call < |s.calls|
      && s.calls[s.callers[c].call].outcome.Some?
    case BypassReturns(c, _) => c < |s.callers| && s.callers[c].InBypass?
  }

  /** The first critical section: a hit, a join, or a registration as leader. */
  function AfterLookup(s: State, c: nat): State
    requires c < |s.callers|
  {
    var key := s.callers[c].key;
    if s.ttl <= 0 then
      s.(callers := s.callers[c := InBypass(key)])
    else if key in s.entries && Fresh(s.entries[key], s.now) then
      s.(callers := s.callers[c := GotHit(key, s.entries[key].val, s.now)])
    else if key in s.inflight then
      s.(callers := s.callers[c := Waiting(key, s.inflight[key], s.now)])
    else
      s.(callers := s.callers[c := Leading(key, |s.calls|)],
         inflight := s.inflight[key := |s.calls|],
         calls := s.calls + [Call(key, c, s.now, None, None, None)])
  }

  /**
   * The second critical section: retire the call and, on success, sweep and store. The sweep
   * reads the clock at `s.now`, the stored expiry reads it again at `at`.
   */
  ghost function AfterPublish(s: State, c: nat, at: int, swept: Entries): State
    requires ReadyToPublish(s, c)
  {
    var key, id := s.callers[c].key, s.callers[c].call;
    var outcome := s.calls[id].outcome.value;
    s.(now := at,
       inflight := s.inflight - {key},
       entries := if outcome.Ok? then swept[key := Entry(outcome.val, at + s.ttl)] else s.entries,
       calls := s.calls[id := s.calls[id].(ended := Some(at))],
       callers := s.callers[c := Finished(key, outcome, Led(id))])
  }

  ghost function Apply(s: State, a: Action): State
    requires Enabled(s, a)
  {
    match a
    case Tick(t) => s.(now := t)
    case Arrive(key) => s.(callers := s.callers + [Entering(key)])
    case Lookup(c) => AfterLookup(s, c)
    case CountHit(c) =>
      var p := s.callers[c];
      s.(hits := s.hits + 1, callers := s.callers[c := Finished(p.key, Ok(p.val), Hit(p.at))])
    case EnterFn(c) =>
      var p := s.callers[c];
      s.(misses := s.misses + 1,
         calls := s.calls[p.call := s.calls[p.call].(start := Some(s.now))],
         callers := s.callers[c := InFn(p.key, p.call)])
    case FnReturns(c, o) =>
      var p := s.callers[c];
      s.(calls := s.calls[p.call := s.calls[p.call].(outcome := Some(o))],
         callers := s.callers[c := Returned(p.key, p.call)])
    case Publish(c, t, swept) => AfterPublish(s, c, t, swept)
    case Wake(c) =>
      var p := s.callers[c];
      s.(callers := s.callers[c := Finished(p.key, s.calls[p.call].outcome.value, Joined(p.call, p.at))])
    case BypassReturns(c, o) =>
      s.(callers := s.callers[c := Finished(s.callers[c].key, o, Bypassed)])
  }

  // ----- the invariant -----

  /** Where a call's leader stands, read off the call record. */
  function LeaderPc(call: Call, id: nat): Pc {
    if call.outcome.None? then
      if call.start.None? then Leading(call.key, id) else InFn(call.key, id)
    else if call.ended.None? then Returned(call.key, id)
    else Finished(call.key, call.outcome.value, Led(id))
  }

  /** A successful run of `fn` for `key` published `val` at time `at`. */
  ghost predicate PublishedBy(calls: seq<Call>, id: nat, key: string, val: Value, at: int) {
    && id < |calls| && calls[id].key == key
    && calls[id].outcome == Some(Ok(val)) && calls[id].ended == Some(at)
  }

  ghost predicate Published(calls: seq<Call>, key: string, val: Value, at: int) {
    exists id :: PublishedBy(calls, id, key, val, at)
  }

  /** A stored entry is what some successful run for its key published `ttl` before it expires. */
  ghost predicate EntryInv(calls: seq<Call>, ttl: int, key: string, e: Entry) {
    Published(calls, key, e.val, e.exp - ttl)
  }

  /** A hit at time `at` hands out a value that was published less than `ttl` before. */
  ghost predicate HitBacked(s: State, key: string, val: Value, at: int) {
    exists id, pub :: PublishedBy(s.calls, id, key, val, pub) && pub <= at < pub + s.ttl
  }

  /** At a past time the call was registered and not yet retired. */
  predicate OutAt(call: Call, at: int, now: int) {
    call.reg <= at <= now && (call.ended.Some? ==> at <= call.ended.value)
  }

  ghost predicate CallInv(s: State, id: nat)
    requires id < |s.calls|
  {
    var call := s.calls[id];
    && s.ttl > 0
    && call.leader < |s.callers| && s.callers[call.leader] == LeaderPc(call, id)
    && call.reg <= s.now
    && (call.start.Some? ==> call.reg <= call.start.value <= s.now)
    && (call.outcome.Some? ==> call.start.Some?)
    && (call.ended.Some? ==> call.outcome.Some? && call.start.value <= call.ended.value <= s.now)
    && (call.ended.None? ==> call.key in s.inflight && s.inflight[call.key] == id)
  }

  /** A registered key has no servable entry until its leader publishes. */
  ghost predicate InflightInv(s: State) {
    forall k :: k in s.inflight ==>
      && s.inflight[k] < |s.calls|
      && s.calls[s.inflight[k]].key == k && s.calls[s.inflight[k]].ended.None?
      && (k in s.entries ==> !Fresh(s.entries[k], s.now))
  }

  ghost predicate CallerInv(s: State, c: nat)
    requires c < |s.callers|
  {
    match s.callers[c]
    case Entering(_) => true
    case GotHit(k, v, at) => at <= s.now && HitBacked(s, k, v, at)
    case Waiting(k, id, at) => id < |s.calls| && s.calls[id].key == k && OutAt(s.calls[id], at, s.now)
    case Leading(k, id) => id < |s.calls| && s.calls[id].leader == c && s.callers[c] == LeaderPc(s.calls[id], id)
    case InFn(k, id) => id < |s.calls| && s.calls[id].leader == c && s.callers[c] == LeaderPc(s.calls[id], id)
    case Returned(k, id) => id < |s.calls| && s.calls[id].leader == c && s.callers[c] == LeaderPc(s.calls[id], id)
    case InBypass(_) => s.ttl <= 0
    case Finished(k, o, how) =>
      match how
      case Hit(at) => o.Ok? && at <= s.now && HitBacked(s, k, o.val, at)
      case Joined(id, at) =>
        && id < |s.calls| && s.calls[id].key == k && s.calls[id].outcome == Some(o)
        && OutAt(s.calls[id], at, s.now)
      case Led(id) => id < |s.calls| && s.calls[id].leader == c && s.callers[c] == LeaderPc(s.calls[id], id)
      case Bypassed => s.ttl <= 0
  }

  /** At most 256 entries, each backed by a publication. */
  ghost predicate Backed(calls: seq<Call>, ttl: int, m: Entries) {
    && |m| <= MAX_CACHE_ENTRIES
    && (forall k :: k in m ==> EntryInv(calls, ttl, k, m[k]))
  }

  ghost predicate EntriesInv(s: State) {
    Backed(s.calls, s.ttl, s.entries)
  }

  ghost predicate Inv(s: State) {
    && (forall id :: 0 <= id < |s.calls| ==> CallInv(s, id))
    && InflightInv(s)
    && (forall c :: 0 <= c < |s.callers| ==> CallerInv(s, c))
    && EntriesInv(s)
    && (s.ttl <= 0 ==> s.entries == map[] && s.inflight == map[] && s.calls == [])
  }

  /** A call record only fills in. */
  ghost predicate Grows(a: Call, b: Call) {
    && a.key == b.key && a.leader == b.leader && a.reg == b.reg
    && (a.start.Some? ==> b.start == a.start)
    && (a.outcome.Some? ==> b.outcome == a.outcome)
    && (a.ended.Some? ==> b.ended == a.ended)
  }

  /** Call records only fill in: what has been published stays published. */
  ghost predicate CallsGrow(a: seq<Call>, b: seq<Call>) {
    |a| <= |b| && forall id :: 0 <= id < |a| ==> Grows(a[id], b[id])
  }

  /** Calls that end, end now or later. */
  ghost predicate EndLater(a: seq<Call>, b: seq<Call>, now: int) {
    forall id :: 0 <= id < |a| && id < |b| && a[id].ended.None? && b[id].ended.Some? ==> now <= b[id].ended.value
  }

  lemma PublishedGrows(a: seq<Call>, b: seq<Call>, id: nat, key: string, val: Value, at: int)
    requires CallsGrow(a, b) && PublishedBy(a, id, key, val, at)
    ensures PublishedBy(b, id, key, val, at)
  {
    assert Grows(a[id], b[id]);
  }

  lemma HitBackedGrows(s: State, t: State, key: string, val: Value, at: int)
    requires CallsGrow(s.calls, t.calls) && s.ttl == t.ttl && HitBacked(s, key, val, at)
    ensures HitBacked(t, key, val, at)
  {
    var id, pub :| PublishedBy(s.calls, id, key, val, pub) && pub <= at < pub + s.ttl;
    PublishedGrows(s.calls, t.calls, id, key, val, pub);
  }

  lemma CallGrows(s: State, a: Action, id: nat)
    requires Inv(s) && Enabled(s, a) && id < |s.calls|
    ensures id < |Apply(s, a).calls| && Grows(s.calls[id], Apply(s, a).calls[id])
  {
    match a
    case EnterFn(c) => assert CallerInv(s, c);
    case FnReturns(c, _) => assert CallerInv(s, c);
    case Publish(c, _, _) => assert CallerInv(s, c);
    case _ =>
  }

  lemma StateGrows(s: State, a: Action)
    requires Enabled(s, a)
    ensures var t := Apply(s, a);
      && |s.calls| <= |t.calls| && t.ttl == s.ttl && s.now <= t.now
      && |s.callers| <= |t.callers|
      && (forall c :: 0 <= c < |s.callers| ==> t.callers[c].key == s.callers[c].key)
  {
    match a
    case Tick(_) =>
    case Arrive(_) =>
    case Lookup(_) =>
    case CountHit(_) =>
    case EnterFn(_) =>
    case FnReturns(_, _) =>
    case Publish(_, _, _) =>
    case Wake(_) =>
    case BypassReturns(_, _) =>
  }

  lemma StepsGrow(s: State, a: Action)
    requires Inv(s) && Enabled(s, a)
    ensures var t := Apply(s, a);
      CallsGrow(s.calls, t.calls) && t.ttl == s.ttl && s.now <= t.now
      && |s.callers| <= |t.callers|
      && (forall c :: 0 <= c < |s.callers| ==> t.callers[c].key == s.callers[c].key)
  {
    StateGrows(s, a);
    forall id | 0 <= id < |s.calls|
      ensures Grows(s.calls[id], Apply(s, a).calls[id])
    {
      CallGrows(s, a, id);
    }
  }

  /** Callers other than the one that moves keep their place and their backing. */
  lemma OthersKeep(s: State, t: State, moved: nat)
    requires forall c :: 0 <= c < |s.callers| ==> CallerInv(s, c)
    requires CallsGrow(s.calls, t.calls) && EndLater(s.calls, t.calls, s.now) && s.ttl == t.ttl && s.now <= t.now
    requires |s.callers| <= |t.callers|
    requires forall c :: 0 <= c < |s.callers| && c != moved ==> t.callers[c] == s.callers[c]
    requires forall id :: 0 <= id < |s.calls| && s.calls[id].leader != moved ==> t.calls[id] == s.calls[id]
    ensures forall c :: 0 <= c < |s.callers| && c != moved ==> CallerInv(t, c)
  {
    forall c | 0 <= c < |s.callers| && c != moved
      ensures CallerInv(t, c)
    {
      assert CallerInv(s, c);
      match s.callers[c]
      case GotHit(k, v, at) => HitBackedGrows(s, t, k, v, at);
      case Finished(k, o, Hit(at)) => HitBackedGrows(s, t, k, o.val, at);
      case _ =>
    }
  }

  lemma EntryInvGrows(a: seq<Call>, b: seq<Call>, ttl: int, key: string, e: Entry)
    requires CallsGrow(a, b) && EntryInv(a, ttl, key, e)
    ensures EntryInv(b, ttl, key, e)
  {
    var id :| PublishedBy(a, id, key, e.val, e.exp - ttl);
    PublishedGrows(a, b, id, key, e.val, e.exp - ttl);
  }

  /** A part of the entries stays backed while call records grow. */
  lemma PartIsBacked(calls: seq<Call>, later: seq<Call>, ttl: int, m: Entries, part: Entries)
    requires Backed(calls, ttl, m) && CallsGrow(calls, later)
    requires forall k :: k in part ==> k in m && part[k] == m[k]
    requires |part| <= MAX_CACHE_ENTRIES
    ensures Backed(later, ttl, part)
  {
    forall k | k in part
      ensures EntryInv(later, ttl, k, part[k])
    {
      EntryInvGrows(calls, later, ttl, k, m[k]);
    }
  }

  /** A publication may be stored where there is room. */
  lemma OneMoreIsBacked(calls: seq<Call>, ttl: int, m: Entries, key: string, e: Entry)
    requires Backed(calls, ttl, m) && |m| < MAX_CACHE_ENTRIES
    requires Published(calls, key, e.val, e.exp - ttl)
    ensures Backed(calls, ttl, m[key := e])
  {
    var stored := m[key := e];
    assert stored.Keys == m.Keys + {key};
    KeyCount(m);
    KeyCount(stored);
    forall k | k in stored
      ensures EntryInv(calls, ttl, k, stored[k])
    {
      assert k != key ==> k in m && EntryInv(calls, ttl, k, m[k]);
    }
  }

  lemma EntriesKeep(s: State, t: State)
    requires EntriesInv(s) && CallsGrow(s.calls, t.calls) && s.ttl == t.ttl
    requires forall k :: k in t.entries ==> k in s.entries && t.entries[k] == s.entries[k]
    requires |t.entries| <= MAX_CACHE_ENTRIES
    ensures EntriesInv(t)
  {
    PartIsBacked(s.calls, t.calls, s.ttl, s.entries, t.entries);
  }

  lemma HitKeepsInv(s: State, c: nat)
    requires Inv(s) && Enabled(s, Lookup(c)) && s.ttl > 0
    requires s.callers[c].key in s.entries && Fresh(s.entries[s.callers[c].key], s.now)
    ensures Inv(AfterLookup(s, c))
  {
    var t := AfterLookup(s, c);
    var key := s.callers[c].key;
    var e := s.entries[key];
    assert EntryInv(s.calls, s.ttl, key, e);
    var id :| PublishedBy(s.calls, id, key, e.val, e.exp - s.ttl);
    assert CallInv(s, id);
    assert PublishedBy(t.calls, id, key, e.val, e.exp - s.ttl);
    OthersLeadNothing(s, c);
    MoveKeepsInv(s, t, c);
  }

  /** A step that moves one caller and touches no call record, entry or in-flight key. */
  lemma MoveKeepsInv(s: State, t: State, c: nat)
    requires Inv(s) && c < |s.callers| && LeadsNothing(s, c)
    requires |t.callers| == |s.callers| && t.callers == s.callers[c := t.callers[c]]
    requires t.(callers := [], hits := 0) == s.(callers := [], hits := 0)
    requires CallerInv(t, c)
    ensures Inv(t)
  {
    forall id | 0 <= id < |s.calls|
      ensures CallInv(t, id)
    {
      assert CallInv(s, id);
    }
    OthersKeep(s, t, c);
    EntriesKeep(s, t);
  }

  ghost predicate LeadsNothing(s: State, c: nat) {
    forall id :: 0 <= id < |s.calls| ==> s.calls[id].leader != c
  }

  /** Only a caller that has registered leads a call. */
  lemma OthersLeadNothing(s: State, c: nat)
    requires Inv(s) && c < |s.callers|
    requires var p := s.callers[c];
      p.Entering? || p.GotHit? || p.Waiting? || p.InBypass?
    ensures LeadsNothing(s, c)
  {
    forall id | 0 <= id < |s.calls|
      ensures s.calls[id].leader != c
    {
      assert CallInv(s, id);
    }
  }

  lemma RegisterKeepsInv(s: State, c: nat)
    requires Inv(s) && Enabled(s, Lookup(c)) && s.ttl > 0
    requires var key := s.callers[c].key;
      key !in s.inflight && !(key in s.entries && Fresh(s.entries[key], s.now))
    ensures Inv(AfterLookup(s, c))
  {
    var t := AfterLookup(s, c);
    OthersLeadNothing(s, c);
    OthersKeep(s, t, c);
    EntriesKeep(s, t);
    forall id | 0 <= id < |t.calls|
      ensures CallInv(t, id)
    {
      if id < |s.calls| {
        assert CallInv(s, id);
        assert t.calls[id] == s.calls[id];
      }
    }
    assert CallerInv(t, c);
    InflightAfterRegister(s, c);
  }

  lemma InflightAfterRegister(s: State, c: nat)
    requires InflightInv(s) && c < |s.callers| && s.ttl > 0
    requires var key := s.callers[c].key;
      key !in s.inflight && !(key in s.entries && Fresh(s.entries[key], s.now))
    ensures InflightInv(AfterLookup(s, c))
  {
    var t := AfterLookup(s, c);
    forall k | k in t.inflight
      ensures t.inflight[k] < |t.calls|
      ensures t.calls[t.inflight[k]].key == k && t.calls[t.inflight[k]].ended.None?
      ensures k in t.entries ==> !Fresh(t.entries[k], t.now)
    {
      if k != s.callers[c].key {
        assert k in s.inflight;
      }
    }
  }

  lemma LookupKeepsInv(s: State, c: nat)
    requires Inv(s) && Enabled(s, Lookup(c))
    ensures Inv(AfterLookup(s, c))
  {
    var key := s.callers[c].key;
    OthersLeadNothing(s, c);
    if s.ttl > 0 && key in s.entries && Fresh(s.entries[key], s.now) {
      HitKeepsInv(s, c);
    } else if s.ttl > 0 && key !in s.inflight {
      RegisterKeepsInv(s, c);
    } else {
      if s.ttl > 0 {
        assert CallInv(s, s.inflight[key]);
      }
      MoveKeepsInv(s, AfterLookup(s, c), c);
    }
  }

  lemma LeaderStepKeepsCalls(s: State, a: Action)
    requires Inv(s) && Enabled(s, a) && (a.EnterFn? || a.FnReturns?)
    ensures var t := Apply(s, a);
      && (forall id :: 0 <= id < |t.calls| ==> CallInv(t, id))
      && (forall id :: 0 <= id < |s.calls| && s.calls[id].leader != a.c ==> t.calls[id] == s.calls[id])
  {
    var t := Apply(s, a);
    assert CallerInv(s, a.c);
    var moving := s.callers[a.c].call;
    assert CallInv(s, moving);
    OnlyItsCall(s, a.c, moving);
    forall id | 0 <= id < |s.calls|
      ensures CallInv(t, id)
    {
      assert CallInv(s, id);
      assert id != moving ==> s.calls[id].leader != a.c;
    }
  }

  lemma LeaderStepKeepsCallers(s: State, a: Action)
    requires Inv(s) && Enabled(s, a) && (a.EnterFn? || a.FnReturns?)
    ensures var t := Apply(s, a);
      forall c :: 0 <= c < |t.callers| ==> CallerInv(t, c)
  {
    var t := Apply(s, a);
    StepsGrow(s, a);
    LeaderStepKeepsCalls(s, a);
    LeaderEndsNothing(s, a);
    OthersKeep(s, t, a.c);
    assert CallerInv(s, a.c);
    assert CallInv(s, s.callers[a.c].call) && CallInv(t, s.callers[a.c].call);
    assert CallerInv(t, a.c);
  }

  lemma LeaderEndsNothing(s: State, a: Action)
    requires Enabled(s, a) && (a.EnterFn? || a.FnReturns?)
    ensures forall id :: 0 <= id < |s.calls| ==> Apply(s, a).calls[id].ended == s.calls[id].ended
    ensures forall id :: 0 <= id < |s.calls| ==> Apply(s, a).calls[id].key == s.calls[id].key
    ensures Apply(s, a).entries == s.entries && Apply(s, a).inflight == s.inflight && Apply(s, a).now == s.now
    ensures |Apply(s, a).calls| == |s.calls|
  {
  }

  lemma LeaderStepKeepsInv(s: State, a: Action)
    requires Inv(s) && Enabled(s, a) && (a.EnterFn? || a.FnReturns?)
    ensures Inv(Apply(s, a))
  {
    StepsGrow(s, a);
    LeaderStepKeepsCalls(s, a);
    LeaderStepKeepsCallers(s, a);
    LeaderEndsNothing(s, a);
    EntriesKeep(s, Apply(s, a));
  }

  /** Publishing changes the record of the published call alone. */
  lemma PublishFrame(s: State, c: nat, at: int, swept: Entries)
    requires Inv(s) && ReadyToPublish(s, c) && s.now <= at
    ensures var t, id := AfterPublish(s, c, at, swept), s.callers[c].call;
      && s.calls[id].leader == c && s.calls[id].ended.None? && s.calls[id].key == s.callers[c].key
      && |t.calls| == |s.calls| && t.calls[id] == s.calls[id].(ended := Some(at))
      && forall j :: 0 <= j < |s.calls| && j != id ==> t.calls[j] == s.calls[j] && s.calls[j].leader != c
  {
    assert CallerInv(s, c);
    OnlyItsCall(s, c, s.callers[c].call);
  }

  lemma PublishKeepsCall(s: State, c: nat, at: int, swept: Entries, j: nat)
    requires Inv(s) && ReadyToPublish(s, c) && s.now <= at && j < |s.calls|
    ensures j < |AfterPublish(s, c, at, swept).calls| && CallInv(AfterPublish(s, c, at, swept), j)
  {
    PublishFrame(s, c, at, swept);
    assert CallInv(s, j) && CallInv(s, s.callers[c].call);
  }

  lemma PublishGrowsCalls(s: State, c: nat, at: int, swept: Entries)
    requires Inv(s) && ReadyToPublish(s, c) && s.now <= at
    ensures CallsGrow(s.calls, AfterPublish(s, c, at, swept).calls)
    ensures EndLater(s.calls, AfterPublish(s, c, at, swept).calls, s.now)
  {
    PublishFrame(s, c, at, swept);
  }

  lemma PublishKeepsCallers(s: State, c: nat, at: int, swept: Entries)
    requires Inv(s) && ReadyToPublish(s, c) && s.now <= at
    ensures var t := AfterPublish(s, c, at, swept);
      CallsGrow(s.calls, t.calls) && forall d :: 0 <= d < |t.callers| ==> CallerInv(t, d)
  {
    var t, id := AfterPublish(s, c, at, swept), s.callers[c].call;
    PublishFrame(s, c, at, swept);
    PublishGrowsCalls(s, c, at, swept);
    assert CallInv(s, id);
    OthersKeep(s, t, c);
    assert CallerInv(t, c);
  }

  lemma PublishKeepsCalls(s: State, c: nat, at: int, swept: Entries)
    requires Inv(s) && ReadyToPublish(s, c) && s.now <= at
    ensures var t := AfterPublish(s, c, at, swept);
      && CallsGrow(s.calls, t.calls)
      && (forall id :: 0 <= id < |t.calls| ==> CallInv(t, id))
      && (forall d :: 0 <= d < |t.callers| ==> CallerInv(t, d))
  {
    PublishKeepsCallers(s, c, at, swept);
    PublishFrame(s, c, at, swept);
    forall j | 0 <= j < |s.calls|
      ensures CallInv(AfterPublish(s, c, at, swept), j)
    {
      PublishKeepsCall(s, c, at, swept, j);
    }
  }

  /** A leader leads one call. */
  lemma OnlyItsCall(s: State, c: nat, id: nat)
    requires Inv(s) && c < |s.callers|
    requires s.callers[c].Leading? || s.callers[c].InFn? || s.callers[c].Returned?
    requires s.callers[c].call == id
    ensures forall j :: 0 <= j < |s.calls| && j != id ==> s.calls[j].leader != c
  {
    forall j | 0 <= j < |s.calls| && j != id
      ensures s.calls[j].leader != c
    {
      assert CallInv(s, j);
    }
  }

  lemma PublishKeepsInflight(s: State, c: nat, at: int, swept: Entries)
    requires Inv(s) && Enabled(s, Publish(c, at, swept))
    ensures InflightInv(AfterPublish(s, c, at, swept))
  {
    var t := AfterPublish(s, c, at, swept);
    var key, id := s.callers[c].key, s.callers[c].call;
    assert CallerInv(s, c) && CallInv(s, id);
    forall k | k in t.inflight
      ensures t.inflight[k] < |t.calls|
      ensures t.calls[t.inflight[k]].key == k && t.calls[t.inflight[k]].ended.None?
      ensures k in t.entries ==> !Fresh(t.entries[k], t.now)
    {
      assert k in s.inflight && k != key;
      assert s.inflight[k] != id;
    }
  }

  /** A part of the entries, with room for one more. */
  ghost predicate LeavesRoom(before: Entries, after: Entries) {
    |after| < MAX_CACHE_ENTRIES && forall k :: k in after ==> k in before && after[k] == before[k]
  }

  lemma SweptLeavesRoom(before: Entries, now: int, after: Entries)
    requires Swept(before, now, after)
    ensures LeavesRoom(before, after)
  {
  }

  /** A failure stores nothing. */
  lemma FailureKeepsEntries(s: State, c: nat, at: int, swept: Entries)
    requires Inv(s) && ReadyToPublish(s, c) && s.now <= at && s.calls[s.callers[c].call].outcome.value.Err?
    ensures EntriesInv(AfterPublish(s, c, at, swept))
  {
    PublishGrowsCalls(s, c, at, swept);
    EntriesKeep(s, AfterPublish(s, c, at, swept));
  }

  /** A success stores its value among what the sweep has left. */
  lemma SuccessIsBacked(calls: seq<Call>, later: seq<Call>, ttl: int, before: Entries, swept: Entries,
                        id: nat, key: string, val: Value, at: int)
    requires Backed(calls, ttl, before) && CallsGrow(calls, later) && LeavesRoom(before, swept)
    requires PublishedBy(later, id, key, val, at)
    ensures Backed(later, ttl, swept[key := Entry(val, at + ttl)])
  {
    PartIsBacked(calls, later, ttl, before, swept);
    OneMoreIsBacked(later, ttl, swept, key, Entry(val, at + ttl));
  }

  lemma PublicationIsRecorded(s: State, c: nat, at: int, swept: Entries, val: Value)
    requires Inv(s) && ReadyToPublish(s, c) && s.calls[s.callers[c].call].outcome == Some(Ok(val))
    ensures PublishedBy(AfterPublish(s, c, at, swept).calls, s.callers[c].call, s.callers[c].key, val, at)
  {
    assert CallerInv(s, c);
  }

  lemma SuccessStores(s: State, c: nat, at: int, swept: Entries, val: Value, t: State)
    requires ReadyToPublish(s, c) && s.calls[s.callers[c].call].outcome == Some(Ok(val))
    requires t == AfterPublish(s, c, at, swept)
    ensures t.entries == swept[s.callers[c].key := Entry(val, at + s.ttl)] && t.ttl == s.ttl
  {
  }

  lemma SuccessKeepsEntries(s: State, c: nat, at: int, swept: Entries, val: Value, t: State)
    requires ReadyToPublish(s, c) && s.calls[s.callers[c].call].outcome == Some(Ok(val))
    requires t == AfterPublish(s, c, at, swept) && EntriesInv(s) && LeavesRoom(s.entries, swept)
    requires CallsGrow(s.calls, t.calls) && PublishedBy(t.calls, s.callers[c].call, s.callers[c].key, val, at)
    ensures EntriesInv(t)
  {
    SuccessIsBacked(s.calls, t.calls, s.ttl, s.entries, swept, s.callers[c].call, s.callers[c].key, val, at);
    SuccessStores(s, c, at, swept, val, t);
  }

  lemma PublishKeepsEntries(s: State, c: nat, at: int, swept: Entries)
    requires Inv(s) && Enabled(s, Publish(c, at, swept))
    ensures EntriesInv(AfterPublish(s, c, at, swept))
  {
    match s.calls[s.callers[c].call].outcome.value
    case Ok(val) =>
      SweptLeavesRoom(s.entries, s.now, swept);
      PublishGrowsCalls(s, c, at, swept);
      PublicationIsRecorded(s, c, at, swept, val);
      SuccessKeepsEntries(s, c, at, swept, val, AfterPublish(s, c, at, swept));
    case Err(_) => FailureKeepsEntries(s, c, at, swept);
  }

  lemma PublishKeepsInv(s: State, c: nat, at: int, swept: Entries)
    requires Inv(s) && Enabled(s, Publish(c, at, swept))
    ensures Inv(AfterPublish(s, c, at, swept))
  {
    PublishKeepsCalls(s, c, at, swept);
    PublishKeepsInflight(s, c, at, swept);
    PublishKeepsEntries(s, c, at, swept);
    assert CallerInv(s, c) && CallInv(s, s.callers[c].call);
  }

  /** Time passing, and callers arriving. */
  lemma OutsideKeepsInv(s: State, a: Action)
    requires Inv(s) && Enabled(s, a) && (a.Tick? || a.Arrive?)
    ensures Inv(Apply(s, a))
  {
    var t := Apply(s, a);
    forall id | 0 <= id < |s.calls|
      ensures CallInv(t, id)
    {
      assert CallInv(s, id);
    }
    OthersKeep(s, t, |s.callers|);
    EntriesKeep(s, t);
  }

  /** A caller that leads nothing finishes. */
  lemma FinishKeepsInv(s: State, a: Action)
    requires Inv(s) && Enabled(s, a) && (a.CountHit? || a.Wake? || a.BypassReturns?)
    ensures Inv(Apply(s, a))
  {
    assert CallerInv(s, a.c);
    OthersLeadNothing(s, a.c);
    if a.CountHit? {
      HitBackedGrows(s, Apply(s, a), s.callers[a.c].key, s.callers[a.c].val, s.callers[a.c].at);
    }
    MoveKeepsInv(s, Apply(s, a), a.c);
  }

  lemma StepKeepsInv(s: State, a: Action)
    requires Inv(s) && Enabled(s, a)
    ensures Inv(Apply(s, a))
  {
    match a
    case Lookup(c) => LookupKeepsInv(s, c);
    case EnterFn(_) => LeaderStepKeepsInv(s, a);
    case FnReturns(_, _) => LeaderStepKeepsInv(s, a);
    case Publish(c, t, swept) => PublishKeepsInv(s, c, t, swept);
    case Tick(_) => OutsideKeepsInv(s, a);
    case Arrive(_) => OutsideKeepsInv(s, a);
    case _ => FinishKeepsInv(s, a);
  }
}
