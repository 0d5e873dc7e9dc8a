/**
 * What holds of whole runs of the cache, under every interleaving: coalescing, coherent
 * answers, no loss of live entries, the bound on paid upstream calls, progress, counters.
 */
module CacheRuns {
  import opened Wrappers
  import opened CostTypes
  import opened CacheSweep
  import opened CacheProtocol
  import opened Sums

  ghost predicate IsRun(s: State, acts: seq<Action>)
    decreases |acts|
  {
    acts == [] || (Enabled(s, acts[0]) && IsRun(Apply(s, acts[0]), acts[1..]))
  }

  ghost function EndOf(s: State, acts: seq<Action>): State
    requires IsRun(s, acts)
    decreases |acts|
  {
    if acts == [] then s else EndOf(Apply(s, acts[0]), acts[1..])
  }

  // ----- runs of fn for one key never overlap -----

  ghost predicate Failed(call: Call) {
    call.outcome.Some? && call.outcome.value.Err?
  }

  /** Of two calls for one key, the earlier was retired before the later was registered. */
  ghost predicate InSeries(earlier: Call, later: Call) {
    earlier.key == later.key ==> earlier.ended.Some? && earlier.ended.value <= later.reg
  }

  ghost predicate Serial(s: State) {
    forall i, j :: 0 <= i < j < |s.calls| ==> InSeries(s.calls[i], s.calls[j])
  }

  /** A step leaves a call's key and registration, and its whole record once it has ended. */
  lemma CallIsKept(s: State, a: Action, id: nat)
    requires Inv(s) && Enabled(s, a) && id < |s.calls|
    ensures id < |Apply(s, a).calls|
    ensures Apply(s, a).calls[id].key == s.calls[id].key && Apply(s, a).calls[id].reg == s.calls[id].reg
    ensures s.calls[id].ended.Some? ==> Apply(s, a).calls[id] == s.calls[id]
  {
    assert CallInv(s, id);
    match a
    case EnterFn(c) => assert CallerInv(s, c);
    case FnReturns(c, _) => assert CallerInv(s, c);
    case Publish(c, _, _) => assert CallerInv(s, c);
    case _ =>
  }

  /** Only a lookup adds a call, for its caller's key and one at a time. */
  lemma CallIsBorn(s: State, a: Action, id: nat)
    requires Enabled(s, a) && |s.calls| <= id < |Apply(s, a).calls|
    ensures a.Lookup? && id == |s.calls|
    ensures s.callers[a.c].key !in s.inflight && s.ttl > 0
    ensures s.callers[a.c].key in s.entries ==> !Fresh(s.entries[s.callers[a.c].key], s.now)
    ensures Apply(s, a).calls[id] == Call(s.callers[a.c].key, a.c, s.now, None, None, None)
  {
  }

  /** A caller registers only once every earlier call for its key has ended. */
  lemma EndedBeforeBirth(s: State, id: nat, key: string)
    requires Inv(s) && id < |s.calls| && s.calls[id].key == key && key !in s.inflight
    ensures s.calls[id].ended.Some? && s.calls[id].ended.value <= s.now && s.calls[id].outcome.Some?
  {
    assert CallInv(s, id);
  }

  lemma PairStaysInSeries(s: State, a: Action, i: nat, j: nat)
    requires Inv(s) && Serial(s) && Enabled(s, a) && i < j < |Apply(s, a).calls|
    ensures InSeries(Apply(s, a).calls[i], Apply(s, a).calls[j])
  {
    if j < |s.calls| {
      assert InSeries(s.calls[i], s.calls[j]);
      CallIsKept(s, a, i);
      CallIsKept(s, a, j);
    } else {
      CallIsBorn(s, a, j);
      CallIsKept(s, a, i);
      if s.calls[i].key == s.callers[a.c].key {
        EndedBeforeBirth(s, i, s.calls[i].key);
      }
    }
  }

  lemma StepKeepsSerial(s: State, a: Action)
    requires Inv(s) && Serial(s) && Enabled(s, a)
    ensures Serial(Apply(s, a))
  {
    forall i, j | 0 <= i < j < |Apply(s, a).calls|
      ensures InSeries(Apply(s, a).calls[i], Apply(s, a).calls[j])
    {
      PairStaysInSeries(s, a, i, j);
    }
  }

  // ----- live entries and the spacing of paid calls -----

  ghost predicate Succeeded(call: Call) {
    call.outcome.Some? && call.outcome.value.Ok? && call.ended.Some?
  }

  ghost predicate KeptIfLive(s: State, id: nat)
    requires id < |s.calls|
  {
    var call := s.calls[id];
    Succeeded(call) && s.now < call.ended.value + s.ttl ==>
      && call.key in s.entries
      && s.entries[call.key] == Entry(call.outcome.value.val, call.ended.value + s.ttl)
  }

  /** Every value published less than `ttl` ago is still stored. */
  ghost predicate KeepsLive(s: State) {
    forall id :: 0 <= id < |s.calls| ==> KeptIfLive(s, id)
  }

  /** After a call that did not fail, the next one for the key registers at least `ttl` later. */
  ghost predicate Apart(earlier: Call, later: Call, ttl: int) {
    earlier.key == later.key && !Failed(earlier) ==>
      Succeeded(earlier) && earlier.ended.value + ttl <= later.reg
  }

  ghost predicate Spaced(s: State) {
    forall i, j :: 0 <= i < j < |s.calls| ==> Apart(s.calls[i], s.calls[j], s.ttl)
  }

  ghost predicate KeysWithin(s: State, keys: set<string>) {
    forall c :: 0 <= c < |s.callers| ==> s.callers[c].key in keys
  }

  /** A sweep drops a still-live entry only when 255 others that it keeps are all live too. */
  lemma LiveDroppedOnlyWhenFull(before: Entries, now: int, after: Entries, k: string)
    requires Swept(before, now, after) && "" !in before
    requires k in before && Fresh(before[k], now) && k !in after
    ensures |after| == 255
    ensures forall j :: j in after ==> j in before && Fresh(before[j], now)
  {
    var live := Unexpired(before, now);
    assert k in live;
    if |live| < 256 {
      SubmapCount(after, live);
      assert false;
    }
    forall j | j in after
      ensures j in before && Fresh(before[j], now)
    {
      assert live[k].exp <= after[j].exp;
    }
  }

  lemma StoredKeysAreCallers(s: State, keys: set<string>)
    requires Inv(s) && KeysWithin(s, keys)
    ensures s.entries.Keys <= keys
  {
    forall k | k in s.entries
      ensures k in keys
    {
      assert EntryInv(s.calls, s.ttl, k, s.entries[k]);
      var id :| PublishedBy(s.calls, id, k, s.entries[k].val, s.entries[k].exp - s.ttl);
      assert CallInv(s, id);
    }
  }

  ghost function LiveOthers(m: Entries, key: string, now: int): set<string> {
    set j | j in m && j != key && Fresh(m[j], now)
  }

  lemma FullHouse(before: Entries, now: int, after: Entries, key: string, k: string)
    requires Swept(before, now, after) && "" !in before && |before| <= 256
    requires k in before && Fresh(before[k], now) && k !in after
    requires key in before ==> !Fresh(before[key], now)
    ensures |LiveOthers(before, key, now)| == 256
  {
    LiveDroppedOnlyWhenFull(before, now, after, k);
    var held := after.Keys + {k};
    KeyCount(after);
    KeyCount(before);
    assert |held| == 256;
    SetCount(held, LiveOthers(before, key, now));
    SetCount(LiveOthers(before, key, now), before.Keys);
  }

  /**
   * The cap takes a live entry away only from a full house: publishing `key` drops the live
   * entry of `k` only while 256 live entries for other keys are held.
   */
  lemma LiveEvictedOnlyByFullHouse(s: State, a: Action, k: string)
    requires Inv(s) && Enabled(s, a) && "" !in s.entries
    requires k in s.entries && Fresh(s.entries[k], s.now)
    requires var t := Apply(s, a); !(k in t.entries && t.entries[k] == s.entries[k])
    ensures a.Publish? && s.callers[a.c].key != k
    ensures |LiveOthers(s.entries, s.callers[a.c].key, s.now)| == 256
  {
    OnlyPublishStores(s, a);
    PublisherHasNoLiveEntry(s, a.c);
    assert k != s.callers[a.c].key;
    LostInSweep(s, a.c, a.at, a.swept, k);
    FullHouse(s.entries, s.now, a.swept, s.callers[a.c].key, k);
  }

  lemma OnlyPublishStores(s: State, a: Action)
    requires Enabled(s, a) && Apply(s, a).entries != s.entries
    ensures a.Publish? && s.calls[s.callers[a.c].call].outcome.value.Ok?
  {
  }

  lemma LostInSweep(s: State, c: nat, at: int, swept: Entries, k: string)
    requires Enabled(s, Publish(c, at, swept)) && k in s.entries && k != s.callers[c].key
    requires s.calls[s.callers[c].call].outcome.value.Ok?
    requires var t := AfterPublish(s, c, at, swept); !(k in t.entries && t.entries[k] == s.entries[k])
    ensures k !in swept
  {
  }

  lemma PublisherHasNoLiveEntry(s: State, c: nat)
    requires Inv(s) && ReadyToPublish(s, c)
    ensures s.callers[c].key in s.entries ==> !Fresh(s.entries[s.callers[c].key], s.now)
  {
    assert CallerInv(s, c) && CallInv(s, s.callers[c].call);
    assert s.callers[c].key in s.inflight;
  }

  lemma SetCount<T>(a: set<T>, b: set<T>)
    requires a <= b
    ensures |a| <= |b|
  {
    assert b == a + (b - a);
    assert |b| == |a| + |b - a|;
  }

  lemma OthersAndOne(m: Entries, key: string, now: int, keys: set<string>)
    requires m.Keys <= keys && key in keys
    ensures |LiveOthers(m, key, now)| + 1 <= |keys|
  {
    var others := LiveOthers(m, key, now);
    SetCount(others + {key}, keys);
  }

  /** A live entry is lost only to more than 256 keys in use. */
  lemma EvictionTakesManyKeys(s: State, a: Action, keys: set<string>, k: string)
    requires Inv(s) && Enabled(s, a) && KeysWithin(s, keys) && "" !in keys
    requires k in s.entries && Fresh(s.entries[k], s.now)
    requires var t := Apply(s, a); !(k in t.entries && t.entries[k] == s.entries[k])
    ensures |keys| > 256
  {
    StoredKeysAreCallers(s, keys);
    LiveEvictedOnlyByFullHouse(s, a, k);
    OthersAndOne(s.entries, s.callers[a.c].key, s.now, keys);
  }

  lemma FewKeysKeepLive(s: State, a: Action, keys: set<string>)
    requires Inv(s) && Enabled(s, a) && KeysWithin(s, keys)
    requires "" !in keys && |keys| <= 256
    ensures LiveEntriesStay(s, Apply(s, a))
  {
    forall k | k in s.entries && Fresh(s.entries[k], s.now)
      ensures k in Apply(s, a).entries && Apply(s, a).entries[k] == s.entries[k]
    {
      if !(k in Apply(s, a).entries && Apply(s, a).entries[k] == s.entries[k]) {
        EvictionTakesManyKeys(s, a, keys, k);
      }
    }
  }

  lemma PublishedCallIsKept(s: State, c: nat, at: int, swept: Entries)
    requires ReadyToPublish(s, c) && s.calls[s.callers[c].call].key == s.callers[c].key
    ensures KeptIfLive(AfterPublish(s, c, at, swept), s.callers[c].call)
  {
    var key, id := s.callers[c].key, s.callers[c].call;
    var done := s.calls[id].(ended := Some(at));
    assert AfterPublish(s, c, at, swept).calls[id] == done;
  }

  /** Only a publication ends a call. */
  lemma EndsOnlyByPublish(s: State, a: Action, id: nat)
    requires Inv(s) && Enabled(s, a) && id < |s.calls| && !(a.Publish? && id == s.callers[a.c].call)
    ensures id < |Apply(s, a).calls| && Apply(s, a).calls[id].ended == s.calls[id].ended
  {
    match a
    case EnterFn(c) =>
    case FnReturns(c, _) =>
    case Publish(c, _, _) => assert Apply(s, a).calls[id] == s.calls[id];
    case _ =>
  }

  /** Every entry that is live is still there after the step. */
  ghost predicate LiveEntriesStay(s: State, t: State) {
    forall k :: k in s.entries && Fresh(s.entries[k], s.now) ==> k in t.entries && t.entries[k] == s.entries[k]
  }

  lemma ClockAndTtl(s: State, a: Action)
    requires Enabled(s, a)
    ensures Apply(s, a).ttl == s.ttl && s.now <= Apply(s, a).now
  {
  }

  lemma LiveCallIsKept(s: State, a: Action, id: nat)
    requires Inv(s) && Enabled(s, a) && id < |s.calls| && !(a.Publish? && id == s.callers[a.c].call)
    requires KeptIfLive(s, id) && LiveEntriesStay(s, Apply(s, a))
    ensures id < |Apply(s, a).calls| && KeptIfLive(Apply(s, a), id)
  {
    ClockAndTtl(s, a);
    CallIsKept(s, a, id);
    EndsOnlyByPublish(s, a, id);
  }

  lemma NewCallIsNotLive(s: State, a: Action, id: nat)
    requires Enabled(s, a) && |s.calls| <= id < |Apply(s, a).calls|
    ensures KeptIfLive(Apply(s, a), id)
  {
    CallIsBorn(s, a, id);
  }

  lemma OwnPublicationIsKept(s: State, a: Action)
    requires Inv(s) && Enabled(s, a) && a.Publish?
    ensures s.callers[a.c].call < |Apply(s, a).calls| && KeptIfLive(Apply(s, a), s.callers[a.c].call)
  {
    assert CallerInv(s, a.c);
    PublishedCallIsKept(s, a.c, a.at, a.swept);
  }

  lemma StepKeepsLive(s: State, a: Action, keys: set<string>)
    requires Inv(s) && KeepsLive(s) && Enabled(s, a) && KeysWithin(s, keys)
    requires "" !in keys && |keys| <= 256
    ensures KeepsLive(Apply(s, a))
  {
    FewKeysKeepLive(s, a, keys);
    forall id | 0 <= id < |Apply(s, a).calls|
      ensures KeptIfLive(Apply(s, a), id)
    {
      if a.Publish? && id == s.callers[a.c].call {
        OwnPublicationIsKept(s, a);
      } else if id < |s.calls| {
        LiveCallIsKept(s, a, id);
      } else {
        NewCallIsNotLive(s, a, id);
      }
    }
  }

  lemma BornApart(s: State, i: nat, key: string, later: Call)
    requires Inv(s) && i < |s.calls| && KeptIfLive(s, i) && s.calls[i].key == key
    requires key !in s.inflight && (key in s.entries ==> !Fresh(s.entries[key], s.now))
    requires later.key == key && later.reg == s.now
    ensures Apart(s.calls[i], later, s.ttl)
  {
    EndedBeforeBirth(s, i, key);
  }

  lemma PairStaysApart(s: State, a: Action, i: nat, j: nat)
    requires Inv(s) && KeepsLive(s) && Spaced(s) && Serial(s) && Enabled(s, a) && i < j < |Apply(s, a).calls|
    ensures Apart(Apply(s, a).calls[i], Apply(s, a).calls[j], s.ttl)
  {
    if j < |s.calls| {
      assert InSeries(s.calls[i], s.calls[j]) && Apart(s.calls[i], s.calls[j], s.ttl);
      CallIsKept(s, a, i);
      CallIsKept(s, a, j);
    } else {
      CallIsBorn(s, a, j);
      CallIsKept(s, a, i);
      if s.calls[i].key == s.callers[a.c].key {
        assert KeptIfLive(s, i);
        EndedBeforeBirth(s, i, s.calls[i].key);
        BornApart(s, i, s.calls[i].key, Apply(s, a).calls[j]);
      }
    }
  }

  lemma StepKeepsSpaced(s: State, a: Action)
    requires Inv(s) && KeepsLive(s) && Spaced(s) && Serial(s) && Enabled(s, a)
    ensures Spaced(Apply(s, a))
  {
    ClockAndTtl(s, a);
    forall i, j | 0 <= i < j < |Apply(s, a).calls|
      ensures Apart(Apply(s, a).calls[i], Apply(s, a).calls[j], s.ttl)
    {
      PairStaysApart(s, a, i, j);
    }
  }

  lemma {:induction false} RunKeepsSpacing(s: State, acts: seq<Action>, keys: set<string>)
    requires IsRun(s, acts) && Inv(s) && Serial(s) && KeepsLive(s) && Spaced(s)
    requires KeysWithin(EndOf(s, acts), keys) && "" !in keys && |keys| <= 256
    ensures KeepsLive(EndOf(s, acts)) && Spaced(EndOf(s, acts)) && KeysWithin(s, keys)
    decreases |acts|
  {
    if acts != [] {
      var t := Apply(s, acts[0]);
      StepsGrow(s, acts[0]);
      StepKeepsInv(s, acts[0]);
      StepKeepsSerial(s, acts[0]);
      KeysOnlyGrow(t, acts[1..], keys);
      assert forall c :: 0 <= c < |s.callers| ==> s.callers[c].key == t.callers[c].key;
      StepKeepsLive(s, acts[0], keys);
      StepKeepsSpaced(s, acts[0]);
      RunKeepsSpacing(t, acts[1..], keys);
    }
  }

  lemma {:induction false} KeysOnlyGrow(s: State, acts: seq<Action>, keys: set<string>)
    requires IsRun(s, acts) && Inv(s) && KeysWithin(EndOf(s, acts), keys)
    ensures KeysWithin(s, keys)
    decreases |acts|
  {
    if acts != [] {
      var t := Apply(s, acts[0]);
      StepsGrow(s, acts[0]);
      StepKeepsInv(s, acts[0]);
      KeysOnlyGrow(t, acts[1..], keys);
      assert forall c :: 0 <= c < |s.callers| ==> s.callers[c].key == t.callers[c].key;
    }
  }

  lemma StoresAmongUnexpired(e: State, c: nat, at: int, swept: Entries)
    requires Enabled(e, Publish(c, at, swept)) && e.calls[e.callers[c].call].outcome.value.Ok?
    ensures var after, key := AfterPublish(e, c, at, swept).entries, e.callers[c].key;
      && (forall k :: k in after && k != key ==> k in e.entries && after[k] == e.entries[k] && e.now <= after[k].exp)
      && key in after && after[key].exp == at + e.ttl
  {
    SweepDropsTheExpired(e.entries, e.now, swept);
  }

  /**
   * Nothing expired survives a publication. In every run, right after a successful fetch is
   * stored, every other entry is one that was stored before and had not run out when the sweep
   * read the clock, and the new entry expires `ttl` after it was stored.
   */
  lemma PublishLeavesNothingExpired(s: State, acts: seq<Action>, c: nat, at: int, swept: Entries)
    requires Init(s) && IsRun(s, acts) && Enabled(EndOf(s, acts), Publish(c, at, swept))
    requires var e := EndOf(s, acts); e.calls[e.callers[c].call].outcome.value.Ok?
    ensures var e, key := EndOf(s, acts), EndOf(s, acts).callers[c].key;
      var after := Apply(e, Publish(c, at, swept)).entries;
      && (forall k :: k in after && k != key ==> k in e.entries && after[k] == e.entries[k] && e.now <= after[k].exp)
      && key in after && after[key].exp == at + e.ttl && |after| <= 256
  {
    RunKeepsInv(s, acts);
    StoresAmongUnexpired(EndOf(s, acts), c, at, swept);
    PublishKeepsEntries(EndOf(s, acts), c, at, swept);
  }

  // ----- main results over runs -----

  /** Every state of every run from a new cache satisfies the invariant and never overlaps runs of one key. */
  lemma {:induction false} RunKeepsInv(s: State, acts: seq<Action>)
    requires IsRun(s, acts) && Inv(s) && Serial(s)
    ensures Inv(EndOf(s, acts)) && Serial(EndOf(s, acts))
    decreases |acts|
  {
    if acts != [] {
      StepKeepsInv(s, acts[0]);
      StepKeepsSerial(s, acts[0]);
      RunKeepsInv(Apply(s, acts[0]), acts[1..]);
    }
  }

  /** A key out on a call has that one call, and nothing servable stored. */
  ghost predicate OneCallPerKey(e: State) {
    && (forall id :: 0 <= id < |e.calls| && e.calls[id].ended.None? ==>
          e.calls[id].key in e.inflight && e.inflight[e.calls[id].key] == id)
    && (forall k :: k in e.inflight ==>
          && e.inflight[k] < |e.calls| && e.calls[e.inflight[k]].key == k
          && e.calls[e.inflight[k]].ended.None?
          && (k in e.entries ==> e.entries[k].exp <= e.now))
  }

  /** Runs of `fn` for one key follow one another. */
  ghost predicate RunsDoNotOverlap(calls: seq<Call>) {
    forall i, j :: 0 <= i < j < |calls| && calls[i].key == calls[j].key && calls[j].start.Some? ==>
      && calls[i].start.Some? && calls[i].ended.Some?
      && calls[i].start.value <= calls[i].ended.value <= calls[j].start.value
  }

  lemma InvGivesSingleFlight(e: State)
    requires Inv(e) && Serial(e)
    ensures OneCallPerKey(e) && RunsDoNotOverlap(e.calls)
  {
    forall id | 0 <= id < |e.calls| && e.calls[id].ended.None?
      ensures e.calls[id].key in e.inflight && e.inflight[e.calls[id].key] == id
    {
      assert CallInv(e, id);
    }
    forall i, j | 0 <= i < j < |e.calls| && e.calls[i].key == e.calls[j].key && e.calls[j].start.Some?
      ensures e.calls[i].start.Some? && e.calls[i].ended.Some?
      ensures e.calls[i].start.value <= e.calls[i].ended.value <= e.calls[j].start.value
    {
      assert CallInv(e, i) && CallInv(e, j) && InSeries(e.calls[i], e.calls[j]);
    }
  }

  /**
   * Single flight. In every reachable state each key has at most one call between registering
   * and publishing; `inflight` names exactly that call; while it is out, nothing servable is
   * stored under the key; and successive runs of `fn` for a key do not overlap in time.
   */
  lemma SingleFlight(s: State, acts: seq<Action>)
    requires Init(s) && IsRun(s, acts)
    ensures OneCallPerKey(EndOf(s, acts)) && RunsDoNotOverlap(EndOf(s, acts).calls)
  {
    RunKeepsInv(s, acts);
    InvGivesSingleFlight(EndOf(s, acts));
  }

  /** The run of `fn` that an answer came from. */
  ghost predicate CameFrom(e: State, c: nat, id: nat)
    requires c < |e.callers| && e.callers[c].Finished?
  {
    && id < |e.calls| && e.calls[id].key == e.callers[c].key
    && e.calls[id].outcome == Some(e.callers[c].outcome)
  }

  /** A successful run for the caller's key, published less than `ttl` before the lookup at `at`. */
  ghost predicate CameFromCache(e: State, c: nat, id: nat, at: int)
    requires c < |e.callers| && e.callers[c].Finished?
  {
    && CameFrom(e, c, id) && Succeeded(e.calls[id])
    && e.calls[id].ended.value <= at < e.calls[id].ended.value + e.ttl
  }

  ghost predicate AnswerIsCoherent(e: State, c: nat)
    requires c < |e.callers| && e.callers[c].Finished?
  {
    match e.callers[c].how
    case Led(id) => CameFrom(e, c, id) && e.calls[id].leader == c
    case Joined(id, at) => CameFrom(e, c, id) && OutAt(e.calls[id], at, e.now)
    case Hit(at) => exists id :: CameFromCache(e, c, id, at)
    case Bypassed => false
  }

  ghost predicate StoredBy(e: State, k: string, id: nat)
    requires k in e.entries
  {
    && id < |e.calls| && e.calls[id].key == k
    && e.calls[id].outcome == Some(Ok(e.entries[k].val))
    && e.calls[id].ended == Some(e.entries[k].exp - e.ttl)
  }

  /**
   * Coherence. Whatever a caller of a caching `do` gets is the outcome of a run of `fn` for its
   * own key: its own run, a run it joined (failures included), which was registered and not yet
   * retired at its lookup, or, flagged as cached, a successful run that published less than `ttl`
   * before the lookup. Failures are never stored, and the map never holds more than 256 entries.
   */
  lemma AnswersAreCoherent(s: State, acts: seq<Action>)
    requires Init(s) && IsRun(s, acts) && s.ttl > 0
    ensures var e := EndOf(s, acts);
      && (forall c :: 0 <= c < |e.callers| && e.callers[c].Finished? ==> AnswerIsCoherent(e, c))
      && (forall k :: k in e.entries ==> exists id :: StoredBy(e, k, id))
      && |e.entries| <= 256
  {
    RunKeepsInv(s, acts);
    TtlIsFixed(s, acts);
    InvGivesCoherence(EndOf(s, acts));
  }

  lemma InvGivesCoherence(e: State)
    requires Inv(e) && e.ttl > 0
    ensures forall c :: 0 <= c < |e.callers| && e.callers[c].Finished? ==> AnswerIsCoherent(e, c)
    ensures forall k :: k in e.entries ==> exists id :: StoredBy(e, k, id)
  {
    forall c | 0 <= c < |e.callers| && e.callers[c].Finished?
      ensures AnswerIsCoherent(e, c)
    {
      assert CallerInv(e, c);
      var p := e.callers[c];
      if p.how.Hit? {
        var id, pub :| PublishedBy(e.calls, id, p.key, p.outcome.val, pub) && pub <= p.how.at < pub + e.ttl;
        assert CameFromCache(e, c, id, p.how.at);
      }
    }
    forall k | k in e.entries
      ensures exists id :: StoredBy(e, k, id)
    {
      assert EntryInv(e.calls, e.ttl, k, e.entries[k]);
      var id :| PublishedBy(e.calls, id, k, e.entries[k].val, e.entries[k].exp - e.ttl);
      assert StoredBy(e, k, id);
    }
  }

  lemma {:induction false} TtlIsFixed(s: State, acts: seq<Action>)
    requires IsRun(s, acts)
    ensures EndOf(s, acts).ttl == s.ttl
    decreases |acts|
  {
    if acts != [] {
      TtlIsFixed(Apply(s, acts[0]), acts[1..]);
    }
  }

  /** Any two entries into `fn` for one key, the earlier not failing, are at least `ttl` apart. */
  ghost predicate EntriesOfFnSpaced(calls: seq<Call>, ttl: int) {
    forall i, j :: 0 <= i < j < |calls| ==>
      calls[i].key == calls[j].key && calls[j].start.Some? && !Failed(calls[i]) ==>
        calls[i].start.Some? && calls[i].start.value + ttl <= calls[j].start.value
  }

  /**
   * In a run that uses at most 256 distinct keys, `fn` is entered again for a key only `ttl`
   * or more after an entry that did not fail, whatever the interleaving.
   */
  lemma PaidCallsAreSpaced(s: State, acts: seq<Action>, keys: set<string>)
    requires Init(s) && IsRun(s, acts) && s.ttl > 0
    requires KeysWithin(EndOf(s, acts), keys) && "" !in keys && |keys| <= 256
    ensures EntriesOfFnSpaced(EndOf(s, acts).calls, s.ttl)
  {
    RunKeepsInv(s, acts);
    RunKeepsSpacing(s, acts, keys);
    TtlIsFixed(s, acts);
    SpacedEntries(EndOf(s, acts));
  }

  lemma SpacedEntries(e: State)
    requires Inv(e) && Spaced(e)
    ensures EntriesOfFnSpaced(e.calls, e.ttl)
  {
    forall i, j | 0 <= i < j < |e.calls| && e.calls[i].key == e.calls[j].key
      && e.calls[j].start.Some? && !Failed(e.calls[i])
      ensures e.calls[i].start.Some? && e.calls[i].start.value + e.ttl <= e.calls[j].start.value
    {
      assert CallInv(e, i) && CallInv(e, j) && Apart(e.calls[i], e.calls[j], e.ttl);
    }
  }

  /** How many of the first `n` calls entered `fn` for `key` within [from, from + length] and did not fail. */
  ghost function PaidIn(calls: seq<Call>, n: nat, key: string, from: int, length: nat): nat
    requires n <= |calls|
  {
    if n == 0 then 0 else
      PaidIn(calls, n - 1, key, from, length)
      + if Counts(calls[n - 1], key, from, length) then 1 else 0
  }

  ghost predicate Counts(call: Call, key: string, from: int, length: nat) {
    call.key == key && call.start.Some? && !Failed(call) && from <= call.start.value <= from + length
  }

  lemma {:induction false} SpacedCallsAreFew(calls: seq<Call>, n: nat, key: string, from: int, length: nat, ttl: nat)
    returns (last: nat)
    requires n <= |calls| && PaidIn(calls, n, key, from, length) > 0
    requires EntriesOfFnSpaced(calls, ttl)
    ensures last < n && Counts(calls[last], key, from, length)
    ensures (PaidIn(calls, n, key, from, length) - 1) * ttl <= calls[last].start.value - from
  {
    if Counts(calls[n - 1], key, from, length) {
      last := n - 1;
      if PaidIn(calls, n - 1, key, from, length) > 0 {
        var before := SpacedCallsAreFew(calls, n - 1, key, from, length, ttl);
        var m := PaidIn(calls, n - 1, key, from, length);
        assert m * ttl == (m - 1) * ttl + ttl;
      }
    } else {
      last := SpacedCallsAreFew(calls, n - 1, key, from, length, ttl);
    }
  }

  lemma SpacedBill(calls: seq<Call>, key: string, from: int, length: nat, ttl: nat)
    requires EntriesOfFnSpaced(calls, ttl) && ttl > 0
    ensures PaidIn(calls, |calls|, key, from, length) <= length / ttl + 1
  {
    var n := PaidIn(calls, |calls|, key, from, length);
    if n > 0 {
      var last := SpacedCallsAreFew(calls, |calls|, key, from, length, ttl);
      FewPeriods(n - 1, ttl, length);
    }
  }

  /** The calls counted: entered for the key in that stretch of time, and not failed. */
  ghost function PaidCalls(calls: seq<Call>, n: nat, key: string, from: int, length: nat): set<int>
    requires n <= |calls|
  {
    set id | 0 <= id < n && calls[id].key == key && calls[id].start.Some?
      && from <= calls[id].start.value <= from + length && !(calls[id].outcome.Some? && calls[id].outcome.value.Err?)
  }

  lemma {:induction false} PaidInCounts(calls: seq<Call>, n: nat, key: string, from: int, length: nat)
    requires n <= |calls|
    ensures PaidIn(calls, n, key, from, length) == |PaidCalls(calls, n, key, from, length)|
  {
    if n > 0 {
      PaidInCounts(calls, n - 1, key, from, length);
      var before := PaidCalls(calls, n - 1, key, from, length);
      if Counts(calls[n - 1], key, from, length) {
        assert PaidCalls(calls, n, key, from, length) == before + {n - 1};
      } else {
        assert PaidCalls(calls, n, key, from, length) == before;
      }
    }
  }

  /**
   * The bill: with at most 256 distinct keys in use, any stretch of time of length T sees at
   * most T/ttl + 1 upstream fetches per key that do not fail.
   */
  lemma PaidCallBound(s: State, acts: seq<Action>, keys: set<string>, key: string, from: int, length: nat)
    requires Init(s) && IsRun(s, acts) && s.ttl > 0
    requires KeysWithin(EndOf(s, acts), keys) && "" !in keys && |keys| <= 256
    ensures var calls := EndOf(s, acts).calls;
      |PaidCalls(calls, |calls|, key, from, length)| <= length / s.ttl + 1
  {
    PaidCallsAreSpaced(s, acts, keys);
    SpacedBill(EndOf(s, acts).calls, key, from, length, s.ttl);
    PaidInCounts(EndOf(s, acts).calls, |EndOf(s, acts).calls|, key, from, length);
  }

  lemma FewPeriods(m: nat, ttl: nat, length: nat)
    requires ttl > 0 && m * ttl <= length
    ensures m <= length / ttl
  {
    assert (length / ttl + 1) * ttl == (length / ttl) * ttl + ttl;
    assert (length / ttl + 1) * ttl > length;
  }

  // ----- progress -----

  /** The most steps a caller still has to take. */
  function StepsLeft(p: Pc): int {
    match p
    case Entering(_) => 4
    case Leading(_, _) => 3
    case InFn(_, _) => 2
    case Returned(_, _) => 1
    case GotHit(_, _, _) => 1
    case Waiting(_, _, _) => 1
    case InBypass(_) => 1
    case Finished(_, _, _) => 0
  }

  ghost predicate CallerStep(a: Action) {
    !a.Tick? && !a.Arrive?
  }

  /** No follower waits on a call nobody will close: some caller can always move. */
  lemma SomeCallerCanMove(s: State, c: nat) returns (a: Action)
    requires Inv(s) && c < |s.callers| && !s.callers[c].Finished?
    ensures CallerStep(a) && Enabled(s, a)
  {
    assert CallerInv(s, c);
    match s.callers[c]
    case Entering(_) => a := Lookup(c);
    case GotHit(_, _, _) => a := CountHit(c);
    case Waiting(_, id, _) =>
      assert CallInv(s, id);
      if s.calls[id].outcome.Some? {
        a := Wake(c);
      } else {
        assert CallerInv(s, s.calls[id].leader);
        a := LeaderMoves(s, s.calls[id].leader);
      }
    case Leading(_, _) => a := LeaderMoves(s, c);
    case InFn(_, _) => a := LeaderMoves(s, c);
    case Returned(_, _) => a := LeaderMoves(s, c);
    case InBypass(_) => a := BypassReturns(c, Err("upstream"));
    case Finished(_, _, _) =>
  }

  lemma LeaderMoves(s: State, c: nat) returns (a: Action)
    requires Inv(s) && c < |s.callers|
    requires s.callers[c].Leading? || s.callers[c].InFn? || s.callers[c].Returned?
    ensures CallerStep(a) && Enabled(s, a)
  {
    assert CallerInv(s, c);
    if s.callers[c].Leading? {
      a := EnterFn(c);
    } else if s.callers[c].InFn? {
      a := FnReturns(c, Err("upstream"));
    } else {
      var swept := SweepPossible(s.entries, s.now);
      a := Publish(c, s.now, swept);
    }
  }

  ghost function CallerSteps(acts: seq<Action>): nat {
    if acts == [] then 0 else (if CallerStep(acts[0]) then 1 else 0) + CallerSteps(acts[1..])
  }

  ghost function Arrivals(acts: seq<Action>): nat {
    if acts == [] then 0 else (if acts[0].Arrive? then 1 else 0) + Arrivals(acts[1..])
  }

  /** A caller's step moves that caller alone, and forward. */
  lemma CallerMoves(s: State, a: Action)
    requires Enabled(s, a) && CallerStep(a)
    ensures a.c < |s.callers| == |Apply(s, a).callers|
    ensures Apply(s, a).callers == s.callers[a.c := Apply(s, a).callers[a.c]]
    ensures StepsLeft(Apply(s, a).callers[a.c]) < StepsLeft(s.callers[a.c])
  {
    match a
    case Lookup(c) =>
    case CountHit(c) =>
    case EnterFn(c) =>
    case FnReturns(c, _) =>
    case Publish(c, _, _) =>
    case Wake(c) =>
    case BypassReturns(c, _) =>
  }

  lemma StepSpendsMeasure(s: State, a: Action)
    requires Enabled(s, a)
    ensures var before, after := Sum(s.callers, StepsLeft), Sum(Apply(s, a).callers, StepsLeft);
      if CallerStep(a) then after < before else if a.Arrive? then after == before + 4 else after == before
  {
    var t := Apply(s, a);
    if CallerStep(a) {
      CallerMoves(s, a);
      SumUpdate(s.callers, StepsLeft, a.c, t.callers[a.c]);
    } else if a.Arrive? {
      SumAppend(s.callers, StepsLeft, Entering(a.key));
    }
  }

  /**
   * Every caller is answered: each `do` takes at most four steps, so the steps of any run are
   * bounded by the callers it has, and a state where no caller can move has answered all.
   */
  lemma {:induction false} EveryCallerIsAnswered(s: State, acts: seq<Action>)
    requires Inv(s) && Serial(s) && IsRun(s, acts)
    ensures CallerSteps(acts) + Sum(EndOf(s, acts).callers, StepsLeft)
         <= Sum(s.callers, StepsLeft) + 4 * Arrivals(acts)
    ensures (forall a :: CallerStep(a) ==> !Enabled(EndOf(s, acts), a))
        ==> forall c :: 0 <= c < |EndOf(s, acts).callers| ==> EndOf(s, acts).callers[c].Finished?
    decreases |acts|
  {
    if acts != [] {
      StepSpendsMeasure(s, acts[0]);
      StepKeepsInv(s, acts[0]);
      StepKeepsSerial(s, acts[0]);
      EveryCallerIsAnswered(Apply(s, acts[0]), acts[1..]);
    } else if forall a :: CallerStep(a) ==> !Enabled(s, a) {
      forall c | 0 <= c < |s.callers|
        ensures s.callers[c].Finished?
      {
        if !s.callers[c].Finished? {
          var a := SomeCallerCanMove(s, c);
          assert false;
        }
      }
    }
  }

  // ----- counters -----

  function IsHit(p: Pc): int {
    if p.Finished? && p.how.Hit? then 1 else 0
  }

  function Entered(call: Call): int {
    if call.start.Some? then 1 else 0
  }

  ghost predicate CountersExact(s: State) {
    s.hits == Sum(s.callers, IsHit) && s.misses == Sum(s.calls, Entered)
  }

  lemma StepKeepsHits(s: State, a: Action)
    requires Enabled(s, a)
    ensures Apply(s, a).hits - s.hits == Sum(Apply(s, a).callers, IsHit) - Sum(s.callers, IsHit)
  {
    var t := Apply(s, a);
    if a.Arrive? {
      SumAppend(s.callers, IsHit, Entering(a.key));
    } else if !a.Tick? {
      CallerMoves(s, a);
      SumUpdate(s.callers, IsHit, a.c, t.callers[a.c]);
    }
  }

  lemma LookupEntersNothing(s: State, c: nat)
    requires Enabled(s, Lookup(c))
    ensures AfterLookup(s, c).misses == s.misses
    ensures Sum(AfterLookup(s, c).calls, Entered) == Sum(s.calls, Entered)
  {
    var t := AfterLookup(s, c);
    if |t.calls| > |s.calls| {
      SumAppend(s.calls, Entered, t.calls[|s.calls|]);
    }
  }

  lemma EnterFnCounts(s: State, c: nat)
    requires Inv(s) && Enabled(s, EnterFn(c))
    ensures var t := Apply(s, EnterFn(c));
      t.misses == s.misses + 1 && Sum(t.calls, Entered) == Sum(s.calls, Entered) + 1
  {
    CallStep(s, Apply(s, EnterFn(c)), c);
  }

  lemma LaterStepsCountNothing(s: State, a: Action)
    requires Inv(s) && Enabled(s, a) && (a.FnReturns? || a.Publish?)
    ensures var t := Apply(s, a); t.misses == s.misses && Sum(t.calls, Entered) == Sum(s.calls, Entered)
  {
    CallStep(s, Apply(s, a), a.c);
  }

  lemma StepKeepsMisses(s: State, a: Action)
    requires Inv(s) && Enabled(s, a)
    ensures Apply(s, a).misses - s.misses == Sum(Apply(s, a).calls, Entered) - Sum(s.calls, Entered)
  {
    match a
    case Lookup(c) => LookupEntersNothing(s, c);
    case EnterFn(c) => EnterFnCounts(s, c);
    case FnReturns(_, _) => LaterStepsCountNothing(s, a);
    case Publish(_, _, _) => LaterStepsCountNothing(s, a);
    case _ =>
  }

  /** A leader's step touches its own call record alone, and `fn` is entered once. */
  lemma CallStep(s: State, t: State, c: nat)
    requires Inv(s) && c < |s.callers|
    requires s.callers[c].Leading? || s.callers[c].InFn? || s.callers[c].Returned?
    requires var id := s.callers[c].call;
      |t.calls| == |s.calls| && id < |s.calls| && t.calls == s.calls[id := t.calls[id]]
    ensures Sum(t.calls, Entered) - Sum(s.calls, Entered)
         == Entered(t.calls[s.callers[c].call]) - if s.callers[c].Leading? then 0 else 1
    ensures s.callers[c].Leading? <==> s.calls[s.callers[c].call].start.None?
  {
    var id := s.callers[c].call;
    assert CallerInv(s, c);
    assert CallInv(s, id);
    SumUpdate(s.calls, Entered, id, t.calls[id]);
  }

  lemma StepKeepsCounters(s: State, a: Action)
    requires Inv(s) && Enabled(s, a) && CountersExact(s)
    ensures CountersExact(Apply(s, a))
  {
    StepKeepsHits(s, a);
    StepKeepsMisses(s, a);
  }

  /** The reported counters are exact: hits answered from the cache, misses are runs of `fn`. */
  lemma {:induction false} CountersAreExact(s: State, acts: seq<Action>)
    requires Inv(s) && CountersExact(s) && IsRun(s, acts)
    ensures CountersExact(EndOf(s, acts))
    decreases |acts|
  {
    if acts != [] {
      StepKeepsCounters(s, acts[0]);
      StepKeepsInv(s, acts[0]);
      CountersAreExact(Apply(s, acts[0]), acts[1..]);
    }
  }
}
