/**
 * The cache object. `do` is written as the pieces it runs between taking and releasing the
 * mutex and around `fn`; each piece is proved to be exactly one step of the protocol.
 */
module CacheObject {
  import opened Wrappers
  import opened CostTypes
  import opened CacheSweep
  import opened CacheProtocol

  class Cache {
    const ttl: int
    var entries: Entries
    var inflight: map<string, nat>
    var calls: seq<Call>
    var hits: nat
    var misses: nat

    constructor (ttl: int)
      ensures this.ttl == ttl
      ensures forall now :: Init(View(now, []))
    {
      this.ttl := ttl;
      entries, inflight, calls, hits, misses := map[], map[], [], 0, 0;
    }

    /** The protocol state this object is in, given the clock and where the callers are. */
    ghost function View(now: int, callers: seq<Pc>): State
      reads this
    {
      State(ttl, now, entries, inflight, calls, callers, hits, misses)
    }

    /** The first critical section. */
    method Lookup(key: string, now: int, ghost callers: seq<Pc>, c: nat) returns (next: Pc)
      requires c < |callers| && callers[c] == Entering(key)
      modifies this`inflight, this`calls
      ensures View(now, callers[c := next]) == Apply(old(View(now, callers)), Action.Lookup(c))
    {
      if ttl <= 0 {
        return InBypass(key);
      }
      if key in entries {
        var e := entries[key];
        if now < e.exp {
          return GotHit(key, e.val, now);
        }
      }
      if key in inflight {
        return Waiting(key, inflight[key], now);
      }
      var call := |calls|;
      calls := calls + [Call(key, c, now, None, None, None)];
      inflight := inflight[key := call];
      return Leading(key, call);
    }

    method CountHit(key: string, val: Value, ghost at: int, ghost now: int, ghost callers: seq<Pc>, ghost c: nat)
      requires c < |callers| && callers[c] == GotHit(key, val, at)
      modifies this`hits
      ensures View(now, callers[c := Finished(key, Ok(val), Hit(at))])
           == Apply(old(View(now, callers)), Action.CountHit(c))
    {
      hits := hits + 1;
    }

    /** Count the miss and enter `fn`. */
    method EnterFn(key: string, call: nat, now: int, ghost callers: seq<Pc>, ghost c: nat)
      requires c < |callers| && callers[c] == Leading(key, call) && call < |calls|
      modifies this`misses, this`calls
      ensures View(now, callers[c := InFn(key, call)]) == Apply(old(View(now, callers)), Action.EnterFn(c))
    {
      misses := misses + 1;
      calls := calls[call := calls[call].(start := Some(now))];
    }

    /** `fn` has returned: fill in the call and close its channel. */
    method FnReturns(key: string, call: nat, outcome: Outcome, ghost now: int, ghost callers: seq<Pc>, ghost c: nat)
      requires c < |callers| && callers[c] == InFn(key, call) && call < |calls|
      modifies this`calls
      ensures View(now, callers[c := Returned(key, call)])
           == Apply(old(View(now, callers)), Action.FnReturns(c, outcome))
    {
      calls := calls[call := calls[call].(outcome := Some(outcome))];
    }

    /** The second critical section; the clock is read at `now` by the sweep and at `at` for the expiry. */
    method Publish(key: string, call: nat, now: int, at: int, ghost callers: seq<Pc>, ghost c: nat)
      returns (outcome: Outcome, ghost swept: Entries)
      requires c < |callers| && callers[c] == Returned(key, call) && call < |calls|
      requires calls[call].outcome.Some? && now <= at
      modifies this`inflight, this`entries, this`calls
      ensures Enabled(old(View(now, callers)), Action.Publish(c, at, swept))
      ensures View(at, callers[c := Finished(key, outcome, Led(call))])
           == Apply(old(View(now, callers)), Action.Publish(c, at, swept))
    {
      inflight := inflight - {key};
      outcome := calls[call].outcome.value;
      swept := entries;
      if outcome.Ok? {
        SweepLocked(now);
        swept := entries;
        entries := entries[key := Entry(outcome.val, at + ttl)];
      }
      calls := calls[call := calls[call].(ended := Some(at))];
    }

    /** A follower wakes once the call it joined has closed its channel. */
    method Wake(key: string, call: nat, ghost at: int, ghost now: int, ghost callers: seq<Pc>, ghost c: nat)
      returns (outcome: Outcome)
      requires c < |callers| && callers[c] == Waiting(key, call, at) && call < |calls|
      requires calls[call].outcome.Some?
      ensures View(now, callers[c := Finished(key, outcome, Joined(call, at))])
           == Apply(View(now, callers), Action.Wake(c))
    {
      outcome := calls[call].outcome.value;
    }

    /** Drop expired entries, then evict those closest to expiry until the cap leaves room for one. */
    method SweepLocked(now: int)
      modifies this`entries
      ensures SweepOutcome(old(entries), now, entries)
      ensures Swept(old(entries), now, entries)
      ensures forall k :: k in entries ==>
        k in old(entries) && entries[k] == old(entries)[k] && now <= entries[k].exp
      ensures var n := |set k | k in old(entries) && now <= old(entries)[k].exp|;
        |entries| == if n < 256 then n else 255
    {
      DropExpired(now);
      ghost var live := entries;
      while |entries| >= MAX_CACHE_ENTRIES
        invariant forall after :: EvictsTo(entries, after) ==> EvictsTo(live, after)
        decreases |entries|
      {
        var oldestKey := ScanForOldest();
        ghost var held := entries;
        ScanYieldsAKey(oldestKey, held);
        DropOne(held, oldestKey);
        entries := entries - {oldestKey};
        forall after | EvictsTo(entries, after)
          ensures EvictsTo(live, after)
        {
          EvictionStep(held, oldestKey, after);
        }
      }
      OutcomeIsSwept(old(entries), now, entries);
      SweepDropsTheExpired(old(entries), now, entries);
      SweepCount(old(entries), now, entries);
    }

    /** The first loop of the sweep. */
    method DropExpired(now: int)
      modifies this`entries
      ensures entries == Unexpired(old(entries), now)
      ensures forall k :: k in entries <==> k in old(entries) && now <= old(entries)[k].exp
      ensures forall k :: k in entries ==> entries[k] == old(entries)[k]
    {
      ghost var before := entries;
      var toVisit := entries.Keys;
      while toVisit != {}
        invariant toVisit <= entries.Keys <= before.Keys
        invariant forall k :: k in entries ==> entries[k] == before[k]
        invariant forall k :: k in before ==> (k in entries <==> k in toVisit || !Expired(before[k], now))
        decreases |toVisit|
      {
        var k :| k in toVisit;
        if now > entries[k].exp {
          entries := entries - {k};
        }
        toVisit := toVisit - {k};
      }
    }

    /** Range over the entries in some order, keeping the one closest to expiry. */
    method ScanForOldest() returns (oldestKey: string)
      ensures ScanMayYield(oldestKey, entries)
    {
      oldestKey := "";
      var oldestExp := 0;
      ghost var order: seq<string> := [];
      var toVisit := entries.Keys;
      while toVisit != {}
        invariant toVisit <= entries.Keys
        invariant forall k :: k in order <==> k in entries && k !in toVisit
        invariant forall i, j :: 0 <= i < j < |order| ==> order[i] != order[j]
        invariant Candidate(oldestKey, oldestExp) == Scan(order, entries)
        decreases |toVisit|
      {
        var k :| k in toVisit;
        var e := entries[k];
        if oldestKey == "" || e.exp < oldestExp {
          oldestKey, oldestExp := k, e.exp;
        }
        assert (order + [k])[..|order|] == order;
        order := order + [k];
        toVisit := toVisit - {k};
      }
    }

    /** The three numbers of the health endpoint. */
    method Stats() returns (entryCount: nat, hitCount: nat, missCount: nat)
      ensures entryCount == |entries| && hitCount == hits && missCount == misses
    {
      entryCount, hitCount, missCount := |entries|, hits, misses;
    }
  }
}
