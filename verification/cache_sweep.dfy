/**
 * What one pass of the cache's sweep does to the entry map, for any map-iteration order,
 * and how the scan for the entry closest to expiry behaves on its "none yet" sentinel.
 */
module CacheSweep {
  import opened CostTypes

  const MAX_CACHE_ENTRIES := 256

  datatype Entry = Entry(val: Value, exp: int)

  type Entries = map<string, Entry>

  /** The lookup serves an entry strictly before its expiry ... */
  predicate Fresh(e: Entry, now: int) {
    now < e.exp
  }

  /** ... and the sweep drops it strictly after: at the very instant it is neither. */
  predicate Expired(e: Entry, now: int) {
    now > e.exp
  }

  function Unexpired(m: Entries, now: int): Entries {
    map k | k in m && !Expired(m[k], now) :: m[k]
  }

  ghost predicate IsOldest(k: string, m: Entries) {
    k in m && forall j :: j in m ==> m[k].exp <= m[j].exp
  }

  /** Every dropped unexpired entry expires no later than every kept one. */
  ghost predicate OldestFirst(m: Entries, kept: Entries) {
    forall k, j :: k in m && k !in kept && j in kept && j in m ==> m[k].exp <= m[j].exp
  }

  /** The whole effect of a sweep at time `now`: ties may be broken either way. */
  ghost predicate Swept(before: Entries, now: int, after: Entries) {
    var live := Unexpired(before, now);
    && after.Keys <= live.Keys
    && (forall k :: k in after ==> after[k] == before[k])
    && |after| == (if |live| < MAX_CACHE_ENTRIES then |live| else MAX_CACHE_ENTRIES - 1)
    && ("" !in before ==> OldestFirst(live, after))
  }

  lemma KeyCount(m: Entries)
    ensures |m| == |m.Keys|
  {
    assert m.Keys == set k | k in m :: k;
  }

  lemma LoneKey(m: Entries, k: string)
    requires k in m && |m| < 2
    ensures forall j :: j in m ==> j == k
  {
    KeyCount(m);
    assert |m.Keys| == |m.Keys - {k}| + |{k}|;
    assert m.Keys - {k} == {};
  }

  lemma SubmapCount(a: Entries, b: Entries)
    requires a.Keys <= b.Keys
    ensures |a| <= |b|
    ensures |a| == |b| ==> a.Keys == b.Keys
  {
    KeyCount(a);
    KeyCount(b);
    var gone := b.Keys - a.Keys;
    assert b.Keys == a.Keys + gone;
    assert |b.Keys| == |a.Keys| + |gone|;
  }

  lemma {:induction false} OldestExists(m: Entries) returns (k: string)
    requires m != map[]
    ensures IsOldest(k, m)
    decreases |m|
  {
    var x :| x in m;
    var rest := m - {x};
    if rest == map[] {
      k := x;
      assert forall j :: j in m ==> j == x || j in rest;
    } else {
      SubmapCount(rest, m);
      var y := OldestExists(rest);
      k := if m[x].exp <= m[y].exp then x else y;
      assert forall j :: j in m ==> j == x || j in rest;
    }
  }

  /** A sweep can always be carried out: some outcome fits its specification. */
  lemma SweepPossible(before: Entries, now: int) returns (after: Entries)
    ensures Swept(before, now, after)
  {
    var live := Unexpired(before, now);
    after := live;
    while |after| >= MAX_CACHE_ENTRIES
      invariant after.Keys <= live.Keys
      invariant forall k :: k in after ==> after[k] == before[k]
      invariant |after| == |live| || MAX_CACHE_ENTRIES - 1 <= |after| <= |live|
      invariant OldestFirst(live, after)
    {
      var k := OldestExists(after);
      SubmapCount(after - {k}, after);
      KeyCount(after);
      KeyCount(after - {k});
      assert (after - {k}).Keys == after.Keys - {k};
      after := after - {k};
    }
  }

  // ----- the scan for a victim -----

  /** The scan's two variables; key "" means that nothing has been seen yet. */
  datatype Candidate = Candidate(key: string, exp: int)

  /** One turn of the scan. */
  function Better(best: Candidate, k: string, exp: int): Candidate {
    if best.key == "" || exp < best.exp then Candidate(k, exp) else best
  }

  /** The value of the scan after ranging over `order`. */
  ghost function Scan(order: seq<string>, m: Entries): Candidate
    requires forall k :: k in order ==> k in m
  {
    if order == [] then Candidate("", 0)
    else
      var seen := order[..|order| - 1];
      var k := order[|order| - 1];
      Better(Scan(seen, m), k, m[k].exp)
  }

  ghost predicate Distinct(order: seq<string>) {
    forall i, j :: 0 <= i < j < |order| ==> order[i] != order[j]
  }

  /** A map may be ranged over in any order. */
  ghost predicate IsOrderOf(order: seq<string>, m: Entries) {
    Distinct(order) && forall k :: k in order <==> k in m
  }

  lemma SplitLast(order: seq<string>) returns (seen: seq<string>, k: string)
    requires order != [] && Distinct(order)
    ensures seen == order[..|order| - 1] && k == order[|order| - 1] && order == seen + [k]
    ensures Distinct(seen) && k !in seen
  {
    seen, k := order[..|order| - 1], order[|order| - 1];
  }

  ghost predicate OldestSoFar(k: string, order: seq<string>, m: Entries) {
    k in order && k in m && forall j :: j in order && j in m ==> m[k].exp <= m[j].exp
  }

  /** The empty key expires strictly before every other key seen ... */
  ghost predicate EmptyIsFirst(order: seq<string>, m: Entries) {
    "" in m && forall k :: k in order && k in m && k != "" ==> m[""].exp < m[k].exp
  }

  /** ... and is not alone. */
  ghost predicate SentinelTrap(order: seq<string>, m: Entries) {
    "" in order && EmptyIsFirst(order, m) && exists k :: k in order && k != ""
  }

  /** What the scan can hold: a real candidate, which is the oldest seen or else has passed over the empty key. */
  ghost predicate ScanOutcome(c: Candidate, order: seq<string>, m: Entries) {
    && c.key in order && c.key in m && c.exp == m[c.key].exp
    && (OldestSoFar(c.key, order, m) || (SentinelTrap(order, m) && c.key != ""))
  }

  /** One more entry, with the empty key still strictly the oldest: it is passed over. */
  lemma ScanTrapped(seen: seq<string>, k: string, m: Entries, c: Candidate)
    requires "" in seen && EmptyIsFirst(seen, m) && k in m && k != "" && m[""].exp < m[k].exp
    requires c.key in seen + [k] && c.key in m && c.exp == m[c.key].exp && c.key != ""
    ensures ScanOutcome(c, seen + [k], m)
  {
    assert k in seen + [k];
  }

  /** One more entry that expires no later than any seen before. */
  lemma ScanFirst(seen: seq<string>, k: string, m: Entries, best: string)
    requires OldestSoFar(best, seen, m) && k in m && m[k].exp <= m[best].exp
    ensures ScanOutcome(Candidate(k, m[k].exp), seen + [k], m)
  {
    assert k in seen + [k];
  }

  lemma EmptyIsOldest(seen: seq<string>, m: Entries)
    requires "" in seen && EmptyIsFirst(seen, m)
    ensures OldestSoFar("", seen, m)
  {
  }

  lemma ScanStep(seen: seq<string>, k: string, m: Entries, best: Candidate)
    requires k in m && k !in seen && ScanOutcome(best, seen, m)
    requires best.key == "" ==> EmptyIsFirst(seen, m)
    ensures ScanOutcome(Better(best, k, m[k].exp), seen + [k], m)
    ensures Better(best, k, m[k].exp).key == "" ==> EmptyIsFirst(seen + [k], m)
  {
    if "" in seen && EmptyIsFirst(seen, m) {
      EmptyIsOldest(seen, m);
      if m[""].exp < m[k].exp {
        ScanTrapped(seen, k, m, Better(best, k, m[k].exp));
      } else {
        ScanFirst(seen, k, m, "");
      }
    } else if m[k].exp < best.exp {
      ScanFirst(seen, k, m, best.key);
    }
  }

  /** The scan rests on the empty key only while that key is strictly the oldest seen. */
  lemma {:induction false} ScanIsOldestUnlessTrapped(order: seq<string>, m: Entries)
    requires order != [] && Distinct(order)
    requires forall k :: k in order ==> k in m
    ensures ScanOutcome(Scan(order, m), order, m)
    ensures Scan(order, m).key == "" ==> EmptyIsFirst(order, m)
  {
    var seen, k := SplitLast(order);
    if seen == [] {
      ScanOne(k, m);
    } else {
      ScanIsOldestUnlessTrapped(seen, m);
      ScanStep(seen, k, m, Scan(seen, m));
    }
  }

  lemma ScanOne(k: string, m: Entries)
    requires k in m
    ensures ScanOutcome(Candidate(k, m[k].exp), [k], m) && (k == "" ==> EmptyIsFirst([k], m))
  {
  }

  lemma {:induction false} OrderExists(m: Entries) returns (order: seq<string>)
    ensures IsOrderOf(order, m)
    decreases |m|
  {
    if m == map[] {
      order := [];
    } else {
      var k :| k in m;
      SubmapCount(m - {k}, m);
      assert k !in m - {k};
      var rest := OrderExists(m - {k});
      order := [k] + rest;
      assert forall j :: j in order <==> j == k || j in rest;
    }
  }

  /** The empty key is stored next to others that all expire strictly later. */
  ghost predicate EmptyKeyTrap(m: Entries) {
    && "" in m && |m| >= 2
    && forall k :: k in m && k != "" ==> m[""].exp < m[k].exp
  }

  /** Ranging over the empty key first makes the scan forget it. */
  lemma TrappedScan(m: Entries) returns (order: seq<string>)
    requires EmptyKeyTrap(m)
    ensures IsOrderOf(order, m) && !IsOldest(Scan(order, m).key, m)
  {
    DropOne(m, "");
    var rest := OrderExists(m - {""});
    order := [""] + rest;
    assert forall j :: j in order <==> j == "" || j in rest;
    ScanIsOldestUnlessTrapped(order, m);
    var last := order[|order| - 1];
    assert last in m && last != "";
    ScanEndsElsewhere(order, m);
  }

  /** A scan that ends on another key does not rest on the empty one. */
  lemma ScanEndsElsewhere(order: seq<string>, m: Entries)
    requires order != [] && Distinct(order) && order[|order| - 1] != ""
    requires forall k :: k in order ==> k in m
    ensures Scan(order, m).key != ""
  {
  }

  lemma UntrappedScan(order: seq<string>, m: Entries)
    requires m != map[] && IsOrderOf(order, m) && !EmptyKeyTrap(m)
    ensures IsOldest(Scan(order, m).key, m)
  {
    var k :| k in m;
    assert k in order;
    ScanIsOldestUnlessTrapped(order, m);
    if "" in m && |m| < 2 {
      LoneKey(m, "");
    }
  }

  /**
   * The scan finds an entry closest to expiry, whatever the iteration order, exactly when the
   * empty key is not stored next to others that all expire strictly later.
   */
  lemma ScanFindsOldestIff(m: Entries)
    requires m != map[]
    ensures (forall order :: IsOrderOf(order, m) ==> IsOldest(Scan(order, m).key, m)) <==> !EmptyKeyTrap(m)
  {
    if EmptyKeyTrap(m) {
      var order := TrappedScan(m);
    } else {
      forall order | IsOrderOf(order, m)
        ensures IsOldest(Scan(order, m).key, m)
      {
        UntrappedScan(order, m);
      }
    }
  }

  /** Some order of ranging over the map makes the scan end on this key. */
  ghost predicate ScanMayYield(k: string, m: Entries) {
    exists order :: IsOrderOf(order, m) && Scan(order, m).key == k
  }

  /** Whatever the keys, the scan of a non-empty map names one of its entries. */
  lemma ScanYieldsAKey(oldestKey: string, m: Entries)
    requires m != map[] && ScanMayYield(oldestKey, m)
    ensures oldestKey in m
  {
    var order :| IsOrderOf(order, m) && Scan(order, m).key == oldestKey;
    var k :| k in m;
    assert k in order;
    ScanIsOldestUnlessTrapped(order, m);
  }

  lemma AddOne(m: Entries, k: string, e: Entry)
    requires k !in m
    ensures |m[k := e]| == |m| + 1
  {
    KeyCount(m);
    KeyCount(m[k := e]);
    assert m[k := e].Keys == m.Keys + {k};
  }

  lemma DropOne(m: Entries, k: string)
    requires k in m
    ensures |m - {k}| == |m| - 1
  {
    KeyCount(m);
    KeyCount(m - {k});
    assert (m - {k}).Keys == m.Keys - {k};
  }

  /** With non-empty keys, which is all the service ever uses, the scan is always right. */
  lemma ScanFindsOldest(oldestKey: string, m: Entries)
    requires m != map[] && "" !in m && ScanMayYield(oldestKey, m)
    ensures IsOldest(oldestKey, m)
  {
    var order :| IsOrderOf(order, m) && Scan(order, m).key == oldestKey;
    UntrappedScan(order, m);
  }

  // ----- the eviction loop as a whole -----

  /** One scan's victim after another goes, until the cap leaves room for one. */
  ghost predicate EvictsTo(m: Entries, after: Entries)
    decreases |m|
  {
    if |m| < MAX_CACHE_ENTRIES then after == m
    else exists k :: k in m && ScanMayYield(k, m) && (DropOne(m, k); EvictsTo(m - {k}, after))
  }

  /** What the code's own sweep can make of a map: drop the expired, then scan and evict. */
  ghost predicate SweepOutcome(before: Entries, now: int, after: Entries) {
    EvictsTo(Unexpired(before, now), after)
  }

  lemma EvictionStep(m: Entries, k: string, after: Entries)
    requires |m| >= MAX_CACHE_ENTRIES && k in m && ScanMayYield(k, m) && EvictsTo(m - {k}, after)
    ensures EvictsTo(m, after)
  {
    DropOne(m, k);
  }

  lemma FirstVictim(m: Entries, after: Entries) returns (k: string)
    requires |m| >= MAX_CACHE_ENTRIES && EvictsTo(m, after)
    ensures k in m && ScanMayYield(k, m) && EvictsTo(m - {k}, after)
  {
    k :| k in m && ScanMayYield(k, m) && (DropOne(m, k); EvictsTo(m - {k}, after));
  }

  /** An entry as old as any may be the victim: range over it first. */
  lemma OldestMayGo(m: Entries, k: string)
    requires IsOldest(k, m) && k != ""
    ensures ScanMayYield(k, m)
  {
    var rest := OrderExists(m - {k});
    var order := [k] + rest;
    assert forall j :: j in order <==> j == k || j in rest;
    ScanStaysOnFirst(order, m);
  }

  lemma {:induction false} ScanStaysOnFirst(order: seq<string>, m: Entries)
    requires order != [] && order[0] != ""
    requires forall j :: j in order ==> j in m
    requires forall i :: 0 <= i < |order| ==> m[order[0]].exp <= m[order[i]].exp
    ensures Scan(order, m) == Candidate(order[0], m[order[0]].exp)
  {
    if |order| > 1 {
      var seen := order[..|order| - 1];
      assert seen[0] == order[0];
      ScanStaysOnFirst(seen, m);
    }
  }

  /** Eviction takes entries away, down to 255, and changes none. */
  lemma {:induction false} EvictionTakesAway(m: Entries, after: Entries)
    requires EvictsTo(m, after)
    ensures after.Keys <= m.Keys && forall k :: k in after ==> after[k] == m[k]
    ensures |after| == (if |m| < MAX_CACHE_ENTRIES then |m| else MAX_CACHE_ENTRIES - 1)
    decreases |m|
  {
    if |m| >= MAX_CACHE_ENTRIES {
      var k := FirstVictim(m, after);
      DropOne(m, k);
      EvictionTakesAway(m - {k}, after);
    }
  }

  lemma OldestThenOldest(m: Entries, k: string, after: Entries)
    requires IsOldest(k, m) && k !in after && OldestFirst(m - {k}, after)
    ensures OldestFirst(m, after)
  {
  }

  /** With non-empty keys it takes the oldest. */
  lemma {:induction false} EvictionTakesOldest(m: Entries, after: Entries)
    requires EvictsTo(m, after) && "" !in m
    ensures OldestFirst(m, after)
    decreases |m|
  {
    if |m| >= MAX_CACHE_ENTRIES {
      var k := FirstVictim(m, after);
      DropOne(m, k);
      EvictionTakesAway(m - {k}, after);
      EvictionTakesOldest(m - {k}, after);
      ScanFindsOldest(k, m);
      OldestThenOldest(m, k, after);
    }
  }

  /** Any choice of oldest entries to drop is one the scans can make. */
  lemma {:induction false} EvictionReaches(m: Entries, after: Entries)
    requires "" !in m && after.Keys <= m.Keys && (forall k :: k in after ==> after[k] == m[k])
    requires |after| == (if |m| < MAX_CACHE_ENTRIES then |m| else MAX_CACHE_ENTRIES - 1)
    requires OldestFirst(m, after)
    ensures EvictsTo(m, after)
    decreases |m|
  {
    SubmapCount(after, m);
    if |m| < MAX_CACHE_ENTRIES {
      assert after == m;
    } else {
      var k := OldestDropped(m, after);
      OldestMayGo(m, k);
      DropOne(m, k);
      EvictionReaches(m - {k}, after);
      EvictionStep(m, k, after);
    }
  }

  lemma Missing(a: Entries, b: Entries) returns (j: string)
    requires |a| < |b|
    ensures j in b && j !in a
  {
    if b.Keys <= a.Keys {
      SubmapCount(b, a);
    }
    j :| j in b && j !in a;
  }

  lemma OldestDropped(m: Entries, after: Entries) returns (k: string)
    requires |after| < |m| && OldestFirst(m, after)
    requires after.Keys <= m.Keys && (forall k :: k in after ==> after[k] == m[k])
    ensures IsOldest(k, m) && k !in after
  {
    var j := Missing(after, m);
    var dropped := m - after.Keys;
    assert j in dropped;
    k := OldestExists(dropped);
    assert forall j :: j in m ==> j in after || j in dropped;
  }

  /**
   * With non-empty keys the specification of the sweep and the code's own scans admit exactly
   * the same outcomes.
   */
  lemma SweptIffOutcome(before: Entries, now: int, after: Entries)
    requires "" !in before
    ensures Swept(before, now, after) <==> SweepOutcome(before, now, after)
  {
    var live := Unexpired(before, now);
    if SweepOutcome(before, now, after) {
      EvictionTakesAway(live, after);
      EvictionTakesOldest(live, after);
    }
    if Swept(before, now, after) {
      EvictionReaches(live, after);
    }
  }

  lemma OutcomeIsSwept(before: Entries, now: int, after: Entries)
    requires SweepOutcome(before, now, after)
    ensures Swept(before, now, after)
  {
    EvictionTakesAway(Unexpired(before, now), after);
    if "" !in before {
      EvictionTakesOldest(Unexpired(before, now), after);
    }
  }

  // ----- the sweep in plain terms -----

  /** The entries not expired are those whose time has not run out: at the very instant of expiry it has not. */
  lemma UnexpiredAreInTime(m: Entries, now: int)
    ensures Unexpired(m, now).Keys == set k | k in m && now <= m[k].exp
    ensures |Unexpired(m, now)| == |set k | k in m && now <= m[k].exp|
  {
    KeyCount(Unexpired(m, now));
  }

  /** Nothing that is left has run out, and nothing left has changed. */
  lemma SweepDropsTheExpired(before: Entries, now: int, after: Entries)
    requires Swept(before, now, after)
    ensures forall k :: k in after ==> k in before && after[k] == before[k] && now <= before[k].exp
  {
  }

  /** Below the cap everything in time is left; from the cap on, 255 entries are. */
  lemma SweepCount(before: Entries, now: int, after: Entries)
    requires Swept(before, now, after)
    ensures var n := |set k | k in before && now <= before[k].exp|;
      && |after| == (if n < 256 then n else 255)
      && (n < 256 ==> forall k :: k in before && now <= before[k].exp ==> k in after)
  {
    UnexpiredAreInTime(before, now);
    SubmapCount(after, Unexpired(before, now));
  }

  /** With non-empty keys, what the cap takes expires no later than anything left. */
  lemma SweepTakesTheOldest(before: Entries, now: int, after: Entries)
    requires Swept(before, now, after) && "" !in before
    ensures forall k, j :: k in before && now <= before[k].exp && k !in after && j in after ==>
      j in before && before[k].exp <= before[j].exp
  {
    var live := Unexpired(before, now);
    forall k, j | k in before && now <= before[k].exp && k !in after && j in after
      ensures j in before && before[k].exp <= before[j].exp
    {
      assert k in live && j in live;
    }
  }

  /** A full house with one entry older than all others has no choice: that entry goes. */
  lemma OldestMustGo(m: Entries, now: int, k: string, after: Entries)
    requires "" !in m && |m| == MAX_CACHE_ENTRIES && Unexpired(m, now) == m
    requires k in m && forall j :: j in m && j != k ==> m[k].exp < m[j].exp
    ensures SweepOutcome(m, now, after) <==> after == m - {k}
  {
    DropOne(m, k);
    if SweepOutcome(m, now, after) {
      var victim := FirstVictim(m, after);
      ScanFindsOldest(victim, m);
      DropOne(m, victim);
      assert victim == k;
    }
    if after == m - {k} {
      OldestMayGo(m, k);
      EvictionStep(m, k, after);
    }
  }
}
