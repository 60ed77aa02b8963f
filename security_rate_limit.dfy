/** The limiter behind `rateLimit(key, limit = 10)`: a memory adapter over
    a module-level map with a fixed one-minute window, and a "Redis"
    adapter that for now delegates to a fresh memory adapter, which shares
    the same module-level map. The clock is a parameter. */
module SecurityRateLimit {
  import Limiter

  const WINDOW_MS := 60 * 1000
  const DEFAULT_LIMIT := 10

  datatype Record = Record(count: int, expiresAt: int)

  datatype RateLimitResult = RateLimitResult(success: bool, remaining: int)

  /** The specification of one `check(key, limit)`. */
  function Decide(entries: map<string, Record>, key: string, limit: int, now: int)
    : (RateLimitResult, map<string, Record>)
  {
    if key !in entries || now > entries[key].expiresAt then
      (RateLimitResult(true, limit - 1), entries[key := Record(1, now + WINDOW_MS)])
    else if entries[key].count >= limit then
      (RateLimitResult(false, 0), entries)
    else
      var rec := entries[key].(count := entries[key].count + 1);
      (RateLimitResult(true, limit - rec.count), entries[key := rec])
  }

  /** The module-level `memoryStore` every adapter instance uses. */
  class Store {
    var entries: map<string, Record>

    constructor()
      ensures entries == map[]
    {
      entries := map[];
    }
  }

  class MemoryRateLimiter {
    const store: Store

    constructor(store: Store)
      ensures this.store == store
    {
      this.store := store;
    }

    method Check(key: string, limit: int, now: int) returns (r: RateLimitResult)
      modifies store
      ensures (r, store.entries) == Decide(old(store.entries), key, limit, now)
    {
      if key !in store.entries || now > store.entries[key].expiresAt {
        store.entries := store.entries[key := Record(1, now + WINDOW_MS)];
        return RateLimitResult(true, limit - 1);
      }
      var rec := store.entries[key];
      if rec.count >= limit {
        return RateLimitResult(false, 0);
      }
      rec := rec.(count := rec.count + 1);
      store.entries := store.entries[key := rec];
      r := RateLimitResult(true, limit - rec.count);
    }
  }

  class RedisRateLimiter {
    const store: Store

    constructor(store: Store)
      ensures this.store == store
    {
      this.store := store;
    }

    /** Delegates to a new memory adapter over the same shared map, so it
        decides and updates exactly as the memory adapter does. */
    method Check(key: string, limit: int, now: int) returns (r: RateLimitResult)
      modifies store
      ensures (r, store.entries) == Decide(old(store.entries), key, limit, now)
    {
      var memory := new MemoryRateLimiter(store);
      r := memory.Check(key, limit, now);
    }
  }

  /** The adapter the factory picks: Redis in production, memory otherwise. */
  datatype Adapter = Memory(m: MemoryRateLimiter) | Redis(rd: RedisRateLimiter)

  method MakeRateLimiter(production: bool, store: Store) returns (a: Adapter)
    ensures production ==> a.Redis? && a.rd.store == store
    ensures !production ==> a.Memory? && a.m.store == store
  {
    if production {
      var rd := new RedisRateLimiter(store);
      a := Redis(rd);
    } else {
      var m := new MemoryRateLimiter(store);
      a := Memory(m);
    }
  }

  function AdapterStore(a: Adapter): Store {
    match a
    case Memory(m) => m.store
    case Redis(rd) => rd.store
  }

  /** `rateLimit(key, limit = 10)`: whichever adapter was chosen, the
      decision and the new map are the same. */
  method RateLimit(a: Adapter, key: string, now: int, limit: int := DEFAULT_LIMIT) returns (r: RateLimitResult)
    modifies AdapterStore(a)
    ensures (r, AdapterStore(a).entries) == Decide(old(AdapterStore(a).entries), key, limit, now)
  {
    match a {
      case Memory(m) => r := m.Check(key, limit, now);
      case Redis(rd) => r := rd.Check(key, limit, now);
    }
  }

  function AsTrackers(entries: map<string, Record>): map<string, Limiter.Tracker> {
    map k | k in entries :: Limiter.Tracker(entries[k].count, entries[k].expiresAt)
  }

  /** A `Map` has no inherited keys, so this limiter is the sign-up
      limiter's check over own records at a one-minute window, with the
      reset time dropped; its per-window bound carries over to every key. */
  lemma DecideIsFixedWindowCheck(entries: map<string, Record>, key: string, limit: int, now: int)
    ensures var (r, e) := Decide(entries, key, limit, now);
      var (lr, t) := Limiter.CheckOwn(AsTrackers(entries), key, limit, WINDOW_MS, now);
      r.success == lr.success && lr.remaining == Limiter.Num(r.remaining) && AsTrackers(e) == t
  {
    var (r, e) := Decide(entries, key, limit, now);
    var (lr, t) := Limiter.CheckOwn(AsTrackers(entries), key, limit, WINDOW_MS, now);
    assert AsTrackers(e).Keys == t.Keys;
  }

  /** The number of successes among checks for one key at the given times. */
  function Successes(entries: map<string, Record>, key: string, limit: int, times: seq<int>): nat
    decreases |times|
  {
    if times == [] then 0
    else
      var (r, e) := Decide(entries, key, limit, times[0]);
      (if r.success then 1 else 0) + Successes(e, key, limit, times[1..])
  }

  lemma {:induction false} SuccessesAgree(entries: map<string, Record>, key: string, limit: int, times: seq<int>)
    ensures Successes(entries, key, limit, times) == Limiter.OwnSuccesses(AsTrackers(entries), key, limit, WINDOW_MS, times)
    decreases |times|
  {
    if times != [] {
      DecideIsFixedWindowCheck(entries, key, limit, times[0]);
      var (r, e) := Decide(entries, key, limit, times[0]);
      SuccessesAgree(e, key, limit, times[1..]);
    }
  }

  /** At most `limit` checks per key succeed in one window (one, if the
      limit is below one). */
  lemma AtMostLimitPerWindow(entries: map<string, Record>, key: string, limit: int, times: seq<int>)
    requires times != []
    requires key !in entries || times[0] > entries[key].expiresAt
    requires forall i :: 0 <= i < |times| ==> times[i] <= times[0] + WINDOW_MS
    ensures Successes(entries, key, limit, times) <= Limiter.Max(limit, 1)
  {
    SuccessesAgree(entries, key, limit, times);
    Limiter.OwnAtMostLimitPerWindow(AsTrackers(entries), key, limit, WINDOW_MS, times);
  }
}
