/** The in-memory fixed-window limiter of the sign-up route: one record
    per key in a module-level dictionary, a window that opens on the first
    call after the previous one expired, and a call budget per window.
    The dictionary is a plain object, so a key it has no record for can
    still find one inherited from `Object.prototype`. The clock is a
    parameter. */
module Limiter {

  const DEFAULT_LIMIT := 5
  const DEFAULT_WINDOW_MS := 60 * 1000

  /** A key's record: calls counted in its window, and when it closes. */
  datatype Tracker = Tracker(count: int, expiresAt: int)

  /** A number in a result: a value, `NaN`, or `undefined`. */
  datatype Num = Num(value: int) | NaN | Undefined

  datatype LimitResult = LimitResult(success: bool, remaining: Num, reset: Num)

  /** The properties every plain object inherits from `Object.prototype`.
      Each is truthy, and none has `count` or `expiresAt`. */
  const INHERITED: set<string> := {
    "constructor", "hasOwnProperty", "isPrototypeOf", "propertyIsEnumerable",
    "toString", "toLocaleString", "valueOf", "__proto__",
    "__defineGetter__", "__defineSetter__", "__lookupGetter__", "__lookupSetter__"
  }

  predicate Inherited(ip: string) {
    ip in INHERITED
  }

  /** One call of a fixed-window check over records of its own: its result
      and the dictionary afterwards. A call at exactly `expiresAt` still
      belongs to the old window. */
  function CheckOwn(trackers: map<string, Tracker>, ip: string, limit: int, windowMs: int, now: int)
    : (LimitResult, map<string, Tracker>)
  {
    if ip !in trackers || now > trackers[ip].expiresAt then
      (LimitResult(true, Num(limit - 1), Num(now + windowMs)), trackers[ip := Tracker(1, now + windowMs)])
    else if trackers[ip].count >= limit then
      (LimitResult(false, Num(0), Num(trackers[ip].expiresAt)), trackers)
    else
      (LimitResult(true, Num(limit - (trackers[ip].count + 1)), Num(trackers[ip].expiresAt)),
       trackers[ip := Tracker(trackers[ip].count + 1, trackers[ip].expiresAt)])
  }

  /** The specification of one `rateLimit` call. `trackers[ip]` finds the
      key's own record first; without one, an inherited key finds a truthy
      built-in, so `now > undefined` and `undefined >= limit` are both false
      and the call succeeds with `NaN` left and no reset time. Its `count++`
      lands on the built-in, never in the dictionary. */
  function Check(trackers: map<string, Tracker>, ip: string, limit: int, windowMs: int, now: int)
    : (LimitResult, map<string, Tracker>)
  {
    if ip !in trackers && Inherited(ip) then (LimitResult(true, NaN, Undefined), trackers)
    else CheckOwn(trackers, ip, limit, windowMs, now)
  }

  class RateLimiter {
    /** The own records of the module-level `trackers` object. */
    var trackers: map<string, Tracker>

    constructor()
      ensures trackers == map[]
    {
      trackers := map[];
    }

    /** `rateLimit(ip, limit = 5, windowMs = 60000)`. */
    method RateLimit(ip: string, now: int, limit: int := DEFAULT_LIMIT, windowMs: int := DEFAULT_WINDOW_MS)
      returns (r: LimitResult)
      modifies this
      ensures (r, trackers) == Check(old(trackers), ip, limit, windowMs, now)
    {
      if ip !in trackers && Inherited(ip) {
        return LimitResult(true, NaN, Undefined);
      }
      if ip !in trackers || now > trackers[ip].expiresAt {
        trackers := trackers[ip := Tracker(1, now + windowMs)];
        return LimitResult(true, Num(limit - 1), Num(now + windowMs));
      }
      var record := trackers[ip];
      if record.count >= limit {
        return LimitResult(false, Num(0), Num(record.expiresAt));
      }
      record := record.(count := record.count + 1);
      trackers := trackers[ip := record];
      r := LimitResult(true, Num(limit - record.count), Num(record.expiresAt));
    }
  }

  /** The first call for a key that is neither stored nor inherited, or any
      call strictly after its window, opens a new window of `windowMs` with
      one call counted and succeeds. */
  lemma NewWindowSucceeds(trackers: map<string, Tracker>, ip: string, limit: int, windowMs: int, now: int)
    requires (ip !in trackers && !Inherited(ip)) || (ip in trackers && now > trackers[ip].expiresAt)
    ensures var (r, t) := Check(trackers, ip, limit, windowMs, now);
      r == LimitResult(true, Num(limit - 1), Num(now + windowMs)) && t[ip] == Tracker(1, now + windowMs)
  {
  }

  /** Inside a window a call succeeds exactly while the budget lasts; a
      refused call changes nothing and reports the window's end. */
  lemma InWindowDecision(trackers: map<string, Tracker>, ip: string, limit: int, windowMs: int, now: int)
    requires ip in trackers && now <= trackers[ip].expiresAt
    ensures var (r, t) := Check(trackers, ip, limit, windowMs, now);
      var rec := trackers[ip];
      (r.success <==> rec.count < limit) &&
      r.reset == Num(rec.expiresAt) &&
      (r.success ==> t[ip] == Tracker(rec.count + 1, rec.expiresAt) && r.remaining == Num(limit - t[ip].count)) &&
      (!r.success ==> r.remaining == Num(0) && t == trackers)
  {
  }

  /** A call for an inherited key without a record of its own always
      succeeds, reports `NaN` left and no reset time, and stores nothing. */
  lemma InheritedKeyUnmetered(trackers: map<string, Tracker>, ip: string, limit: int, windowMs: int, now: int)
    requires ip !in trackers && Inherited(ip)
    ensures Check(trackers, ip, limit, windowMs, now) == (LimitResult(true, NaN, Undefined), trackers)
  {
  }

  /** A call touches no other key's record, and adds its own key unless
      the key is inherited and not stored. */
  lemma OtherKeysUntouched(trackers: map<string, Tracker>, ip: string, limit: int, windowMs: int, now: int)
    ensures var t := Check(trackers, ip, limit, windowMs, now).1;
      t.Keys == trackers.Keys + (if ip !in trackers && Inherited(ip) then {} else {ip}) &&
      forall k :: k in trackers && k != ip ==> t[k] == trackers[k]
  {
  }

  /** The number of successes among `rateLimit` calls for one key at the
      given times. */
  function Successes(trackers: map<string, Tracker>, ip: string, limit: int, windowMs: int, times: seq<int>): nat
    decreases |times|
  {
    if times == [] then 0
    else
      var (r, t) := Check(trackers, ip, limit, windowMs, times[0]);
      (if r.success then 1 else 0) + Successes(t, ip, limit, windowMs, times[1..])
  }

  /** The same count for the check over own records only. */
  function OwnSuccesses(trackers: map<string, Tracker>, ip: string, limit: int, windowMs: int, times: seq<int>): nat
    decreases |times|
  {
    if times == [] then 0
    else
      var (r, t) := CheckOwn(trackers, ip, limit, windowMs, times[0]);
      (if r.success then 1 else 0) + OwnSuccesses(t, ip, limit, windowMs, times[1..])
  }

  function Max(a: int, b: int): int { if a >= b then a else b }

  /** Every call for an inherited key without a record succeeds, however
      many there are and whenever they come. */
  lemma {:induction false} InheritedKeyNeverLimited(trackers: map<string, Tracker>, ip: string, limit: int,
                                                    windowMs: int, times: seq<int>)
    requires ip !in trackers && Inherited(ip)
    ensures Successes(trackers, ip, limit, windowMs, times) == |times|
    decreases |times|
  {
    if times != [] {
      InheritedKeyUnmetered(trackers, ip, limit, windowMs, times[0]);
      InheritedKeyNeverLimited(trackers, ip, limit, windowMs, times[1..]);
    }
  }

  /** Six sign-up attempts within one second from the address
      "constructor" all pass the limit of five per minute. */
  lemma ConstructorPassesSixTimes()
    ensures Successes(map[], "constructor", DEFAULT_LIMIT, DEFAULT_WINDOW_MS, [0, 1, 2, 3, 4, 5]) == 6
  {
    InheritedKeyNeverLimited(map[], "constructor", DEFAULT_LIMIT, DEFAULT_WINDOW_MS, [0, 1, 2, 3, 4, 5]);
  }

  /** For a key that is stored or not inherited, the limiter counts like
      the check over own records: after the first call the key is stored. */
  lemma {:induction false} SuccessesOwnKey(trackers: map<string, Tracker>, ip: string, limit: int, windowMs: int,
                                           times: seq<int>)
    requires ip in trackers || !Inherited(ip)
    ensures Successes(trackers, ip, limit, windowMs, times) == OwnSuccesses(trackers, ip, limit, windowMs, times)
    decreases |times|
  {
    if times != [] {
      var (r, t) := CheckOwn(trackers, ip, limit, windowMs, times[0]);
      assert ip in t;
      SuccessesOwnKey(t, ip, limit, windowMs, times[1..]);
    }
  }

  /** Over own records, calls that all fall inside the current window
      succeed at most as often as the budget that is left. */
  lemma {:induction false} InWindowBound(trackers: map<string, Tracker>, ip: string, limit: int, windowMs: int,
                                          times: seq<int>)
    requires ip in trackers
    requires forall i :: 0 <= i < |times| ==> times[i] <= trackers[ip].expiresAt
    ensures OwnSuccesses(trackers, ip, limit, windowMs, times) <= Max(limit - trackers[ip].count, 0)
    decreases |times|
  {
    if times != [] {
      var (r, t) := CheckOwn(trackers, ip, limit, windowMs, times[0]);
      assert t[ip].expiresAt == trackers[ip].expiresAt;
      InWindowBound(t, ip, limit, windowMs, times[1..]);
    }
  }

  /** Over own records, at most `limit` calls per key succeed in one
      window (one, if the limit is below one): a call that opens a window,
      followed by any calls up to its end. */
  lemma OwnAtMostLimitPerWindow(trackers: map<string, Tracker>, ip: string, limit: int, windowMs: int,
                                times: seq<int>)
    requires times != []
    requires ip !in trackers || times[0] > trackers[ip].expiresAt
    requires forall i :: 0 <= i < |times| ==> times[i] <= times[0] + windowMs
    ensures OwnSuccesses(trackers, ip, limit, windowMs, times) <= Max(limit, 1)
  {
    var (r, t) := CheckOwn(trackers, ip, limit, windowMs, times[0]);
    assert t[ip] == Tracker(1, times[0] + windowMs);
    InWindowBound(t, ip, limit, windowMs, times[1..]);
  }

  /** `rateLimit` lets at most `limit` calls per window through for a key
      that is not inherited from `Object.prototype`, or that has a record. */
  lemma AtMostLimitPerWindow(trackers: map<string, Tracker>, ip: string, limit: int, windowMs: int, times: seq<int>)
    requires times != []
    requires (ip !in trackers && !Inherited(ip)) || (ip in trackers && times[0] > trackers[ip].expiresAt)
    requires forall i :: 0 <= i < |times| ==> times[i] <= times[0] + windowMs
    ensures Successes(trackers, ip, limit, windowMs, times) <= Max(limit, 1)
  {
    SuccessesOwnKey(trackers, ip, limit, windowMs, times);
    OwnAtMostLimitPerWindow(trackers, ip, limit, windowMs, times);
  }
}
