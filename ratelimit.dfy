/** The in-memory rate limiter of lib/ratelimit.ts.

    Each client key owns a window: a count of requests and the instant the
    window ends. A request with no live window opens one and passes; a
    request in a live window passes and is counted while the count is below
    the limit, and is answered 429 otherwise. A periodic sweep drops the
    windows that have ended. The clock is a parameter (`now`, in ms); the
    timer that runs the sweep every five minutes is left to the caller. */
module RateLimit {
  import opened Common

  const DefaultMaxRequests: int := 5
  const DefaultWindowMs: int := 60 * 1000

  datatype Entry = Entry(count: int, resetTime: int)

  /** The 429 answer with its body and headers. */
  datatype LimitResponse = LimitResponse(
    status: int, error: string, retryAfter: int,
    limitHeader: int, remainingHeader: int, resetHeader: int)

  /** The client's address: the first item of x-forwarded-for when it is
      non-empty, else a non-empty x-real-ip, else "unknown". */
  function ClientIp(forwardedFor: Option<string>, realIp: Option<string>): (ip: string)
    ensures forwardedFor.Some? && FirstField(forwardedFor.value, ',') != "" ==> ip == FirstField(forwardedFor.value, ',')
    ensures (forwardedFor.None? || FirstField(forwardedFor.value, ',') == "") && realIp.Some? && realIp.value != ""
            ==> ip == realIp.value
    ensures (forwardedFor.None? || FirstField(forwardedFor.value, ',') == "") && (realIp.None? || realIp.value == "")
            ==> ip == "unknown"
    ensures ip != ""
  {
    if forwardedFor.Some? && FirstField(forwardedFor.value, ',') != "" then FirstField(forwardedFor.value, ',')
    else if realIp.Some? && realIp.value != "" then realIp.value
    else "unknown"
  }

  function ClientKey(forwardedFor: Option<string>, realIp: Option<string>): string
  {
    "ratelimit:" + ClientIp(forwardedFor, realIp)
  }

  /** A non-negative number of milliseconds in whole seconds, rounded up. */
  function CeilSeconds(ms: int): (s: int)
    requires ms >= 0
    ensures s >= 0
    ensures 1000 * (s - 1) < ms <= 1000 * s
  {
    (ms + 999) / 1000
  }

  /** A window that ended strictly before now no longer counts; one ending
      exactly now is still live. */
  predicate Expired(e: Entry, now: int)
  {
    e.resetTime < now
  }

  /** checkRateLimit on the table of windows: the new table and the answer
      (None lets the request through). */
  function Check(entries: map<string, Entry>, key: string, now: int, maxRequests: int, windowMs: int)
    : (map<string, Entry>, Option<LimitResponse>)
  {
    if key !in entries || Expired(entries[key], now) then
      (entries[key := Entry(1, now + windowMs)], None)
    else
      var entry := entries[key];
      if entry.count >= maxRequests then
        var retryAfter := CeilSeconds(entry.resetTime - now);
        (entries, Some(LimitResponse(429, "Too many requests. Please try again later.",
                                     retryAfter, maxRequests, 0, entry.resetTime)))
      else
        (entries[key := Entry(entry.count + 1, entry.resetTime)], None)
  }

  /** The sweep: the table without the windows that have ended. */
  function Swept(entries: map<string, Entry>, now: int): (r: map<string, Entry>)
    ensures forall k :: k in r <==> k in entries && !Expired(entries[k], now)
    ensures forall k :: k in r ==> r[k] == entries[k]
  {
    map k | k in entries && !Expired(entries[k], now) :: entries[k]
  }

  /** The module-level Map and the two operations that change it. */
  class RateLimiter {
    var entries: map<string, Entry>

    constructor ()
      ensures entries == map[]
    {
      entries := map[];
    }

    method CheckRateLimit(forwardedFor: Option<string>, realIp: Option<string>,
                          now: int, maxRequests: int, windowMs: int)
      returns (response: Option<LimitResponse>)
      modifies this
      ensures (entries, response) == Check(old(entries), ClientKey(forwardedFor, realIp), now, maxRequests, windowMs)
    {
      var ip := ClientIp(forwardedFor, realIp);
      var key := "ratelimit:" + ip;
      if key !in entries || entries[key].resetTime < now {
        entries := entries[key := Entry(1, now + windowMs)];
        return None;
      }
      var entry := entries[key];
      if entry.count >= maxRequests {
        var retryAfter := CeilSeconds(entry.resetTime - now);
        return Some(LimitResponse(429, "Too many requests. Please try again later.",
                                  retryAfter, maxRequests, 0, entry.resetTime));
      }
      entries := entries[key := Entry(entry.count + 1, entry.resetTime)];
      response := None;
    }

    /** The body of the five-minute timer, run at time now. */
    method Sweep(now: int)
      modifies this
      ensures entries == Swept(old(entries), now)
    {
      ghost var start := entries;
      var keys := entries.Keys;
      while keys != {}
        invariant keys <= start.Keys
        invariant forall k :: k in entries <==> k in start && (k in keys || !Expired(start[k], now))
        invariant forall k :: k in entries ==> entries[k] == start[k]
        decreases |keys|
      {
        var key :| key in keys;
        if entries[key].resetTime < now {
          entries := entries - {key};
        }
        keys := keys - {key};
      }
    }
  }

  /** A key without a live window gets a fresh window holding this request,
      and the request passes. */
  lemma OpensWindow(entries: map<string, Entry>, key: string, now: int, maxRequests: int, windowMs: int)
    requires key !in entries || entries[key].resetTime < now
    ensures Check(entries, key, now, maxRequests, windowMs).1.None?
    ensures Check(entries, key, now, maxRequests, windowMs).0 == entries[key := Entry(1, now + windowMs)]
  {
  }

  /** In a live window at the limit the request is refused with 429, the
      table is left as it was, and retryAfter is the whole number of seconds
      left, rounded up. */
  lemma RefusesAtLimit(entries: map<string, Entry>, key: string, now: int, maxRequests: int, windowMs: int)
    requires key in entries && entries[key].resetTime >= now && entries[key].count >= maxRequests
    ensures var (after, response) := Check(entries, key, now, maxRequests, windowMs);
            after == entries && response.Some? && response.value.status == 429
            && response.value.retryAfter >= 0
            && 1000 * (response.value.retryAfter - 1) < entries[key].resetTime - now <= 1000 * response.value.retryAfter
  {
  }

  /** Below the limit the request passes and the count grows by exactly one. */
  lemma CountsBelowLimit(entries: map<string, Entry>, key: string, now: int, maxRequests: int, windowMs: int)
    requires key in entries && entries[key].resetTime >= now && entries[key].count < maxRequests
    ensures var (after, response) := Check(entries, key, now, maxRequests, windowMs);
            response.None? && after == entries[key := Entry(entries[key].count + 1, entries[key].resetTime)]
  {
  }

  /** A request touches only its own key's window. */
  lemma OtherKeysUntouched(entries: map<string, Entry>, key: string, now: int, maxRequests: int, windowMs: int, other: string)
    requires other != key
    ensures var after := Check(entries, key, now, maxRequests, windowMs).0;
            (other in after <==> other in entries) && (other in entries ==> after[other] == entries[other])
  {
  }

  /** A sequence of requests from one key, at the given instants: the final
      table and the number of requests let through. */
  function Run(entries: map<string, Entry>, key: string, times: seq<int>, maxRequests: int, windowMs: int)
    : (r: (map<string, Entry>, nat))
    ensures r.1 <= |times|
    decreases |times|
  {
    if times == [] then (entries, 0)
    else
      var (after, response) := Check(entries, key, times[0], maxRequests, windowMs);
      var (final, passed) := Run(after, key, times[1..], maxRequests, windowMs);
      (final, passed + (if response.None? then 1 else 0))
  }

  /** While a live window with count c lasts, at most maxRequests - c more
      requests pass, and the window keeps its end. */
  lemma {:induction false} LiveWindowBound(entries: map<string, Entry>, key: string, times: seq<int>,
                                           maxRequests: int, windowMs: int)
    requires key in entries && entries[key].count <= maxRequests
    requires forall i :: 0 <= i < |times| ==> times[i] <= entries[key].resetTime
    ensures Run(entries, key, times, maxRequests, windowMs).1 <= maxRequests - entries[key].count
    decreases |times|
  {
    if times != [] {
      var after := Check(entries, key, times[0], maxRequests, windowMs).0;
      assert after[key].resetTime == entries[key].resetTime;
      LiveWindowBound(after, key, times[1..], maxRequests, windowMs);
    }
  }

  /** Within one window of one key at most maxRequests requests pass: the
      first request opens the window, and every later request made before
      the window ends is counted against it. */
  lemma AtMostMaxPerWindow(entries: map<string, Entry>, key: string, times: seq<int>,
                           maxRequests: int, windowMs: int)
    requires maxRequests >= 1
    requires |times| > 0
    requires key !in entries || entries[key].resetTime < times[0]
    requires forall i :: 0 <= i < |times| ==> times[i] <= times[0] + windowMs
    ensures Run(entries, key, times, maxRequests, windowMs).1 <= maxRequests
  {
    var after := Check(entries, key, times[0], maxRequests, windowMs).0;
    assert after[key] == Entry(1, times[0] + windowMs);
    forall i | 0 <= i < |times[1..]| ensures times[1..][i] <= after[key].resetTime {
      assert times[1..][i] == times[i + 1];
    }
    LiveWindowBound(after, key, times[1..], maxRequests, windowMs);
  }

  /** With a limit of 0 the first request of a window still passes, since
      opening a window does not consult the limit. */
  lemma ZeroLimitStillPassesFirst(key: string, now: int, windowMs: int)
    ensures Check(map[], key, now, 0, windowMs).1.None?
  {
  }

  /** Sweeping first changes no answer: a window the sweep removes has
      ended, and an ended window is replaced on the next request anyway.
      (With a negative window length a fresh window would itself be one the
      sweep removes, so the tables agree only for windowMs >= 0.) */
  lemma SweepChangesNoAnswer(entries: map<string, Entry>, key: string, now: int, maxRequests: int, windowMs: int)
    requires windowMs >= 0
    ensures Check(Swept(entries, now), key, now, maxRequests, windowMs).1
         == Check(entries, key, now, maxRequests, windowMs).1
    ensures var withSweep := Check(Swept(entries, now), key, now, maxRequests, windowMs).0;
            var without := Check(entries, key, now, maxRequests, windowMs).0;
            withSweep == Swept(without, now)
  {
    var withSweep := Check(Swept(entries, now), key, now, maxRequests, windowMs).0;
    var without := Check(entries, key, now, maxRequests, windowMs).0;
    forall k ensures k in withSweep <==> k in Swept(without, now) {
      if k != key {
        OtherKeysUntouched(entries, key, now, maxRequests, windowMs, k);
        OtherKeysUntouched(Swept(entries, now), key, now, maxRequests, windowMs, k);
      }
    }
    assert withSweep.Keys == Swept(without, now).Keys;
  }
}
