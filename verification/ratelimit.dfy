/**
 * The fixed-window rate limiter of src/lib/rate-limit.ts: a table from key
 * to request count and window end.  Every check first sweeps out the
 * windows that have ended.  The clock is a parameter.
 */
module RateLimit {
  datatype Entry = Entry(count: int, resetTime: int)

  datatype RateResult = RateResult(allowed: bool, remaining: int, resetTime: int)

  /** The three `X-RateLimit-*` headers, as numbers. */
  datatype RateHeaders = RateHeaders(limit: int, remaining: int, reset: int)

  /** The default arguments of `checkRateLimit` and `getRateLimitHeaders`: 5 requests a minute. */
  const DefaultMaxRequests: int := 5
  const DefaultWindowMs: int := 60000

  predicate Ended(e: Entry, now: int) { e.resetTime < now }

  /** The table after the sweep at `now`. */
  function Live(m: map<string, Entry>, now: int): (r: map<string, Entry>)
    ensures forall k :: k in r <==> k in m && !Ended(m[k], now)
    ensures forall k :: k in r ==> r[k] == m[k]
  {
    map k | k in m && !Ended(m[k], now) :: m[k]
  }

  /** `checkRateLimit(key, maxRequests, windowMs)` at time `now`: the new table and the answer. */
  function Check(m: map<string, Entry>, key: string, maxRequests: int, windowMs: int, now: int)
    : (map<string, Entry>, RateResult)
  {
    var live := Live(m, now);
    if key !in live || Ended(live[key], now) then
      (live[key := Entry(1, now + windowMs)], RateResult(true, maxRequests - 1, now + windowMs))
    else if live[key].count >= maxRequests then
      (live, RateResult(false, 0, live[key].resetTime))
    else
      var e := live[key].(count := live[key].count + 1);
      (live[key := e], RateResult(true, maxRequests - e.count, e.resetTime))
  }

  /** `Math.ceil(x / 1000)` */
  function CeilThousandths(x: int): (r: int)
    ensures 1000 * (r - 1) < x <= 1000 * r
  {
    (x + 999) / 1000
  }

  class RateLimiter {
    var entries: map<string, Entry>

    constructor()
      ensures entries == map[]
    {
      entries := map[];
    }

    /** `checkRateLimit`: sweep, then open, refuse or count a request for `key`. */
    method CheckRateLimit(key: string, maxRequests: int, windowMs: int, now: int) returns (r: RateResult)
      modifies this
      ensures (entries, r) == Check(old(entries), key, maxRequests, windowMs, now)
    {
      var table := entries;
      var live := table;
      var pending := table.Keys;
      while pending != {}
        invariant pending <= table.Keys
        invariant forall k :: k in live <==> k in table && !(k !in pending && Ended(table[k], now))
        invariant forall k :: k in live ==> live[k] == table[k]
        decreases pending
      {
        var k :| k in pending;
        if Ended(table[k], now) {
          live := live - {k};
        }
        pending := pending - {k};
      }
      assert live == Live(table, now);
      if key !in live || Ended(live[key], now) {
        entries := live[key := Entry(1, now + windowMs)];
        return RateResult(true, maxRequests - 1, now + windowMs);
      }
      var current := live[key];
      if current.count >= maxRequests {
        entries := live;
        return RateResult(false, 0, current.resetTime);
      }
      current := current.(count := current.count + 1);
      entries := live[key := current];
      r := RateResult(true, maxRequests - current.count, current.resetTime);
    }

    /** `getRateLimitHeaders`: consume a request like `checkRateLimit` and report it in whole seconds. */
    method GetRateLimitHeaders(key: string, maxRequests: int, windowMs: int, now: int) returns (h: RateHeaders)
      modifies this
      ensures var (m, r) := Check(old(entries), key, maxRequests, windowMs, now);
              entries == m && h == RateHeaders(maxRequests, r.remaining, CeilThousandths(r.resetTime))
    {
      var r := CheckRateLimit(key, maxRequests, windowMs, now);
      h := RateHeaders(maxRequests, r.remaining, CeilThousandths(r.resetTime));
    }
  }

  /**
   * One check: every ended window is gone; of the others only `key`'s entry
   * may differ; and the three cases of the answer.
   */
  lemma CheckMeaning(m: map<string, Entry>, key: string, maxRequests: int, windowMs: int, now: int)
    ensures var (m', r) := Check(m, key, maxRequests, windowMs, now);
            && (forall k :: k != key ==> (k in m' <==> k in m && !Ended(m[k], now)))
            && (forall k :: k != key && k in m' ==> m'[k] == m[k])
            && key in m'
            && (key !in Live(m, now) ==>
                  m'[key] == Entry(1, now + windowMs) && r == RateResult(true, maxRequests - 1, now + windowMs))
            && (key in Live(m, now) && m[key].count >= maxRequests ==>
                  m'[key] == m[key] && r == RateResult(false, 0, m[key].resetTime))
            && (key in Live(m, now) && m[key].count < maxRequests ==>
                  m'[key] == Entry(m[key].count + 1, m[key].resetTime)
                  && r == RateResult(true, maxRequests - m'[key].count, m[key].resetTime))
  {
  }

  /** The checks of one key at the given times, other keys aside: the table and the number of requests allowed. */
  function Run(m: map<string, Entry>, key: string, maxRequests: int, windowMs: int, nows: seq<int>)
    : (map<string, Entry>, nat)
  {
    if nows == [] then (m, 0)
    else
      var (m1, allowed) := Run(m, key, maxRequests, windowMs, nows[..|nows| - 1]);
      var (m2, r) := Check(m1, key, maxRequests, windowMs, nows[|nows| - 1]);
      (m2, allowed + if r.allowed then 1 else 0)
  }

  function Bound(maxRequests: int): nat {
    if maxRequests < 1 then 1 else maxRequests
  }

  /**
   * Within one window — from a check that finds no live entry, up to the
   * window's end — a key is allowed at most `max(1, maxRequests)` requests,
   * and its count is exactly the number allowed.
   */
  lemma {:induction false} WindowBound(m: map<string, Entry>, key: string, maxRequests: int, windowMs: int,
                                       nows: seq<int>)
    requires |nows| >= 1 && key !in Live(m, nows[0])
    requires forall i :: 0 <= i < |nows| ==> nows[i] <= nows[0] + windowMs
    ensures var (m', allowed) := Run(m, key, maxRequests, windowMs, nows);
            && key in m' && m'[key] == Entry(allowed, nows[0] + windowMs)
            && allowed <= Bound(maxRequests)
    decreases |nows|
  {
    if |nows| > 1 {
      var init := nows[..|nows| - 1];
      WindowBound(m, key, maxRequests, windowMs, init);
      var (m1, allowed) := Run(m, key, maxRequests, windowMs, init);
      CheckMeaning(m1, key, maxRequests, windowMs, nows[|nows| - 1]);
    }
  }

  /**
   * With the default arguments a key opening a window has 4 requests left
   * until one minute later, and is allowed at most 5 requests in that minute.
   */
  lemma DefaultLimits(m: map<string, Entry>, key: string, nows: seq<int>)
    requires |nows| >= 1 && key !in Live(m, nows[0])
    requires forall i :: 0 <= i < |nows| ==> nows[i] <= nows[0] + 60000
    ensures Check(m, key, DefaultMaxRequests, DefaultWindowMs, nows[0]).1 == RateResult(true, 4, nows[0] + 60000)
    ensures Run(m, key, DefaultMaxRequests, DefaultWindowMs, nows).1 <= 5
  {
    CheckMeaning(m, key, DefaultMaxRequests, DefaultWindowMs, nows[0]);
    WindowBound(m, key, DefaultMaxRequests, DefaultWindowMs, nows);
  }
}
