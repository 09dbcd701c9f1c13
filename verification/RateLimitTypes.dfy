/** Limits, results and configuration shared by the two Redis-backed limiters. */
module RateLimitTypes {
  import opened Redis
  import opened CircuitBreaker

  /** The arguments `maxRequests` and `windowMs` of a check. */
  datatype Limit = Limit(maxRequests: int, windowMs: int) {
    /** The rounded-up TTL cannot be observed: nothing is ever admitted, the window is
        empty, or the key outlives the window. */
    predicate TtlHarmless(ttlBuffer: int) {
      maxRequests <= 0 || windowMs <= 0 || TtlCovers(windowMs, ttlBuffer)
    }

    /** A negative limit admits as little as zero. */
    function Capacity(): (c: nat)
      ensures c >= maxRequests && (c == 0 || c == maxRequests)
    {
      if maxRequests < 0 then 0 else maxRequests
    }
  }

  /** `RateLimitResult` without its display fields (algorithm, cached, responseTime). */
  datatype RateLimitResult = RateLimitResult(allowed: bool, totalHits: int, remaining: int, resetTime: int,
                                             windowStart: int, windowEnd: int, limit: int, retryAfter: int)

  /** `createBlockedResult` */
  function Blocked(lim: Limit, now: nat): RateLimitResult {
    RateLimitResult(false, lim.maxRequests, 0, now + lim.windowMs, now - lim.windowMs, now + lim.windowMs,
                    lim.maxRequests, CeilDiv(lim.windowMs, 1000))
  }

  function Allowed(lim: Limit, now: nat, hits: nat): RateLimitResult {
    RateLimitResult(true, hits, if lim.maxRequests < hits then 0 else lim.maxRequests - hits, now + lim.windowMs,
                    now - lim.windowMs, now + lim.windowMs, lim.maxRequests, 0)
  }

  /** One limiter object's settings, and the limit every caller of a key passes for it. */
  datatype Config = Config(policy: Policy, ttlBuffer: int, limits: string -> Limit)
}
