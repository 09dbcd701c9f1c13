/** What both Redis-backed limiters tell their callers, field by field, and what an answer does to
    the breaker. */
module RateLimitAnswers {
  import opened Redis
  import opened CircuitBreaker
  import opened WindowLog
  import opened RateLimitTypes

  /** What every answer says about the window, whoever gives it: a request made now is in the
      windows that end before `resetTime` and in no later one, and the window that ends now reaches
      back to, but not including, `windowStart`. */
  ghost predicate TellsWindow(r: RateLimitResult, lim: Limit, now: nat) {
    && r.limit == lim.maxRequests && r.windowEnd == r.resetTime
    && (forall t: nat, tag :: now <= t ==>
          (InWindow([RequestId(now, tag)], lim.windowMs, t) == 1 <==> t < r.resetTime))
    && forall at: nat, tag :: InWindow([RequestId(at, tag)], lim.windowMs, now) == 1 <==> r.windowStart < at <= now
  }

  /** A denied caller is told that the limit is used up, and how many whole seconds a window takes. */
  predicate TellsToWait(r: RateLimitResult, lim: Limit) {
    && r.totalHits == lim.maxRequests && r.remaining == 0
    && 1000 * r.retryAfter >= lim.windowMs > 1000 * (r.retryAfter - 1)
  }

  /** An allowed caller is told how many requests the set holds, its own included, and how many more
      it would take. */
  predicate TellsCount(r: RateLimitResult, lim: Limit, z: ZSet) {
    && r.totalHits == |z.scores| && r.retryAfter == 0
    && r.remaining == if |z.scores| < lim.maxRequests then lim.maxRequests - |z.scores| else 0
  }

  lemma InWindowOfOne(m: RequestId, windowMs: int, end: int)
    ensures InWindow([m], windowMs, end) == if end - windowMs < m.at <= end then 1 else 0
  {
    assert [m][..0] == [];
    assert InWindow([], windowMs, end) == 0;
  }

  lemma BlockedTells(lim: Limit, now: nat)
    ensures var r := Blocked(lim, now); TellsWindow(r, lim, now) && TellsToWait(r, lim) && !r.allowed
  {
    hide InWindow;
    forall m: RequestId, end: int
      ensures InWindow([m], lim.windowMs, end) == if end - lim.windowMs < m.at <= end then 1 else 0
    {
      InWindowOfOne(m, lim.windowMs, end);
    }
  }

  lemma AllowedTells(lim: Limit, now: nat, z: ZSet)
    ensures var r := Allowed(lim, now, z.Card()); TellsWindow(r, lim, now) && TellsCount(r, lim, z) && r.allowed
  {
    hide InWindow;
    forall m: RequestId, end: int
      ensures InWindow([m], lim.windowMs, end) == if end - lim.windowMs < m.at <= end then 1 else 0
    {
      InWindowOfOne(m, lim.windowMs, end);
    }
  }

  /** A call that is turned away leaves the breaker alone; an allowed one leaves it closed, and with
      no failures if it was not closed before. */
  predicate SettlesBreaker(p: Policy, before: Breaker, after: Breaker, now: nat, allowed: bool) {
    if before.mode.Open? && now - before.lastFailureTime < p.recoveryTimeout then after == before && !allowed
    else if allowed then after == Breaker(Closed, if before.mode.Closed? then before.failureCount else 0,
                                          before.lastFailureTime)
    else after.lastFailureTime == now && after.failureCount >= 1
         && (after.mode.Open? <==> after.failureCount >= p.failureThreshold)
  }
}
