/** How a Redis sorted set stands for a log of allowed requests, and what the limiters'
    commands do to that relation. */
module LogCover {
  import opened Redis
  import opened WindowLog
  import opened RateLimitTypes

  /** What a key's sorted set always knows about the calls allowed so far: those still in
      the window are members, and the key is not due for eviction before they leave it. */
  ghost predicate Covers(lim: Limit, clock: nat, z: ZSet, log: seq<RequestId>) {
    && z.Sound(clock) && Past(log, clock) && NoDuplicates(log)
    && (forall m :: m in log && m.at > clock - lim.windowMs ==> m in z.scores)
    && (z.deadline.Some? ==> forall m :: m in log ==> m.at + lim.windowMs <= z.deadline.value)
  }

  /** Without faults the sorted set also holds nothing else that is still in the window. */
  ghost predicate Exact(lim: Limit, clock: nat, z: ZSet, log: seq<RequestId>) {
    Covers(lim, clock, z, log) && forall m :: m in z.scores && m.at > clock - lim.windowMs ==> m in log
  }

  lemma PruneStep(lim: Limit, clock: nat, z: ZSet, log: seq<RequestId>, now: nat)
    requires Covers(lim, clock, z, log) && clock <= now
    ensures Covers(lim, now, z, log)
    ensures var p := z.RemoveByScore(0, now - lim.windowMs);
            && Covers(lim, now, p, log)
            && InWindow(log, lim.windowMs, now) <= p.Card()
            && (Exact(lim, clock, z, log) ==> Exact(lim, now, p, log) && InWindow(log, lim.windowMs, now) == p.Card())
  {
    PruneKeepsLive(z, now, lim.windowMs);
    CountVersusSet(log, z, now, lim.windowMs);
  }

  lemma AddStep(lim: Limit, z: ZSet, log: seq<RequestId>, id: RequestId)
    requires Covers(lim, id.at, z, log)
    ensures Covers(lim, id.at, z.Add(id.at, id), log) && id in z.Add(id.at, id).scores
    ensures Exact(lim, id.at, z, log) ==>
              forall m :: m in z.Add(id.at, id).scores && m.at > id.at - lim.windowMs ==> m in log + [id]
  {
  }

  /** Setting the TTL after the member is stored is what makes it safe to call it allowed. */
  lemma ExpireStep(lim: Limit, ttlBuffer: int, z: ZSet, log: seq<RequestId>, id: RequestId)
    requires lim.TtlHarmless(ttlBuffer) && lim.maxRequests > 0
    requires Covers(lim, id.at, z, log) && id in z.scores
    ensures var x := z.Expire(TtlSeconds(lim.windowMs, ttlBuffer), id.at);
            && Covers(lim, id.at, x, log)
            && (id !in log ==> Covers(lim, id.at, x, log + [id]))
            && (id !in log && (forall m :: m in z.scores && m.at > id.at - lim.windowMs ==> m in log + [id])
                ==> Exact(lim, id.at, x, log + [id]))
  {
  }
}
