/** What a check of the single-key limiter tells its caller, in terms of the sorted set it leaves and
    of the window of the requests allowed so far. */
module SlidingWindowAnswers {
  import opened Redis
  import opened CircuitBreaker
  import opened WindowLog
  import opened RateLimitTypes
  import opened RateLimitAnswers
  import opened LogCover
  import opened SlidingWindow

  /** Whatever the commands reply. */
  lemma CheckTells(p: Policy, ttlBuffer: int, lim: Limit, b: Breaker, z: ZSet, now: nat, nonce: string, io: CheckIO)
    ensures var c := CheckKey(p, ttlBuffer, lim, b, z, now, nonce, io);
            && TellsWindow(c.result, lim, now)
            && (if c.result.allowed then TellsCount(c.result, lim, c.zset) else TellsToWait(c.result, lim))
  {
    hide TellsWindow, TellsToWait, TellsCount, Blocked, Allowed, ZSet.RemoveByScore, ZSet.Add, ZSet.Expire, TtlSeconds;
    var c := CheckKey(p, ttlBuffer, lim, b, z, now, nonce, io);
    BlockedTells(lim, now);
    AllowedTells(lim, now, c.zset);
  }

  /** Every denial that the breaker did not give counts as a failure. */
  lemma CheckSettles(p: Policy, ttlBuffer: int, lim: Limit, b: Breaker, z: ZSet, now: nat, nonce: string, io: CheckIO)
    ensures var c := CheckKey(p, ttlBuffer, lim, b, z, now, nonce, io);
            && SettlesBreaker(p, b, c.breaker, now, c.result.allowed)
            && (!c.result.allowed ==> c.breaker == b || c.breaker.failureCount == b.failureCount + 1)
  {
    hide ZSet.RemoveByScore, ZSet.Add, ZSet.Expire, ZSet.Card, TtlSeconds;
  }

  /** On a set that agrees with the log, the count told is that of the log's window. */
  lemma HitsAreExact(p: Policy, ttlBuffer: int, lim: Limit, b: Breaker, z: ZSet, log: seq<RequestId>, clock: nat,
                     now: nat, nonce: string, io: CheckIO)
    requires lim.TtlHarmless(ttlBuffer) && lim.windowMs >= 1 && clock <= now && RequestId(now, nonce) !in log
    requires Exact(lim, clock, z, log) && io.FaultFree()
    ensures var c := CheckKey(p, ttlBuffer, lim, b, z, now, nonce, io);
            c.result.allowed ==>
              && c.result.totalHits == InWindow(log, lim.windowMs, now) + 1
              && c.result.totalHits + c.result.remaining == lim.maxRequests
  {
    hide Exact, Covers, InWindow, ZSet.RemoveByScore, ZSet.Live, TellsWindow;
    var c := CheckKey(p, ttlBuffer, lim, b, z, now, nonce, io);
    if c.result.allowed {
      var pruned, id := z.RemoveByScore(0, now - lim.windowMs), RequestId(now, nonce);
      NotYetThere(lim, clock, now, z, log, id);
      CheckTells(p, ttlBuffer, lim, b, z, now, nonce, io);
      assert c.zset.scores == pruned.scores[id := now];
      assert c.zset.scores.Keys == pruned.scores.Keys + {id};
      assert |c.zset.scores| == |c.zset.scores.Keys| && |pruned.scores| == |pruned.scores.Keys|;
    }
  }

  lemma NotYetThere(lim: Limit, clock: nat, now: nat, z: ZSet, log: seq<RequestId>, id: RequestId)
    requires Exact(lim, clock, z, log) && clock <= now && id !in log && id.at == now
    ensures var p := z.RemoveByScore(0, now - lim.windowMs);
            id !in p.scores && p.Card() == InWindow(log, lim.windowMs, now)
  {
    PruneStep(lim, clock, z, log, now);
    PruneKeepsLive(z, now, lim.windowMs);
    hide ZSet.RemoveByScore;
  }

  /** In fault-free runs an allowed caller is told how many requests its window holds, its own
      included, and how many more the limit leaves. */
  lemma HitsAreTheWindow(cfg: Config, es: seq<Event>, e: Event)
    requires e.Check? && Timed(es + [e]) && Fresh(es + [e]) && FaultFree(es + [e])
    requires cfg.limits(e.key).TtlHarmless(cfg.ttlBuffer) && cfg.limits(e.key).windowMs >= 1
    requires Admits(cfg, Run(cfg, es), e)
    ensures var r, lim := CheckIn(cfg, Run(cfg, es), e).result, cfg.limits(e.key);
            && r.totalHits == InWindow(AllowedLog(cfg, es + [e], e.key), lim.windowMs, e.now)
            && r.totalHits + r.remaining == lim.maxRequests
  {
    hide Exact, Covers, Run, AllowedLog, CheckKey, Bounded, InWindow, Limit.TtlHarmless;
    var all, s, lim, log := es + [e], Run(cfg, es), cfg.limits(e.key), AllowedLog(cfg, es, e.key);
    Shorter(all, es, e);
    RunCovers(cfg, es, e.key);
    NewIsNew(cfg, es, e);
    HitsAreExact(cfg.policy, cfg.ttlBuffer, lim, s.breaker, Lookup(s.store, Plain(e.key)), log, Clock(es), e.now,
                 e.nonce, e.io);
    LogGrows(cfg, es, e);
    InWindowOfLonger(log, e.Id(), lim.windowMs);
  }

  lemma Shorter(all: seq<Event>, es: seq<Event>, e: Event)
    requires all == es + [e] && Timed(all) && Fresh(all) && FaultFree(all)
    ensures Timed(es) && Fresh(es) && FaultFree(es) && Clock(es) <= e.now && (e.Check? ==> e.io.FaultFree())
  {
    assert forall i :: 0 <= i < |es| ==> all[i] == es[i];
    assert all[|es|] == e && e in all;
  }

  lemma NewIsNew(cfg: Config, es: seq<Event>, e: Event)
    requires e.Check? && Fresh(es + [e])
    ensures e.Id() !in AllowedLog(cfg, es, e.key)
  {
    LogComesFromChecks(cfg, es, e.key);
    var all := es + [e];
    assert all[|es|] == e && forall i :: 0 <= i < |es| ==> all[i] == es[i];
    hide AllowedLog;
  }

  lemma LogGrows(cfg: Config, es: seq<Event>, e: Event)
    requires e.Check? && Admits(cfg, Run(cfg, es), e)
    ensures AllowedLog(cfg, es + [e], e.key) == AllowedLog(cfg, es, e.key) + [e.Id()]
  {
    hide Run, CheckIn, Admits;
    assert (es + [e])[..|es|] == es;
    assert AllowedLog(cfg, es + [e], e.key) == NextLog(cfg, Run(cfg, es), e, e.key, AllowedLog(cfg, es, e.key));
    hide AllowedLog;
  }

  lemma InWindowOfLonger(log: seq<RequestId>, m: RequestId, windowMs: int)
    requires windowMs >= 1
    ensures InWindow(log + [m], windowMs, m.at) == InWindow(log, windowMs, m.at) + 1
  {
    assert (log + [m])[..|log|] == log;
  }
}
