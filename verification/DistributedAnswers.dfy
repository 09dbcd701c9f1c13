/** What a check of the shared limiter tells its caller, in terms of the global set it leaves and of
    the window of the requests allowed so far. */
module DistributedAnswers {
  import opened Options
  import opened Redis
  import opened CircuitBreaker
  import opened WindowLog
  import opened RateLimitTypes
  import opened RateLimitAnswers
  import opened Distributed

  /** Whatever the commands reply. */
  lemma CheckTells(p: Policy, ttlBuffer: int, lim: Limit, peers: nat, self: string, b: Breaker, g: ZSet, d: ZSet,
                   now: nat, io: CheckIO)
    requires peers >= 1
    ensures var c := CheckKey(p, ttlBuffer, lim, peers, self, b, g, d, now, io);
            && TellsWindow(c.result, lim, now)
            && (if c.result.allowed then TellsCount(c.result, lim, c.global) else TellsToWait(c.result, lim))
  {
    hide TellsWindow, TellsToWait, TellsCount, Blocked, Allowed, ZSet.RemoveByScore, ZSet.Add, ZSet.Expire, TtlSeconds;
    hide Quota;
    var c := CheckKey(p, ttlBuffer, lim, peers, self, b, g, d, now, io);
    BlockedTells(lim, now);
    AllowedTells(lim, now, c.global);
  }

  /** Every denial that the breaker did not give counts as a failure; if only the recount threw, the
      breaker had closed before. */
  lemma CheckSettles(p: Policy, ttlBuffer: int, lim: Limit, peers: nat, self: string, b: Breaker, g: ZSet, d: ZSet,
                     now: nat, io: CheckIO)
    requires peers >= 1
    ensures var c := CheckKey(p, ttlBuffer, lim, peers, self, b, g, d, now, io);
            && SettlesBreaker(p, b, c.breaker, now, c.result.allowed)
            && (!c.result.allowed ==> c.breaker == b || c.breaker.failureCount == b.failureCount + 1
                                      || (io.recount.Threw() && !b.mode.Closed? && c.breaker.failureCount == 1))
  {
    hide ZSet.RemoveByScore, ZSet.Add, ZSet.Expire, ZSet.Card, TtlSeconds, Quota;
  }

  ghost predicate FaultFree(es: seq<Event>) { forall e :: e in es ==> !Faulty(e) }

  /** The set and the log agree on what is still in the window. */
  ghost predicate Agrees(lim: Limit, clock: nat, z: ZSet, log: seq<RequestId>) {
    && z.Sound(clock) && Past(log, clock)
    && (forall m: RequestId :: m.at > clock - lim.windowMs ==> (m in z.scores <==> m in log))
    && (z.deadline.Some? ==> forall m :: m in log ==> m.at + lim.windowMs <= z.deadline.value)
  }

  lemma PruneAgrees(lim: Limit, clock: nat, now: nat, z: ZSet, log: seq<RequestId>)
    requires Agrees(lim, clock, z, log) && clock <= now
    ensures var p := z.RemoveByScore(0, now - lim.windowMs);
            Agrees(lim, now, p, log) && p.scores.Keys == Within(log, now - lim.windowMs, now)
  {
    PruneKeepsLive(z, now, lim.windowMs);
  }

  lemma StoreAgrees(lim: Limit, ttlBuffer: int, z: ZSet, log: seq<RequestId>, id: RequestId)
    requires Agrees(lim, id.at, z, log) && z.scores.Keys == Within(log, id.at - lim.windowMs, id.at)
    requires lim.TtlHarmless(ttlBuffer) && lim.maxRequests >= 1 && lim.windowMs >= 1
    ensures var s := z.Add(id.at, id).Expire(TtlSeconds(lim.windowMs, ttlBuffer), id.at);
            && Agrees(lim, id.at, s, log + [id])
            && s.scores.Keys == Within(log + [id], id.at - lim.windowMs, id.at)
  {
    hide TtlSeconds;
  }

  /** A fault-free check on such a set. */
  lemma CheckAgrees(p: Policy, ttlBuffer: int, lim: Limit, peers: nat, self: string, b: Breaker, g: ZSet, d: ZSet,
                    log: seq<RequestId>, clock: nat, now: nat)
    requires Agrees(lim, clock, g, log) && clock <= now && peers >= 1
    requires lim.TtlHarmless(ttlBuffer) && lim.windowMs >= 1
    ensures var c := CheckKey(p, ttlBuffer, lim, peers, self, b, g, d, now, AllOk());
            var log' := if c.result.allowed then log + [RequestId(now, self)] else log;
            && Agrees(lim, now, c.global, log')
            && (c.result.allowed ==>
                  && |Within(log, now - lim.windowMs, now)| < lim.maxRequests
                  && c.global.scores.Keys == Within(log', now - lim.windowMs, now))
  {
    hide Agrees, ZSet.RemoveByScore, ZSet.Add, ZSet.Expire, TtlSeconds, Quota, Limit.TtlHarmless;
    PruneAgrees(lim, clock, now, g, log);
    LaterAgrees(lim, clock, now, g, log);
    var pruned := g.RemoveByScore(0, now - lim.windowMs);
    assert |pruned.scores.Keys| == pruned.Card();
    if lim.maxRequests >= 1 { StoreAgrees(lim, ttlBuffer, pruned, log, RequestId(now, self)); }
  }

  /** Time alone, and an eviction, change nothing about it. */
  lemma LaterAgrees(lim: Limit, clock: nat, now: nat, z: ZSet, log: seq<RequestId>)
    requires Agrees(lim, clock, z, log) && clock <= now
    ensures Agrees(lim, now, z, log) && Agrees(lim, now, z.Evict(now), log)
  {
  }

  lemma OthersAgree(cfg: Config, s: State, e: Event, key: string, log: seq<RequestId>, clock: nat)
    requires !(e.Check? && e.key == key && Runs(s, e)) && clock <= e.now
    requires Agrees(cfg.limits(key), clock, Lookup(s.store, Global(key)), log)
    ensures Agrees(cfg.limits(key), e.now, Lookup(Apply(cfg, s, e).store, Global(key)), NextLog(cfg, s, e, key, log))
  {
    hide CheckKey;
    LaterAgrees(cfg.limits(key), clock, e.now, Lookup(s.store, Global(key)), log);
  }

  lemma {:induction false} RunAgrees(cfg: Config, start: Registries, es: seq<Event>, key: string)
    requires Timed(es) && FaultFree(es) && cfg.limits(key).TtlHarmless(cfg.ttlBuffer) && cfg.limits(key).windowMs >= 1
    ensures Agrees(cfg.limits(key), Clock(es), Lookup(Run(cfg, start, es).store, Global(key)),
                   AllowedLog(cfg, start, es, key))
  {
    if es != [] {
      var before, e := es[..|es| - 1], es[|es| - 1];
      assert Clock(before) <= e.now && e in es;
      RunAgrees(cfg, start, before, key);
      hide Agrees, Timed, Limit.TtlHarmless, Run, CheckKey;
      LogStep(cfg, start, es, key);
      var s, log := Run(cfg, start, before), AllowedLog(cfg, start, before, key);
      if e.Check? && e.key == key && Runs(s, e) {
        var inst := s.instances[e.instance];
        CheckAgrees(cfg.policy, cfg.ttlBuffer, cfg.limits(key), |inst.registry|, e.instance, inst.breaker,
                    Lookup(s.store, Global(key)), Lookup(s.store, PerInstance(e.instance, key)), log, Clock(before),
                    e.now);
      } else {
        OthersAgree(cfg, s, e, key, log, Clock(before));
      }
    }
  }

  lemma LogStep(cfg: Config, start: Registries, es: seq<Event>, key: string)
    requires es != []
    ensures var before, e := es[..|es| - 1], es[|es| - 1];
            var s := Run(cfg, start, before);
            && Run(cfg, start, es) == Apply(cfg, s, e)
            && AllowedLog(cfg, start, es, key) == NextLog(cfg, s, e, key, AllowedLog(cfg, start, before, key))
  {
    hide Apply, NextLog;
  }

  /** In fault-free runs an allowed caller is told how many requests of all instances its window
      holds, its own included, each request id counted once, and how many more the limit leaves. */
  lemma HitsAreTheWindow(cfg: Config, start: Registries, es: seq<Event>, e: Event)
    requires e.Check? && Timed(es + [e]) && FaultFree(es + [e])
    requires cfg.limits(e.key).TtlHarmless(cfg.ttlBuffer) && cfg.limits(e.key).windowMs >= 1
    requires Admits(cfg, Run(cfg, start, es), e)
    ensures var r, lim := CheckIn(cfg, Run(cfg, start, es), e).result, cfg.limits(e.key);
            var log := AllowedLog(cfg, start, es + [e], e.key);
            && r.totalHits == |Within(log, e.now - lim.windowMs, e.now)|
            && r.totalHits + r.remaining == lim.maxRequests
            && (NoDuplicates(log) ==> r.totalHits == InWindow(log, lim.windowMs, e.now))
  {
    hide Agrees, Run, CheckKey, AllowedLog, Limit.TtlHarmless, TellsWindow, Within, NoDuplicates, InWindow;
    var all, s, lim, log := es + [e], Run(cfg, start, es), cfg.limits(e.key), AllowedLog(cfg, start, es, e.key);
    Shorter(all, es, e);
    RunAgrees(cfg, start, es, e.key);
    var inst, id := s.instances[e.instance], RequestId(e.now, e.instance);
    var g, d := Lookup(s.store, Global(e.key)), Lookup(s.store, PerInstance(e.instance, e.key));
    CheckAgrees(cfg.policy, cfg.ttlBuffer, lim, |inst.registry|, e.instance, inst.breaker, g, d, log, Clock(es), e.now);
    CheckTells(cfg.policy, cfg.ttlBuffer, lim, |inst.registry|, e.instance, inst.breaker, g, d, e.now, e.io);
    LogStep(cfg, start, all, e.key);
    OneMoreWithin(log, id, lim.windowMs);
    if NoDuplicates(log + [id]) { CountIsCardinality(log + [id], e.now - lim.windowMs, e.now); }
    SameCard(CheckIn(cfg, s, e).global);
    CountIs(log + [id], lim.windowMs, e.now);
  }

  lemma Shorter(all: seq<Event>, es: seq<Event>, e: Event)
    requires all == es + [e] && Timed(all) && FaultFree(all)
    ensures all[..|all| - 1] == es && Timed(es) && FaultFree(es) && Clock(es) <= e.now
    ensures e.Check? ==> e.io == AllOk()
  {
    assert all[|es|] == e && e in all;
    FaultFreeAt(e);
    hide Faulty;
    assert forall i :: 0 <= i < |es| ==> all[i] == es[i];
    forall x | x in es ensures !Faulty(x) { assert x in all; }
  }

  lemma FaultFreeAt(e: Event)
    ensures !Faulty(e) && e.Check? ==> e.io == AllOk()
  {
  }

  lemma OneMoreWithin(log: seq<RequestId>, m: RequestId, windowMs: int)
    ensures |Within(log + [m], m.at - windowMs, m.at)| <= |Within(log, m.at - windowMs, m.at)| + 1
  {
    WithinSnoc(log, m, m.at - windowMs, m.at);
  }

  lemma SameCard(z: ZSet)
    ensures |z.scores.Keys| == |z.scores|
  {
  }

  lemma CountIs(log: seq<RequestId>, windowMs: int, end: int)
    ensures InWindow(log, windowMs, end) == Count(log, end - windowMs, end)
  {
  }
}
