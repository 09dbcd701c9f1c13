/** Upper bounds for the distributed limiter over runs of atomic calls with faults, resets and
    evictions: the global window, the per-instance quota, and exactly when the millisecond
    granularity of the request id breaks them. */
module DistributedSafety {
  import opened Redis
  import opened CircuitBreaker
  import opened WindowLog
  import opened RateLimitTypes
  import opened LogCover
  import opened Distributed

  lemma CheckKeepsCovers(p: Policy, ttlBuffer: int, lim: Limit, peers: nat, self: string, b: Breaker, g: ZSet, d: ZSet,
                         log: seq<RequestId>, mine: seq<RequestId>, clock: nat, now: nat, io: CheckIO)
    requires lim.TtlHarmless(ttlBuffer) && clock <= now && peers >= 1
    requires Covers(lim, clock, g, log) && Covers(lim, clock, d, mine)
    ensures var c, id := CheckKey(p, ttlBuffer, lim, peers, self, b, g, d, now, io), RequestId(now, self);
            if c.result.allowed then
              && (id !in log ==> Covers(lim, now, c.global, log + [id]))
              && (id !in mine ==> Covers(lim, now, c.local, mine + [id]))
              && InWindow(log, lim.windowMs, now) < lim.maxRequests
              && InWindow(mine, lim.windowMs, now) < Quota(lim.maxRequests, peers)
            else Covers(lim, now, c.global, log) && Covers(lim, now, c.local, mine)
  {
    hide Covers, Count, InWindow, TtlSeconds, ZSet.RemoveByScore, ZSet.Expire, ZSet.Add, ZSet.Card, CeilDiv;
    var id := RequestId(now, self);
    PruneStep(lim, clock, g, log, now);
    PruneStep(lim, clock, d, mine, now);
    var g0 := if io.pruneGlobal.TookEffect() then g.RemoveByScore(0, now - lim.windowMs) else g;
    var d0 := if io.pruneLocal.TookEffect() then d.RemoveByScore(0, now - lim.windowMs) else d;
    AddStep(lim, g0, log, id);
    AddStep(lim, d0, mine, id);
    if lim.maxRequests > 0 {
      ExpireStep(lim, ttlBuffer, g0.Add(now, id), log, id);
      ExpireStep(lim, ttlBuffer, d0.Add(now, id), mine, id);
    }
  }

  /** What instance `i` may have at most in a window: ceil(maxRequests / registry size), for
      the registry it began with. The registry only grows, so the quota only shrinks. */
  function QuotaCap(lim: Limit, start: Registries, i: string): nat
    requires i in start
  {
    if lim.maxRequests < 0 then 0 else Quota(lim.maxRequests, |start[i] + {i}|)
  }

  lemma QuotaShrinks(maxRequests: int, n: int, m: int)
    requires maxRequests >= 0 && 1 <= n <= m
    ensures 0 <= Quota(maxRequests, m) <= Quota(maxRequests, n)
  {
    var x, y := (-maxRequests) / n, (-maxRequests) / m;
    assert m * x <= n * x by { ScaleDown(n, m, x); }
    Cancel(m, x, y + 1);
  }

  lemma ScaleDown(n: int, m: int, x: int)
    requires n <= m && x <= 0
    ensures m * x <= n * x
  {
  }

  lemma Cancel(m: int, a: int, b: int)
    requires m >= 1 && m * a < m * b
    ensures a < b
  {
  }

  /** Instances keep at least the registry they began with. */
  ghost predicate Peopled(start: Registries, s: State) {
    s.instances.Keys == start.Keys && forall i :: i in start ==> start[i] + {i} <= s.instances[i].registry
  }

  ghost predicate GlobalKept(cfg: Config, s: State, key: string, log: seq<RequestId>, clock: nat) {
    && Covers(cfg.limits(key), clock, Lookup(s.store, Global(key)), log)
    && Bounded(log, cfg.limits(key).windowMs, cfg.limits(key).Capacity())
  }

  ghost predicate OwnKept(cfg: Config, start: Registries, s: State, key: string, own: seq<RequestId>, clock: nat,
                          i: string)
    requires i in start
  {
    && Covers(cfg.limits(key), clock, Lookup(s.store, PerInstance(i, key)), own)
    && Bounded(own, cfg.limits(key).windowMs, QuotaCap(cfg.limits(key), start, i))
  }

  lemma CheckKeepsBoth(cfg: Config, start: Registries, s: State, e: Event, log: seq<RequestId>, own: seq<RequestId>,
                       clock: nat)
    requires e.Check? && Runs(s, e) && cfg.limits(e.key).TtlHarmless(cfg.ttlBuffer)
    requires clock <= e.now && Peopled(start, s)
    requires GlobalKept(cfg, s, e.key, log, clock) && OwnKept(cfg, start, s, e.key, own, clock, e.instance)
    requires Admits(cfg, s, e) ==> RequestId(e.now, e.instance) !in log && RequestId(e.now, e.instance) !in own
    ensures GlobalKept(cfg, Apply(cfg, s, e), e.key, NextLog(cfg, s, e, e.key, log), e.now)
    ensures OwnKept(cfg, start, Apply(cfg, s, e), e.key, NextOwn(cfg, s, e, e.key, e.instance, own), e.now, e.instance)
  {
    var lim, self, key := cfg.limits(e.key), e.instance, e.key;
    var inst, id := s.instances[self], RequestId(e.now, self);
    var g, d := Lookup(s.store, Global(key)), Lookup(s.store, PerInstance(self, key));
    SubsetCard(start[self] + {self}, inst.registry);
    assert Past(log, e.now) && Past(own, e.now);
    hide CheckKey, Covers, Bounded, Quota, InWindow, QuotaCap;
    CheckKeepsCovers(cfg.policy, cfg.ttlBuffer, lim, |inst.registry|, self, inst.breaker, g, d, log, own, clock, e.now,
                     e.io);
    if Admits(cfg, s, e) {
      WithinQuota(cfg, start, lim, |inst.registry|, self, log, own, id);
    }
  }

  lemma WithinQuota(cfg: Config, start: Registries, lim: Limit, peers: nat, self: string, log: seq<RequestId>,
                    mine: seq<RequestId>, id: RequestId)
    requires self in start && |start[self] + {self}| <= peers
    requires Past(log, id.at) && Past(mine, id.at)
    requires Bounded(log, lim.windowMs, lim.Capacity()) && InWindow(log, lim.windowMs, id.at) < lim.maxRequests
    requires Bounded(mine, lim.windowMs, QuotaCap(lim, start, self))
    requires InWindow(mine, lim.windowMs, id.at) < Quota(lim.maxRequests, peers)
    ensures Bounded(log + [id], lim.windowMs, lim.Capacity())
    ensures Bounded(mine + [id], lim.windowMs, QuotaCap(lim, start, self))
  {
    QuotaShrinks(lim.maxRequests, |start[self] + {self}|, peers);
    AdmitKeepsBounded(log, id, lim.windowMs, lim.Capacity());
    AdmitKeepsBounded(mine, id, lim.windowMs, QuotaCap(lim, start, self));
  }

  /** What anything but a check of the instance on the key does to the instance's own set. */
  lemma OthersKeepOwn(cfg: Config, start: Registries, s: State, e: Event, key: string, own: seq<RequestId>, clock: nat,
                      i: string)
    requires !(e.Check? && e.key == key && e.instance == i && Runs(s, e)) && clock <= e.now && i in start
    requires OwnKept(cfg, start, s, key, own, clock, i)
    ensures OwnKept(cfg, start, Apply(cfg, s, e), key, NextOwn(cfg, s, e, key, i, own), e.now, i)
  {
    hide CheckKey, QuotaCap;
    Later(cfg.limits(key), clock, e.now, Lookup(s.store, PerInstance(i, key)), own);
  }

  lemma OthersKeepGlobal(cfg: Config, s: State, e: Event, key: string, log: seq<RequestId>, clock: nat)
    requires !(e.Check? && e.key == key && Runs(s, e)) && clock <= e.now && GlobalKept(cfg, s, key, log, clock)
    ensures GlobalKept(cfg, Apply(cfg, s, e), key, NextLog(cfg, s, e, key, log), e.now)
  {
    hide CheckKey;
    Later(cfg.limits(key), clock, e.now, Lookup(s.store, Global(key)), log);
  }

  /** A key that nothing changed, or that was evicted, still covers its log at a later time. */
  lemma Later(lim: Limit, clock: nat, now: nat, z: ZSet, log: seq<RequestId>)
    requires Covers(lim, clock, z, log) && clock <= now
    ensures Covers(lim, now, z, log) && Covers(lim, now, z.Evict(now), log)
  {
  }

  lemma {:induction false} RunKept(cfg: Config, start: Registries, es: seq<Event>, key: string)
    requires Timed(es) && NoCollision(cfg, start, es, key) && cfg.limits(key).TtlHarmless(cfg.ttlBuffer)
    ensures Peopled(start, Run(cfg, start, es))
    ensures GlobalKept(cfg, Run(cfg, start, es), key, AllowedLog(cfg, start, es, key), Clock(es))
    ensures forall i ::
              i in start ==> OwnKept(cfg, start, Run(cfg, start, es), key, OwnLog(cfg, start, es, key, i), Clock(es), i)
  {
    if es != [] {
      var before, e := es[..|es| - 1], es[|es| - 1];
      RunKept(cfg, start, before, key);
      var s, log := Run(cfg, start, before), AllowedLog(cfg, start, before, key);
      assert Clock(before) <= e.now && Clock(es) == e.now;
      PeopledStays(cfg, start, s, e);
      OneMore(cfg, start, es, key);
      hide GlobalKept, OwnKept, Peopled, Apply, Run, AllowedLog;
      hide OwnLog, NextLog, NextOwn, NoCollision, Timed, Limit.TtlHarmless;
      if e.Check? && e.key == key && Runs(s, e) {
        var own := OwnLog(cfg, start, before, key, e.instance);
        LastIsNew(cfg, start, es, key);
        CheckKeepsBoth(cfg, start, s, e, log, own, Clock(before));
      } else {
        OthersKeepGlobal(cfg, s, e, key, log, Clock(before));
      }
      forall i | i in start
        ensures OwnKept(cfg, start, Run(cfg, start, es), key, OwnLog(cfg, start, es, key, i), e.now, i)
      {
        if !(e.Check? && e.key == key && e.instance == i && Runs(s, e)) {
          OthersKeepOwn(cfg, start, s, e, key, OwnLog(cfg, start, before, key, i), Clock(before), i);
        }
      }
    }
  }

  lemma PeopledStays(cfg: Config, start: Registries, s: State, e: Event)
    requires Peopled(start, s)
    ensures Peopled(start, Apply(cfg, s, e))
  {
    hide CheckKey;
  }

  /** The runs and logs unfolded by one event. */
  lemma OneMore(cfg: Config, start: Registries, es: seq<Event>, key: string)
    requires es != []
    ensures var before, e := es[..|es| - 1], es[|es| - 1];
            var s := Run(cfg, start, before);
            && Run(cfg, start, es) == Apply(cfg, s, e)
            && AllowedLog(cfg, start, es, key) == NextLog(cfg, s, e, key, AllowedLog(cfg, start, before, key))
            && forall i ::
                 OwnLog(cfg, start, es, key, i) == NextOwn(cfg, s, e, key, i, OwnLog(cfg, start, before, key, i))
  {
    hide Apply, NextLog, NextOwn;
  }

  lemma LastIsNew(cfg: Config, start: Registries, es: seq<Event>, key: string)
    requires es != [] && NoCollision(cfg, start, es, key)
    ensures var before, e := es[..|es| - 1], es[|es| - 1];
            e.Check? && e.key == key && Admits(cfg, Run(cfg, start, before), e) && e.instance in start ==>
              && RequestId(e.now, e.instance) !in AllowedLog(cfg, start, before, key)
              && RequestId(e.now, e.instance) !in OwnLog(cfg, start, before, key, e.instance)
  {
    var before, e := es[..|es| - 1], es[|es| - 1];
    var log, log' := AllowedLog(cfg, start, before, key), AllowedLog(cfg, start, es, key);
    if e.Check? && e.key == key && Admits(cfg, Run(cfg, start, before), e) && e.instance in start {
      var own, own' := OwnLog(cfg, start, before, key, e.instance), OwnLog(cfg, start, es, key, e.instance);
      hide Admits;
      assert forall i :: 0 <= i < |log| ==> log[i] == log'[i] && log'[i] != log'[|log|];
      assert forall i :: 0 <= i < |own| ==> own[i] == own'[i] && own'[i] != own'[|own|];
    }
  }

  /** Over every run of atomic calls of any number of instances, with faults at any command,
      resets, evictions and growing registries: no window holds more than maxRequests calls
      allowed since the global set was last deleted, nor more than ceil(maxRequests / N) calls
      of one instance that began with N peers, allowed since it last deleted its own set; as
      long as no instance is allowed twice on the key in one millisecond. */
  lemma WindowsAndQuotasHold(cfg: Config, start: Registries, es: seq<Event>, key: string)
    requires Timed(es) && NoCollision(cfg, start, es, key) && cfg.limits(key).TtlHarmless(cfg.ttlBuffer)
    ensures var lim := cfg.limits(key);
            && Bounded(AllowedLog(cfg, start, es, key), lim.windowMs, lim.Capacity())
            && forall i :: i in start ==> Bounded(OwnLog(cfg, start, es, key, i), lim.windowMs, QuotaCap(lim, start, i))
  {
    RunKept(cfg, start, es, key);
    hide Bounded, AllowedLog, OwnLog, Run;
  }

  /** One call at a time, no instance is left half-open, and each is open exactly from the
      threshold on, whichever of the nine commands failed. */
  lemma {:induction false} NeverHalfOpenBetweenCalls(cfg: Config, start: Registries, es: seq<Event>, i: string)
    requires cfg.policy.failureThreshold >= 1 && i in start
    ensures i in Run(cfg, start, es).instances
    ensures var b := Run(cfg, start, es).instances[i].breaker; !b.mode.HalfOpen? && b.Consistent(cfg.policy)
  {
    if es != [] {
      var before, e := es[..|es| - 1], es[|es| - 1];
      NeverHalfOpenBetweenCalls(cfg, start, before, i);
      var s := Run(cfg, start, before);
      if Runs(s, e) {
        CheckSettles(cfg.policy, cfg.ttlBuffer, cfg.limits(e.key), |s.instances[e.instance].registry|, e.instance,
                     s.instances[e.instance].breaker, Lookup(s.store, Global(e.key)),
                     Lookup(s.store, PerInstance(e.instance, e.key)), e.now, e.io);
      }
      hide CheckKey, Breaker.Consistent;
    }
  }

  lemma CheckSettles(p: Policy, ttlBuffer: int, lim: Limit, peers: nat, self: string, b: Breaker, g: ZSet, d: ZSet,
                     now: nat, io: CheckIO)
    requires p.failureThreshold >= 1 && peers >= 1
    ensures var b' := CheckKey(p, ttlBuffer, lim, peers, self, b, g, d, now, io).breaker;
            !b.mode.HalfOpen? && b.Consistent(p) ==> !b'.mode.HalfOpen? && b'.Consistent(p)
  {
    hide ZSet.RemoveByScore, ZSet.Add, ZSet.Expire, ZSet.Card, TtlSeconds, Quota;
  }
}
