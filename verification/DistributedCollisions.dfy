/** The request id `now_instance` names a millisecond of an instance, not a call. When that is
    enough, and what goes wrong when it is not. */
module DistributedCollisions {
  import opened Redis
  import opened CircuitBreaker
  import opened WindowLog
  import opened RateLimitTypes
  import opened LogCover
  import opened Distributed
  import opened DistributedSafety

  /** Without half resets the global log of an instance is part of its own. */
  lemma {:induction false} OwnLogHasAll(cfg: Config, start: Registries, es: seq<Event>, key: string, i: string)
    requires NoHalfResets(es, key)
    ensures forall m :: m in AllowedLog(cfg, start, es, key) && m.tag == i ==> m in OwnLog(cfg, start, es, key, i)
  {
    if es != [] {
      var e := es[|es| - 1];
      assert e in es;
      OwnLogHasAll(cfg, start, es[..|es| - 1], key, i);
      hide Admits;
    }
  }

  lemma AdmittedIdIsNew(cfg: Config, start: Registries, s: State, e: Event, log: seq<RequestId>, own: seq<RequestId>,
                        clock: nat)
    requires e.Check? && Admits(cfg, s, e) && clock <= e.now && Peopled(start, s)
    requires GlobalKept(cfg, s, e.key, log, clock) && OwnKept(cfg, start, s, e.key, own, clock, e.instance)
    requires cfg.limits(e.key).TtlHarmless(cfg.ttlBuffer) && cfg.limits(e.key).windowMs > 0
    ensures QuotaCap(cfg.limits(e.key), start, e.instance) <= 1 ==> RequestId(e.now, e.instance) !in own
    ensures cfg.limits(e.key).maxRequests <= 1 ==> RequestId(e.now, e.instance) !in log
  {
    var lim, self, inst := cfg.limits(e.key), e.instance, s.instances[e.instance];
    SubsetCard(start[self] + {self}, inst.registry);
    var g, d := Lookup(s.store, Global(e.key)), Lookup(s.store, PerInstance(self, e.key));
    hide CheckKey, Covers, Bounded, Quota, InWindow;
    CheckKeepsCovers(cfg.policy, cfg.ttlBuffer, lim, |inst.registry|, self, inst.breaker, g, d, log, own, clock, e.now,
                     e.io);
    if lim.maxRequests >= 0 { QuotaShrinks(lim.maxRequests, |start[self] + {self}|, |inst.registry|); }
    var id := RequestId(e.now, self);
    if id in own && InWindow(own, lim.windowMs, e.now) == 0 { EmptyWindow(own, lim.windowMs, e.now, id); }
    if id in log && InWindow(log, lim.windowMs, e.now) == 0 { EmptyWindow(log, lim.windowMs, e.now, id); }
  }

  /** With a quota of at most one, the instance's own set already rules out a second call in the
      same millisecond - unless a half reset deletes it under a limit that has room for more. */
  lemma {:induction false} QuotaOneNeverCollides(cfg: Config, start: Registries, es: seq<Event>, key: string)
    requires Timed(es) && cfg.limits(key).TtlHarmless(cfg.ttlBuffer) && cfg.limits(key).windowMs > 0
    requires forall i :: i in start ==> QuotaCap(cfg.limits(key), start, i) <= 1
    requires NoHalfResets(es, key) || cfg.limits(key).maxRequests <= 1
    ensures NoCollision(cfg, start, es, key)
  {
    if es != [] {
      var before, e := es[..|es| - 1], es[|es| - 1];
      QuotaOneNeverCollides(cfg, start, before, key);
      RunKept(cfg, start, before, key);
      assert Clock(before) <= e.now;
      var s, log := Run(cfg, start, before), AllowedLog(cfg, start, before, key);
      if e.Check? && e.key == key && Admits(cfg, s, e) {
        var own := OwnLog(cfg, start, before, key, e.instance);
        assert OwnKept(cfg, start, s, key, own, Clock(before), e.instance)
               && QuotaCap(cfg.limits(key), start, e.instance) <= 1;
        hide GlobalKept, OwnKept, QuotaCap, AllowedLog, OwnLog, Run;
        hide Apply, Admits, Peopled, Limit.TtlHarmless, NoCollision;
        AdmittedIdIsNew(cfg, start, s, e, log, own, Clock(before));
        if cfg.limits(key).maxRequests > 1 { OwnLogHasAll(cfg, start, before, key, e.instance); }
      }
      hide GlobalKept, OwnKept, QuotaCap, AllowedLog, OwnLog, Run, Admits, Peopled, Limit.TtlHarmless, NoCollision;
      StillDistinct(cfg, start, es, key);
    }
  }

  lemma StillDistinct(cfg: Config, start: Registries, es: seq<Event>, key: string)
    requires es != [] && NoCollision(cfg, start, es[..|es| - 1], key)
    requires var before, e := es[..|es| - 1], es[|es| - 1];
             e.Check? && e.key == key && Admits(cfg, Run(cfg, start, before), e) ==>
               && RequestId(e.now, e.instance) !in AllowedLog(cfg, start, before, key)
               && RequestId(e.now, e.instance) !in OwnLog(cfg, start, before, key, e.instance)
    ensures NoCollision(cfg, start, es, key)
  {
    OneMore(cfg, start, es, key);
    hide AllowedLog, OwnLog, Run, Apply, Admits;
  }

  /** The same instance checking the same key over and over within millisecond 0; with `half`,
      each check is followed by a reset that deletes its own set and not the global one. */
  function Hammer(self: string, key: string, n: nat, half: bool): seq<Event> {
    if n == 0 then []
    else
      Hammer(self, key, n - 1, half) + [Check(self, key, 0, AllOk())]
      + if half then [Reset(self, key, 0, Ok, FailedBefore)] else []
  }

  lemma {:induction false} HammerAtZero(self: string, key: string, n: nat, half: bool)
    ensures forall e :: e in Hammer(self, key, n, half) ==> e.now == 0 && (half || !e.Reset?)
  {
    if n > 0 { HammerAtZero(self, key, n - 1, half); }
  }

  ghost predicate AtMostThisOne(z: ZSet, id: RequestId) { z.scores.Keys <= {id} && z.Sound(0) }

  lemma HammerOneSet(lim: Limit, seconds: int, z: ZSet, id: RequestId)
    requires lim.windowMs > 0 && id.at == 0 && AtMostThisOne(z, id)
    ensures var r := z.RemoveByScore(0, 0 - lim.windowMs);
            r.Card() <= 1 && (z == Empty() ==> r.Card() == 0) && AtMostThisOne(r.Add(0, id).Expire(seconds, 0), id)
  {
    var r := z.RemoveByScore(0, 0 - lim.windowMs);
    SubsetCard(r.scores.Keys, {id});
    assert |r.scores.Keys| == |r.scores|;
  }

  lemma HammerStep(p: Policy, ttlBuffer: int, lim: Limit, peers: nat, self: string, g: ZSet, d: ZSet)
    requires peers >= 1 && lim.maxRequests >= 2 && lim.windowMs > 0
    requires Quota(lim.maxRequests, peers) >= (if d == Empty() then 1 else 2)
    requires AtMostThisOne(g, RequestId(0, self)) && AtMostThisOne(d, RequestId(0, self))
    ensures var c := CheckKey(p, ttlBuffer, lim, peers, self, Initial(), g, d, 0, AllOk());
            && c.result.allowed && c.breaker == Initial()
            && AtMostThisOne(c.global, RequestId(0, self)) && AtMostThisOne(c.local, RequestId(0, self))
  {
    hide ZSet.RemoveByScore, ZSet.Add, ZSet.Expire, ZSet.Card, CeilDiv, TtlSeconds, AtMostThisOne, Quota;
    HammerOneSet(lim, TtlSeconds(lim.windowMs, ttlBuffer), g, RequestId(0, self));
    HammerOneSet(lim, TtlSeconds(lim.windowMs, ttlBuffer), d, RequestId(0, self));
  }

  ghost predicate Hammered(cfg: Config, start: Registries, s: State, self: string, key: string, log: seq<RequestId>,
                           n: nat, half: bool)
    requires self in start
  {
    && self in s.instances && s.instances[self] == Instance(Initial(), start[self] + {self})
    && |log| == n && AtZero(log)
    && AtMostThisOne(Lookup(s.store, Global(key)), RequestId(0, self))
    && AtMostThisOne(Lookup(s.store, PerInstance(self, key)), RequestId(0, self))
    && (half ==> Lookup(s.store, PerInstance(self, key)) == Empty())
  }

  lemma HammerRound(cfg: Config, start: Registries, s: State, self: string, key: string, log: seq<RequestId>, n: nat,
                    half: bool)
    requires self in start && Hammered(cfg, start, s, self, key, log, n, half)
    requires cfg.limits(key).maxRequests >= 2 && cfg.limits(key).windowMs > 0
    requires QuotaCap(cfg.limits(key), start, self) >= (if half then 1 else 2)
    ensures var check, reset := Check(self, key, 0, AllOk()), Reset(self, key, 0, Ok, FailedBefore);
            var s1, log1 := Apply(cfg, s, check), NextLog(cfg, s, check, key, log);
            if half then Hammered(cfg, start, Apply(cfg, s1, reset), self, key, NextLog(cfg, s1, reset, key, log1),
                                  n + 1, half)
            else Hammered(cfg, start, s1, self, key, log1, n + 1, half)
  {
    assert AtMostThisOne(Empty(), RequestId(0, self));
    hide CheckKey, AtMostThisOne, Quota;
    HammerStep(cfg.policy, cfg.ttlBuffer, cfg.limits(key), |start[self] + {self}|, self, Lookup(s.store, Global(key)),
               Lookup(s.store, PerInstance(self, key)));
  }

  lemma {:induction false} HammerAllAllowed(cfg: Config, start: Registries, self: string, key: string, n: nat,
                                            half: bool)
    requires self in start && cfg.limits(key).maxRequests >= 2 && cfg.limits(key).windowMs > 0
    requires QuotaCap(cfg.limits(key), start, self) >= (if half then 1 else 2)
    ensures var es := Hammer(self, key, n, half);
            Hammered(cfg, start, Run(cfg, start, es), self, key, AllowedLog(cfg, start, es, key), n, half)
  {
    hide Hammered, Apply, NextLog, QuotaCap;
    if n == 0 {
      HammerBegins(cfg, start, self, key, half);
    } else {
      HammerAllAllowed(cfg, start, self, key, n - 1, half);
      var before, check := Hammer(self, key, n - 1, half), Check(self, key, 0, AllOk());
      var checked, es := before + [check], Hammer(self, key, n, half);
      assert checked[..|checked| - 1] == before && es[..|es| - 1] == if half then checked else before;
      assert checked + [] == checked;
      HammerRound(cfg, start, Run(cfg, start, before), self, key, AllowedLog(cfg, start, before, key), n - 1, half);
    }
  }

  lemma HammerBegins(cfg: Config, start: Registries, self: string, key: string, half: bool)
    requires self in start
    ensures Hammered(cfg, start, Run(cfg, start, []), self, key, AllowedLog(cfg, start, [], key), 0, half)
  {
  }

  lemma HammerOverfills(cfg: Config, start: Registries, self: string, key: string, half: bool)
    requires self in start && cfg.limits(key).maxRequests >= 2 && cfg.limits(key).windowMs > 0
    requires QuotaCap(cfg.limits(key), start, self) >= (if half then 1 else 2)
    ensures var es, lim := Hammer(self, key, cfg.limits(key).Capacity() + 1, half), cfg.limits(key);
            && Timed(es) && (half || NoHalfResets(es, key))
            && !Bounded(AllowedLog(cfg, start, es, key), lim.windowMs, lim.Capacity())
  {
    hide Hammer, AllowedLog, Run, QuotaCap, InWindow, AtMostThisOne;
    var lim := cfg.limits(key);
    var es := Hammer(self, key, lim.Capacity() + 1, half);
    HammerAllAllowed(cfg, start, self, key, lim.Capacity() + 1, half);
    HammerAtZero(self, key, lim.Capacity() + 1, half);
    assert forall i :: 0 <= i < |es| ==> es[i] in es;
    CountAtZero(AllowedLog(cfg, start, es, key), lim.windowMs, 0);
    assert InWindow(AllowedLog(cfg, start, es, key), lim.windowMs, 0) > lim.Capacity();
  }

  lemma QuotaAtMostMax(maxRequests: int, peers: int)
    requires maxRequests >= 0 && peers >= 1
    ensures Quota(maxRequests, peers) <= maxRequests && (maxRequests >= 1 ==> Quota(maxRequests, peers) >= 1)
  {
    QuotaShrinks(maxRequests, 1, peers);
  }

  /** Without half resets, the request id is too coarse exactly when some instance may hold two
      slots: then one instance gets any number of calls through in one millisecond. */
  lemma WindowSafeWithoutPacingIffQuotaOne(cfg: Config, start: Registries, key: string)
    requires cfg.limits(key).TtlHarmless(cfg.ttlBuffer) && cfg.limits(key).windowMs > 0
    ensures (forall es :: Timed(es) && NoHalfResets(es, key)
               ==> Bounded(AllowedLog(cfg, start, es, key), cfg.limits(key).windowMs, cfg.limits(key).Capacity()))
            <==> (forall i :: i in start ==> QuotaCap(cfg.limits(key), start, i) <= 1)
  {
    var lim := cfg.limits(key);
    if forall i :: i in start ==> QuotaCap(lim, start, i) <= 1 {
      forall es | Timed(es) && NoHalfResets(es, key)
        ensures Bounded(AllowedLog(cfg, start, es, key), lim.windowMs, lim.Capacity())
      {
        QuotaOneNeverCollides(cfg, start, es, key);
        WindowsAndQuotasHold(cfg, start, es, key);
      }
    } else {
      var self :| self in start && QuotaCap(lim, start, self) > 1;
      QuotaAtMostMax(lim.maxRequests, |start[self] + {self}|);
      HammerOverfills(cfg, start, self, key, false);
    }
  }

  /** If a reset may delete the caller's set and then fail on the global one, no quota helps: the
      window is safe in all runs exactly when the limit is at most one or nobody calls at all. */
  lemma WindowSafeUnderHalfResetsIff(cfg: Config, start: Registries, key: string)
    requires cfg.limits(key).TtlHarmless(cfg.ttlBuffer) && cfg.limits(key).windowMs > 0
    ensures (forall es :: Timed(es)
               ==> Bounded(AllowedLog(cfg, start, es, key), cfg.limits(key).windowMs, cfg.limits(key).Capacity()))
            <==> (start == map[] || cfg.limits(key).maxRequests <= 1)
  {
    var lim := cfg.limits(key);
    if start == map[] || lim.maxRequests <= 1 {
      forall i | i in start ensures QuotaCap(lim, start, i) <= 1 {
        if lim.maxRequests >= 0 { QuotaAtMostMax(lim.maxRequests, |start[i] + {i}|); }
      }
      forall es | Timed(es) ensures Bounded(AllowedLog(cfg, start, es, key), lim.windowMs, lim.Capacity()) {
        if start == map[] { NobodyCalls(cfg, start, es, key); } else { QuotaOneNeverCollides(cfg, start, es, key); }
        WindowsAndQuotasHold(cfg, start, es, key);
      }
    } else {
      var self :| self in start;
      QuotaAtMostMax(lim.maxRequests, |start[self] + {self}|);
      HammerOverfills(cfg, start, self, key, true);
    }
  }

  lemma {:induction false} NobodyCalls(cfg: Config, start: Registries, es: seq<Event>, key: string)
    requires start == map[]
    ensures Run(cfg, start, es).instances == map[]
    ensures AllowedLog(cfg, start, es, key) == [] && NoCollision(cfg, start, es, key)
  {
    if es != [] { NobodyCalls(cfg, start, es[..|es| - 1], key); }
  }
}
