/** How the global set and the per-instance sets of a key hang together: conservation in
    undisturbed runs, what it means for quotas, and what faults and resets do to it. */
module DistributedBalance {
  import opened Options
  import opened Redis
  import opened CircuitBreaker
  import opened WindowLog
  import opened RateLimitTypes
  import opened Distributed

  /** A set holding only past requests made under the given tags. */
  ghost predicate OnlyFrom(z: ZSet, clock: nat, tags: set<string>) {
    z.Sound(clock) && forall m :: m in z.scores ==> m.tag in tags
  }

  /** The global set and the set of one instance agree on that instance's live requests, and
      neither key can be evicted while a member is live. */
  ghost predicate Paired(lim: Limit, clock: nat, g: ZSet, d: ZSet, self: string) {
    && OnlyFrom(d, clock, {self}) && d.Outlives(lim.windowMs)
    && forall m: RequestId :: m.tag == self && m.at > clock - lim.windowMs ==> (m in g.scores <==> m in d.scores)
  }

  ghost predicate SoundGlobal(lim: Limit, clock: nat, g: ZSet, instances: set<string>) {
    OnlyFrom(g, clock, instances) && g.Outlives(lim.windowMs)
  }

  ghost predicate Balanced(lim: Limit, clock: nat, st: Store, key: string, instances: set<string>) {
    && SoundGlobal(lim, clock, Lookup(st, Global(key)), instances)
    && forall i :: i in instances ==> Paired(lim, clock, Lookup(st, Global(key)), Lookup(st, PerInstance(i, key)), i)
  }

  /** The two sets hold the same live requests of everybody but `self`. */
  ghost predicate SameForOthers(lim: Limit, now: nat, g: ZSet, g': ZSet, self: string) {
    forall m: RequestId :: m.tag != self && m.at > now - lim.windowMs ==> (m in g'.scores <==> m in g.scores)
  }

  lemma PruneOne(lim: Limit, clock: nat, now: nat, z: ZSet, tags: set<string>)
    requires OnlyFrom(z, clock, tags) && z.Outlives(lim.windowMs) && clock <= now
    ensures var z0 := z.RemoveByScore(0, now - lim.windowMs);
            && OnlyFrom(z, now, tags) && OnlyFrom(z0, now, tags) && z0.Outlives(lim.windowMs)
            && forall m: RequestId :: m.at > now - lim.windowMs ==> (m in z0.scores <==> m in z.scores)
  {
    PruneKeepsLive(z, now, lim.windowMs);
    assert z.RemoveByScore(0, now - lim.windowMs).scores.Keys == z.Live(now - lim.windowMs);
  }

  lemma PrunePair(lim: Limit, clock: nat, now: nat, g: ZSet, d: ZSet, self: string, instances: set<string>)
    requires SoundGlobal(lim, clock, g, instances) && Paired(lim, clock, g, d, self) && clock <= now
    ensures SoundGlobal(lim, now, g, instances) && Paired(lim, now, g, d, self)
    ensures var g0, d0 := g.RemoveByScore(0, now - lim.windowMs), d.RemoveByScore(0, now - lim.windowMs);
            && SoundGlobal(lim, now, g0, instances) && Paired(lim, now, g0, d0, self) && Paired(lim, now, g0, d, self)
            && SameForOthers(lim, now, g, g0, self)
  {
    PruneOne(lim, clock, now, g, instances);
    PruneOne(lim, clock, now, d, {self});
    hide ZSet.RemoveByScore, ZSet.Outlives, OnlyFrom;
  }

  lemma RecordOne(lim: Limit, ttlBuffer: int, z: ZSet, id: RequestId)
    requires lim.TtlHarmless(ttlBuffer) && lim.maxRequests > 0 && z.Sound(id.at)
    ensures var x := z.Add(id.at, id).Expire(TtlSeconds(lim.windowMs, ttlBuffer), id.at);
            && x.Sound(id.at) && x.Outlives(lim.windowMs) && x.scores.Keys <= z.scores.Keys + {id}
            && forall m: RequestId :: m.at > id.at - lim.windowMs ==> (m in x.scores <==> m in z.scores || m == id)
  {
  }

  lemma RecordPair(lim: Limit, ttlBuffer: int, g: ZSet, d: ZSet, id: RequestId, instances: set<string>)
    requires lim.TtlHarmless(ttlBuffer) && lim.maxRequests > 0 && id.tag in instances
    requires SoundGlobal(lim, id.at, g, instances) && Paired(lim, id.at, g, d, id.tag)
    ensures var ttl := TtlSeconds(lim.windowMs, ttlBuffer);
            var g1, d1 := g.Add(id.at, id).Expire(ttl, id.at), d.Add(id.at, id).Expire(ttl, id.at);
            SoundGlobal(lim, id.at, g1, instances) && Paired(lim, id.at, g1, d1, id.tag)
            && SameForOthers(lim, id.at, g, g1, id.tag)
  {
    RecordOne(lim, ttlBuffer, g, id);
    RecordOne(lim, ttlBuffer, d, id);
    hide ZSet.Add, ZSet.Expire, TtlSeconds, ZSet.Outlives;
  }

  /** A check without faults prunes two sets at different times and still leaves them paired,
      and touches no live request of any other instance. */
  lemma CheckKeepsPaired(p: Policy, ttlBuffer: int, lim: Limit, peers: nat, self: string, b: Breaker, g: ZSet, d: ZSet,
                         clock: nat, now: nat, instances: set<string>)
    requires lim.TtlHarmless(ttlBuffer) && clock <= now && peers >= 1 && self in instances
    requires SoundGlobal(lim, clock, g, instances) && Paired(lim, clock, g, d, self)
    ensures var c := CheckKey(p, ttlBuffer, lim, peers, self, b, g, d, now, AllOk());
            && SoundGlobal(lim, now, c.global, instances) && Paired(lim, now, c.global, c.local, self)
            && SameForOthers(lim, now, g, c.global, self)
  {
    hide ZSet.RemoveByScore, ZSet.Add, ZSet.Expire, ZSet.Card, TtlSeconds;
    hide CeilDiv, SoundGlobal, Paired, SameForOthers, Limit.TtlHarmless;
    var id, g0, d0 := RequestId(now, self), g.RemoveByScore(0, now - lim.windowMs),
                      d.RemoveByScore(0, now - lim.windowMs);
    PrunePair(lim, clock, now, g, d, self, instances);
    SameTransitive(lim, now, g, g, g, self);
    if lim.maxRequests > 0 {
      RecordPair(lim, ttlBuffer, g0, d0, id, instances);
      SameTransitive(lim, now, g, g0, g0.Add(now, id).Expire(TtlSeconds(lim.windowMs, ttlBuffer), now), self);
    }
  }

  lemma SameTransitive(lim: Limit, now: nat, g: ZSet, g1: ZSet, g2: ZSet, self: string)
    ensures SameForOthers(lim, now, g, g, self)
    ensures SameForOthers(lim, now, g, g1, self) && SameForOthers(lim, now, g1, g2, self) ==>
            SameForOthers(lim, now, g, g2, self)
  {
  }

  lemma StaysPaired(lim: Limit, clock: nat, now: nat, g: ZSet, g': ZSet, d: ZSet, self: string, i: string)
    requires Paired(lim, clock, g, d, i) && clock <= now && i != self && SameForOthers(lim, now, g, g', self)
    ensures Paired(lim, now, g', d, i)
  {
  }

  lemma CheckTouchesOwnSets(cfg: Config, s: State, e: Event)
    requires e.Check? && Runs(s, e) && !Faulty(e)
    ensures var inst, key, st' := s.instances[e.instance], e.key, Apply(cfg, s, e).store;
            var c := CheckKey(cfg.policy, cfg.ttlBuffer, cfg.limits(key), |inst.registry|, e.instance, inst.breaker,
                              Lookup(s.store, Global(key)), Lookup(s.store, PerInstance(e.instance, key)), e.now,
                              AllOk());
            && Lookup(st', Global(key)) == c.global && Lookup(st', PerInstance(e.instance, key)) == c.local
            && forall i :: i != e.instance ==> Lookup(st', PerInstance(i, key)) == Lookup(s.store, PerInstance(i, key))
  {
    hide CheckKey;
  }

  lemma CheckKeepsBalanced(cfg: Config, s: State, e: Event, clock: nat)
    requires e.Check? && Runs(s, e) && !Faulty(e) && clock <= e.now && cfg.limits(e.key).TtlHarmless(cfg.ttlBuffer)
    requires Balanced(cfg.limits(e.key), clock, s.store, e.key, s.instances.Keys)
    ensures Balanced(cfg.limits(e.key), e.now, Apply(cfg, s, e).store, e.key, s.instances.Keys)
  {
    var lim, self, key, ids := cfg.limits(e.key), e.instance, e.key, s.instances.Keys;
    var inst, g := s.instances[self], Lookup(s.store, Global(key));
    CheckKeepsPaired(cfg.policy, cfg.ttlBuffer, lim, |inst.registry|, self, inst.breaker, g,
                     Lookup(s.store, PerInstance(self, key)), clock, e.now, ids);
    var st' := Apply(cfg, s, e).store;
    CheckTouchesOwnSets(cfg, s, e);
    hide CheckKey, Apply, Paired, SoundGlobal, SameForOthers, Limit.TtlHarmless;
    forall i | i in ids ensures Paired(lim, e.now, Lookup(st', Global(key)), Lookup(st', PerInstance(i, key)), i) {
      if i != self {
        StaysPaired(lim, clock, e.now, g, Lookup(st', Global(key)), Lookup(s.store, PerInstance(i, key)), self, i);
      }
    }
  }

  lemma EvictKeepsPaired(lim: Limit, clock: nat, now: nat, g: ZSet, d: ZSet, self: string, instances: set<string>)
    requires SoundGlobal(lim, clock, g, instances) && Paired(lim, clock, g, d, self) && clock <= now
    ensures Paired(lim, now, g, d, self) && Paired(lim, now, g.Evict(now), d, self)
    ensures Paired(lim, now, g, d.Evict(now), self)
  {
  }

  lemma EvictKeepsSound(lim: Limit, clock: nat, now: nat, g: ZSet, instances: set<string>)
    requires SoundGlobal(lim, clock, g, instances) && clock <= now
    ensures SoundGlobal(lim, now, g, instances) && SoundGlobal(lim, now, g.Evict(now), instances)
  {
  }

  lemma OtherEventKeepsBalanced(cfg: Config, s: State, e: Event, key: string, clock: nat)
    requires !(e.Check? && e.key == key && Runs(s, e)) && !e.Reset? && clock <= e.now
    requires Balanced(cfg.limits(key), clock, s.store, key, s.instances.Keys)
    ensures Balanced(cfg.limits(key), e.now, Apply(cfg, s, e).store, key, s.instances.Keys)
  {
    var lim, ids, st' := cfg.limits(key), s.instances.Keys, Apply(cfg, s, e).store;
    var g := Lookup(s.store, Global(key));
    hide CheckKey, Paired, SoundGlobal, ZSet.Evict, Limit.TtlHarmless;
    EvictKeepsSound(lim, clock, e.now, g, ids);
    forall i | i in ids
      ensures Paired(lim, e.now, Lookup(st', Global(key)), Lookup(st', PerInstance(i, key)), i)
    {
      EvictKeepsPaired(lim, clock, e.now, g, Lookup(s.store, PerInstance(i, key)), i, ids);
    }
  }

  lemma {:induction false} RunBalanced(cfg: Config, start: Registries, es: seq<Event>, key: string)
    requires Timed(es) && Undisturbed(es) && cfg.limits(key).TtlHarmless(cfg.ttlBuffer)
    ensures Balanced(cfg.limits(key), Clock(es), Run(cfg, start, es).store, key, start.Keys)
    ensures Run(cfg, start, es).instances.Keys == start.Keys
  {
    if es != [] {
      var before, e := es[..|es| - 1], es[|es| - 1];
      RunBalanced(cfg, start, before, key);
      var s := Run(cfg, start, before);
      assert Clock(before) <= e.now && e in es;
      hide Balanced, CheckKey;
      if e.Check? && e.key == key && Runs(s, e) {
        CheckKeepsBalanced(cfg, s, e, Clock(before));
      } else {
        OtherEventKeepsBalanced(cfg, s, e, key, Clock(before));
      }
    }
  }

  /** The live requests of a key according to the instances' own sets. */
  function LiveLocal(st: Store, key: string, instances: set<string>, since: int): set<RequestId> {
    set i, m | i in instances && m in Lookup(st, PerInstance(i, key)).Live(since) :: m
  }

  /** Conservation: at any moment after an undisturbed run, the unexpired entries of the global
      set are the disjoint union of the unexpired entries of all instance sets. */
  lemma Conservation(cfg: Config, start: Registries, es: seq<Event>, key: string, now: nat)
    requires Timed(es) && Undisturbed(es) && cfg.limits(key).TtlHarmless(cfg.ttlBuffer) && Clock(es) <= now
    ensures var st, since := Run(cfg, start, es).store, now - cfg.limits(key).windowMs;
            && Lookup(st, Global(key)).Live(since) == LiveLocal(st, key, start.Keys, since)
            && forall i, j :: i in start && j in start && i != j ==>
                 Lookup(st, PerInstance(i, key)).Live(since) !! Lookup(st, PerInstance(j, key)).Live(since)
  {
    hide Balanced;
    RunBalanced(cfg, start, es, key);
    BalancedSplits(cfg.limits(key), Clock(es), Run(cfg, start, es).store, key, start.Keys, now);
  }

  lemma BalancedSplits(lim: Limit, clock: nat, st: Store, key: string, instances: set<string>, now: nat)
    requires Balanced(lim, clock, st, key, instances) && clock <= now
    ensures var since := now - lim.windowMs;
            && Lookup(st, Global(key)).Live(since) == LiveLocal(st, key, instances, since)
            && (forall i :: i in instances ==>
                  Lookup(st, PerInstance(i, key)).Live(since) == Share(Lookup(st, Global(key)).Live(since), {i}))
            && forall i, j :: i in instances && j in instances && i != j ==>
                 Lookup(st, PerInstance(i, key)).Live(since) !! Lookup(st, PerInstance(j, key)).Live(since)
  {
    var since, g := now - lim.windowMs, Lookup(st, Global(key));
    forall i | i in instances
      ensures Lookup(st, PerInstance(i, key)).Live(since) == Share(g.Live(since), {i})
    {
      assert Paired(lim, clock, g, Lookup(st, PerInstance(i, key)), i);
    }
    forall m | m in g.Live(since) ensures m in Lookup(st, PerInstance(m.tag, key)).Live(since) {
      assert m in Share(g.Live(since), {m.tag});
    }
  }

  /** The quotas of N instances add up to at least the limit and to fewer than N calls more. */
  lemma QuotasCoverTheLimit(maxRequests: int, peers: int)
    requires peers >= 1
    ensures maxRequests <= peers * Quota(maxRequests, peers) <= maxRequests + peers - 1
  {
  }

  function Share(live: set<RequestId>, tags: set<string>): set<RequestId> { set m | m in live && m.tag in tags }

  lemma {:induction false} Pigeonhole(live: set<RequestId>, tags: set<string>, q: int)
    requires forall i :: i in tags ==> |Share(live, {i})| >= q
    ensures |Share(live, tags)| >= |tags| * q
  {
    if tags == {} {
    } else {
      var i :| i in tags;
      var rest := tags - {i};
      Pigeonhole(live, rest, q);
      assert Share(live, tags) == Share(live, rest) + Share(live, {i});
      assert Share(live, rest) !! Share(live, {i});
      assert |tags| == |rest| + 1;
      assert |tags| * q == |rest| * q + q;
    }
  }

  /** All instances know exactly each other, and hear of nobody else. */
  ghost predicate KnowEachOther(start: Registries, es: seq<Event>) {
    && start != map[] && (forall i :: i in start ==> start[i] + {i} == start.Keys)
    && forall e :: e in es && e.Sync? ==> e.peer in start
  }

  lemma {:induction false} RegistriesStay(cfg: Config, start: Registries, es: seq<Event>)
    requires KnowEachOther(start, es)
    ensures forall i :: i in Run(cfg, start, es).instances ==> Run(cfg, start, es).instances[i].registry == start.Keys
  {
    if es != [] {
      var before, e := es[..|es| - 1], es[|es| - 1];
      assert e in es;
      RegistriesStay(cfg, start, before);
      hide CheckKey;
    }
  }

  /** While a global slot is free, some instance still has quota: its next check, if its breaker
      lets it through, is allowed. */
  lemma FreeSlotCanBeUsed(cfg: Config, start: Registries, es: seq<Event>, key: string, now: nat)
    requires Timed(es) && Undisturbed(es) && KnowEachOther(start, es) && Clock(es) <= now
    requires cfg.limits(key).TtlHarmless(cfg.ttlBuffer)
    requires |Lookup(Run(cfg, start, es).store, Global(key)).Live(now - cfg.limits(key).windowMs)|
               < cfg.limits(key).maxRequests
    ensures var s := Run(cfg, start, es);
            exists i :: i in s.instances && CanAdmit(cfg, s, i, key, now)
  {
    hide KnowEachOther, Balanced, ZSet.Live, ZSet.Sound, Quota, Run, CanAdmit, Timed, Undisturbed, Limit.TtlHarmless;
    RunBalanced(cfg, start, es, key);
    RegistriesStay(cfg, start, es);
    SomebodyExists(start, es);
    var i := SomeQuotaLeft(cfg.limits(key), Clock(es), Run(cfg, start, es).store, key, start.Keys, now);
    BelowBothCanAdmit(cfg, Run(cfg, start, es), i, key, now);
  }

  lemma SomebodyExists(start: Registries, es: seq<Event>)
    requires KnowEachOther(start, es)
    ensures |start.Keys| >= 1
  {
    var k :| k in start;
    SubsetCard({k}, start.Keys);
  }

  /** Only the instance's breaker could still turn its check away. */
  ghost predicate CanAdmit(cfg: Config, s: State, i: string, key: string, now: nat)
    requires i in s.instances
  {
    forall b: Breaker :: !b.Blocks(cfg.policy, now) ==>
      Admits(cfg, s.(instances := s.instances[i := s.instances[i].(breaker := b)]), Check(i, key, now, AllOk()))
  }

  lemma BelowBothCanAdmit(cfg: Config, s: State, i: string, key: string, now: nat)
    requires i in s.instances && |s.instances[i].registry| >= 1
    requires Lookup(s.store, PerInstance(i, key)).Sound(now) && Lookup(s.store, Global(key)).Sound(now)
    requires var lim := cfg.limits(key);
             && |Lookup(s.store, Global(key)).Live(now - lim.windowMs)| < lim.maxRequests
             && |Lookup(s.store, PerInstance(i, key)).Live(now - lim.windowMs)|
                  < Quota(lim.maxRequests, |s.instances[i].registry|)
    ensures CanAdmit(cfg, s, i, key, now)
  {
    var g, d := Lookup(s.store, Global(key)), Lookup(s.store, PerInstance(i, key));
    hide CheckKey, ZSet.Sound, ZSet.Live;
    forall b: Breaker | !b.Blocks(cfg.policy, now)
      ensures Admits(cfg, s.(instances := s.instances[i := s.instances[i].(breaker := b)]), Check(i, key, now, AllOk()))
    {
      AdmitsIffRoom(cfg.policy, cfg.ttlBuffer, cfg.limits(key), |s.instances[i].registry|, i, b, g, d, now);
    }
  }

  lemma SomeQuotaLeft(lim: Limit, clock: nat, st: Store, key: string, instances: set<string>, now: nat)
    returns (i: string)
    requires Balanced(lim, clock, st, key, instances) && clock <= now && |instances| >= 1
    requires |Lookup(st, Global(key)).Live(now - lim.windowMs)| < lim.maxRequests
    ensures i in instances && Lookup(st, PerInstance(i, key)).Sound(now) && Lookup(st, Global(key)).Sound(now)
    ensures |Lookup(st, PerInstance(i, key)).Live(now - lim.windowMs)| < Quota(lim.maxRequests, |instances|)
  {
    var live, q := Lookup(st, Global(key)).Live(now - lim.windowMs), Quota(lim.maxRequests, |instances|);
    BalancedSplits(lim, clock, st, key, instances, now);
    QuotasCoverTheLimit(lim.maxRequests, |instances|);
    assert Share(live, instances) == live;
    if forall j :: j in instances ==> |Share(live, {j})| >= q { Pigeonhole(live, instances, q); }
    i :| i in instances && |Share(live, {i})| < q;
    assert Paired(lim, clock, Lookup(st, Global(key)), Lookup(st, PerInstance(i, key)), i);
  }

  /** A check without faults is allowed exactly if the breaker lets it through and both windows
      have room. */
  lemma AdmitsIffRoom(p: Policy, ttlBuffer: int, lim: Limit, peers: nat, self: string, b: Breaker, g: ZSet, d: ZSet,
                      now: nat)
    requires peers >= 1 && g.Sound(now) && d.Sound(now)
    ensures CheckKey(p, ttlBuffer, lim, peers, self, b, g, d, now, AllOk()).result.allowed <==>
              && !b.Blocks(p, now)
              && |g.Live(now - lim.windowMs)| < lim.maxRequests
                 && |d.Live(now - lim.windowMs)| < Quota(lim.maxRequests, peers)
  {
    PruneKeepsLive(g, now, lim.windowMs);
    PruneKeepsLive(d, now, lim.windowMs);
    hide ZSet.RemoveByScore, ZSet.Add, ZSet.Expire, ZSet.Card, ZSet.Live, TtlSeconds, CeilDiv, ZSet.Sound;
  }

  /** `reset` deletes the caller's set and the global set only. The next check of the key, by the
      caller or a peer, is allowed exactly if its breaker lets it through, the limit admits
      anything, and what the instance itself has had in the window leaves its quota room. */
  lemma ResetRestoresIff(cfg: Config, s: State, caller: string, self: string, key: string, now: nat)
    requires Runs(s, Check(self, key, now, AllOk())) && Lookup(s.store, PerInstance(self, key)).Sound(now)
    ensures var s', lim, inst := Apply(cfg, s, Reset(caller, key, now, Ok, Ok)), cfg.limits(key), s.instances[self];
            && Lookup(s'.store, Global(key)) == Empty()
            && (Admits(cfg, s', Check(self, key, now, AllOk())) <==>
                  && !inst.breaker.Blocks(cfg.policy, now) && lim.maxRequests >= 1
                  && (caller == self
                      || HasQuotaLeft(lim, |inst.registry|, Lookup(s.store, PerInstance(self, key)), now)))
  {
    var lim, inst := cfg.limits(key), s.instances[self];
    hide Apply, CheckKey, HasQuotaLeft, ZSet.Sound;
    ResetDeletesTwo(cfg, s, caller, key, now, self);
    RoomAfterReset(cfg.policy, cfg.ttlBuffer, lim, |inst.registry|, self, inst.breaker,
                   Lookup(s.store, PerInstance(self, key)), now, caller == self);
  }

  /** What the instance has had in the window leaves room in its quota. */
  predicate HasQuotaLeft(lim: Limit, peers: nat, own: ZSet, now: nat)
    requires peers >= 1
  {
    |own.Live(now - lim.windowMs)| < Quota(lim.maxRequests, peers)
  }

  lemma RoomAfterReset(p: Policy, ttlBuffer: int, lim: Limit, peers: nat, self: string, b: Breaker, d: ZSet, now: nat,
                       own: bool)
    requires peers >= 1 && d.Sound(now)
    ensures CheckKey(p, ttlBuffer, lim, peers, self, b, Empty(), if own then Empty() else d, now,
                     AllOk()).result.allowed <==>
              && !b.Blocks(p, now) && lim.maxRequests >= 1 && (own || HasQuotaLeft(lim, peers, d, now))
  {
    hide CheckKey, Quota, ZSet.Live;
    if lim.maxRequests >= 1 { SomeQuota(lim.maxRequests, peers); }
    EmptyHasRoom(now - lim.windowMs);
    AdmitsIffRoom(p, ttlBuffer, lim, peers, self, b, Empty(), if own then Empty() else d, now);
  }

  lemma ResetDeletesTwo(cfg: Config, s: State, caller: string, key: string, now: nat, i: string)
    ensures var s' := Apply(cfg, s, Reset(caller, key, now, Ok, Ok));
            && s'.instances == s.instances && Lookup(s'.store, Global(key)) == Empty()
            && Lookup(s'.store, PerInstance(i, key))
                 == if caller == i then Empty() else Lookup(s.store, PerInstance(i, key))
    ensures Empty().Sound(now)
  {
  }

  lemma SomeQuota(maxRequests: int, peers: int)
    requires peers >= 1 && maxRequests >= 1
    ensures Quota(maxRequests, peers) >= 1
  {
  }

  lemma EmptyHasRoom(since: int)
    ensures |Empty().Live(since)| == 0
  {
    assert Empty().Live(since) == {};
  }

  /** The first check of a key by an instance whose breaker is closed. */
  lemma FirstCheckStores(p: Policy, ttlBuffer: int, lim: Limit, peers: nat, self: string)
    requires lim.maxRequests >= 1 && peers >= 1 && TtlSeconds(lim.windowMs, ttlBuffer) > 0
    ensures var c := CheckKey(p, ttlBuffer, lim, peers, self, Initial(), Empty(), Empty(), 0, AllOk());
            var z := ZSet(map[RequestId(0, self) := 0], Some(Expiry(TtlSeconds(lim.windowMs, ttlBuffer), 0)));
            c.result.allowed && c.breaker == Initial() && c.global == z && c.local == z
  {
    SomeQuota(lim.maxRequests, peers);
    assert Empty().RemoveByScore(0, 0 - lim.windowMs) == Empty();
    hide Quota;
  }

  /** A peer at its quota of one stays denied throughout the window of its call, although
      another instance has reset the key and nothing is counted against it any more. */
  lemma PeerIsLockedOut(cfg: Config, start: Registries, key: string, caller: string, peer: string, t: nat)
    requires caller in start && peer in start && caller != peer
    requires Quota(cfg.limits(key).maxRequests, |start[peer] + {peer}|) == 1
    requires cfg.limits(key).maxRequests >= 1 && t < cfg.limits(key).windowMs
    requires cfg.limits(key).TtlHarmless(cfg.ttlBuffer)
    ensures var first, again, reset := Check(peer, key, 0, AllOk()), Check(peer, key, t, AllOk()),
                                       Reset(caller, key, t, Ok, Ok);
            var s0, s := InitialState(start), Run(cfg, start, [first, reset]);
            && Admits(cfg, s0, first)
            && Lookup(s.store, Global(key)) == Empty() && peer in s.instances
               && !s.instances[peer].breaker.Blocks(cfg.policy, t)
            && !Admits(cfg, s, again)
  {
    var first, again, reset := Check(peer, key, 0, AllOk()), Check(peer, key, t, AllOk()),
                               Reset(caller, key, t, Ok, Ok);
    var s0 := InitialState(start);
    var none: seq<Event> := [];
    assert [first, reset][..1] == [first] && [first][..0] == none && Run(cfg, start, none) == s0;
    var lim, id := cfg.limits(key), RequestId(0, peer);
    assert Lookup(s0.store, Global(key)) == Empty() == Lookup(s0.store, PerInstance(peer, key));
    FirstCheckStores(cfg.policy, cfg.ttlBuffer, lim, |start[peer] + {peer}|, peer);
    hide CheckKey, Quota, TtlSeconds, Limit.TtlHarmless;
    var s1 := Apply(cfg, s0, first);
    assert Run(cfg, start, [first]) == s1;
    assert Lookup(s1.store, PerInstance(peer, key)).Live(t - lim.windowMs) == {id};
    ResetRestoresIff(cfg, s1, caller, peer, key, t);
  }
}
