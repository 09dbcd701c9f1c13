/** What a fault can do to the distributed limiter's bookkeeping: exactly one window of
    failure, between storing the instance's entry and extending the global key's life, can
    leave an instance with an entry that the global set forgets. */
module DistributedFaults {
  import opened Options
  import opened Redis
  import opened CircuitBreaker
  import opened RateLimitTypes
  import opened Distributed
  import opened DistributedBalance

  /** Every live entry of the instance's set is in the global set, which cannot be evicted
      before the entry leaves the window. */
  ghost predicate Sheltered(lim: Limit, clock: nat, g: ZSet, d: ZSet) {
    forall m :: m in d.scores && m.at > clock - lim.windowMs ==>
      m in g.scores && (g.deadline.Some? ==> m.at + lim.windowMs <= g.deadline.value)
  }

  /** The instances' live entries are contained in the global set, now and after evictions. */
  ghost predicate Contained(lim: Limit, clock: nat, st: Store, key: string, instances: set<string>) {
    && OnlyFrom(Lookup(st, Global(key)), clock, instances)
    && forall i :: i in instances ==>
         && OnlyFrom(Lookup(st, PerInstance(i, key)), clock, {i})
         && Sheltered(lim, clock, Lookup(st, Global(key)), Lookup(st, PerInstance(i, key)))
  }

  /** With both counts low enough, the call stores its own entry and then fails before it has
      extended the life of a global key that is due before the entry leaves the window. */
  predicate DropsExpire(lim: Limit, g: ZSet, now: nat, io: CheckIO) {
    && io.addGlobal.Ok? && io.addLocal.TookEffect() && !(io.addLocal.Ok? && io.expireGlobal.TookEffect())
    && lim.windowMs > 0 && g.deadline.Some? && g.deadline.value < now + lim.windowMs
  }

  predicate Strands(p: Policy, lim: Limit, peers: nat, b: Breaker, g: ZSet, d: ZSet, now: nat, io: CheckIO)
    requires peers >= 1
  {
    var g0, d0 := g.RemoveByScore(0, now - lim.windowMs), d.RemoveByScore(0, now - lim.windowMs);
    && !b.Blocks(p, now)
    && io.pruneGlobal.Ok? && io.countGlobal.Ok? && g0.Card() < lim.maxRequests
    && io.pruneLocal.Ok? && io.countLocal.Ok? && d0.Card() < Quota(lim.maxRequests, peers)
    && DropsExpire(lim, g0, now, io)
  }

  lemma PruneSheltered(lim: Limit, clock: nat, now: nat, g: ZSet, d: ZSet)
    requires g.Sound(clock) && d.Sound(clock) && clock <= now && Sheltered(lim, clock, g, d)
    ensures var g0, d0 := g.RemoveByScore(0, now - lim.windowMs), d.RemoveByScore(0, now - lim.windowMs);
            && g0.Sound(now) && d0.Sound(now)
            && Sheltered(lim, now, g, d) && Sheltered(lim, now, g0, d) && Sheltered(lim, now, g0, d0)
  {
    PruneKeepsLive(g, now, lim.windowMs);
    PruneKeepsLive(d, now, lim.windowMs);
    assert g.RemoveByScore(0, now - lim.windowMs).scores.Keys == g.Live(now - lim.windowMs);
  }

  /** Storing the entry on both sides and only then losing the EXPIRE is what strands it. */
  lemma RecordSheltered(lim: Limit, ttlBuffer: int, g: ZSet, d: ZSet, id: RequestId)
    requires lim.TtlHarmless(ttlBuffer) && lim.maxRequests > 0
    requires g.Sound(id.at) && d.Sound(id.at) && Sheltered(lim, id.at, g, d)
    ensures var g1, d1, ttl := g.Add(id.at, id), d.Add(id.at, id), TtlSeconds(lim.windowMs, ttlBuffer);
            && Sheltered(lim, id.at, g1, d) && Sheltered(lim, id.at, g1.Expire(ttl, id.at), d)
            && Sheltered(lim, id.at, g1.Expire(ttl, id.at), d1)
               && Sheltered(lim, id.at, g1.Expire(ttl, id.at), d1.Expire(ttl, id.at))
            && (Sheltered(lim, id.at, g1, d1)
                <==> !(lim.windowMs > 0 && g.deadline.Some? && g.deadline.value < id.at + lim.windowMs))
  {
    var g1, d1 := g.Add(id.at, id), d.Add(id.at, id);
    assert id in d1.scores;
  }

  lemma RecordStaysFrom(z: ZSet, id: RequestId, tags: set<string>, seconds: int)
    requires OnlyFrom(z, id.at, tags) && id.tag in tags
    ensures OnlyFrom(z.Add(id.at, id), id.at, tags) && OnlyFrom(z.Add(id.at, id).Expire(seconds, id.at), id.at, tags)
  {
  }

  lemma RecordShelterIff(p: Policy, ttlBuffer: int, lim: Limit, b: Breaker, g: ZSet, d: ZSet, id: RequestId,
                         io: CheckIO)
    requires lim.TtlHarmless(ttlBuffer) && lim.maxRequests > 0
    requires g.Sound(id.at) && d.Sound(id.at) && Sheltered(lim, id.at, g, d)
    ensures var c := Record(p, ttlBuffer, lim, id, b, g, d, io);
            Sheltered(lim, id.at, c.global, c.local)
            <==> !DropsExpire(lim, g, id.at, io)
  {
    hide ZSet.Add, ZSet.Expire, ZSet.Card, TtlSeconds, CeilDiv, Sheltered, Limit.TtlHarmless, ZSet.Sound, Breaker.Probe,
         Breaker.RecordFailure, Breaker.Succeed;
    RecordSheltered(lim, ttlBuffer, g, d, id);
  }

  lemma OwnShelterIff(p: Policy, ttlBuffer: int, lim: Limit, peers: nat, self: string, b: Breaker, g: ZSet, d: ZSet,
                      clock: nat, now: nat, io: CheckIO)
    requires lim.TtlHarmless(ttlBuffer) && clock <= now && peers >= 1
    requires g.Sound(clock) && d.Sound(clock) && Sheltered(lim, clock, g, d)
    ensures var c := CheckKey(p, ttlBuffer, lim, peers, self, b, g, d, now, io);
            Sheltered(lim, now, c.global, c.local) <==> !Strands(p, lim, peers, b, g, d, now, io)
  {
    hide ZSet.RemoveByScore, ZSet.Card, TtlSeconds, Quota, Sheltered, Limit.TtlHarmless, ZSet.Sound, Record,
         Breaker.Blocks, DropsExpire, Breaker.Probe, Breaker.RecordFailure, Blocked;
    PruneSheltered(lim, clock, now, g, d);
    var g0, d0 := g.RemoveByScore(0, now - lim.windowMs), d.RemoveByScore(0, now - lim.windowMs);
    if lim.maxRequests > 0 { RecordShelterIff(p, ttlBuffer, lim, b, g0, d0, RequestId(now, self), io); }
  }

  lemma OthersStaySheltered(p: Policy, ttlBuffer: int, lim: Limit, peers: nat, self: string, b: Breaker, g: ZSet,
                            d: ZSet, other: ZSet, clock: nat, now: nat, io: CheckIO)
    requires lim.TtlHarmless(ttlBuffer) && clock <= now && peers >= 1
    requires g.Sound(clock) && other.Sound(clock) && Sheltered(lim, clock, g, other)
    ensures Sheltered(lim, now, CheckKey(p, ttlBuffer, lim, peers, self, b, g, d, now, io).global, other)
  {
    hide ZSet.RemoveByScore, ZSet.Card, TtlSeconds, Quota, Sheltered, Limit.TtlHarmless, ZSet.Sound, ZSet.Add,
         ZSet.Expire, Breaker.Blocks, Breaker.Probe, Breaker.RecordFailure, Breaker.Succeed, Blocked;
    PruneSheltered(lim, clock, now, g, other);
    var g0 := g.RemoveByScore(0, now - lim.windowMs);
    assert other.Sound(now) by { SoundLater(other, clock, now); }
    if lim.maxRequests > 0 { RecordSheltered(lim, ttlBuffer, g0, other, RequestId(now, self)); }
  }

  lemma SoundLater(z: ZSet, clock: nat, now: nat)
    requires z.Sound(clock) && clock <= now
    ensures z.Sound(now)
  {
  }

  /** Whatever happens to its commands, a check stores nobody else's entry anywhere. */
  lemma CheckStaysFrom(p: Policy, ttlBuffer: int, lim: Limit, peers: nat, self: string, b: Breaker, g: ZSet, d: ZSet,
                       clock: nat, now: nat, io: CheckIO, instances: set<string>)
    requires clock <= now && peers >= 1 && self in instances
    requires OnlyFrom(g, clock, instances) && OnlyFrom(d, clock, {self})
    ensures var c := CheckKey(p, ttlBuffer, lim, peers, self, b, g, d, now, io);
            OnlyFrom(c.global, now, instances) && OnlyFrom(c.local, now, {self})
  {
    hide ZSet.RemoveByScore, ZSet.Card, TtlSeconds, Quota, OnlyFrom, ZSet.Add, ZSet.Expire,
         Breaker.Blocks, Breaker.Probe, Breaker.RecordFailure, Breaker.Succeed, Blocked;
    PruneFrom(lim, clock, now, g, instances);
    PruneFrom(lim, clock, now, d, {self});
    var id, ttl := RequestId(now, self), TtlSeconds(lim.windowMs, ttlBuffer);
    RecordStaysFrom(g.RemoveByScore(0, now - lim.windowMs), id, instances, ttl);
    RecordStaysFrom(d.RemoveByScore(0, now - lim.windowMs), id, {self}, ttl);
  }

  lemma PruneFrom(lim: Limit, clock: nat, now: nat, z: ZSet, tags: set<string>)
    requires OnlyFrom(z, clock, tags) && clock <= now
    ensures OnlyFrom(z, now, tags) && OnlyFrom(z.RemoveByScore(0, now - lim.windowMs), now, tags)
  {
  }

  predicate StrandsIn(cfg: Config, s: State, e: Event) {
    Runs(s, e)
    && var i := s.instances[e.instance];
       Strands(cfg.policy, cfg.limits(e.key), |i.registry|, i.breaker, Lookup(s.store, Global(e.key)),
               Lookup(s.store, PerInstance(e.instance, e.key)), e.now, e.io)
  }

  /** One check, any faults: containment survives exactly when the call does not strand its
      own entry. */
  lemma ContainmentSurvivesIff(cfg: Config, s: State, e: Event, clock: nat)
    requires e.Check? && Runs(s, e) && clock <= e.now && cfg.limits(e.key).TtlHarmless(cfg.ttlBuffer)
    requires Contained(cfg.limits(e.key), clock, s.store, e.key, s.instances.Keys)
    ensures Contained(cfg.limits(e.key), e.now, Apply(cfg, s, e).store, e.key, s.instances.Keys)
            <==> !StrandsIn(cfg, s, e)
  {
    OwnEntryShelteredIff(cfg, s, e, clock);
    hide CheckKey, StrandsIn, Sheltered, OnlyFrom, Limit.TtlHarmless, Apply, Runs;
    forall i | i in s.instances.Keys && i != e.instance
      ensures var st' := Apply(cfg, s, e).store;
              var d := Lookup(st', PerInstance(i, e.key));
              OnlyFrom(d, e.now, {i}) && Sheltered(cfg.limits(e.key), e.now, Lookup(st', Global(e.key)), d)
    {
      OtherEntriesSheltered(cfg, s, e, clock, i);
    }
  }

  lemma OwnEntryShelteredIff(cfg: Config, s: State, e: Event, clock: nat)
    requires e.Check? && Runs(s, e) && clock <= e.now && cfg.limits(e.key).TtlHarmless(cfg.ttlBuffer)
    requires Contained(cfg.limits(e.key), clock, s.store, e.key, s.instances.Keys)
    ensures var st' := Apply(cfg, s, e).store;
            var g, d := Lookup(st', Global(e.key)), Lookup(st', PerInstance(e.instance, e.key));
            && OnlyFrom(g, e.now, s.instances.Keys) && OnlyFrom(d, e.now, {e.instance})
            && (Sheltered(cfg.limits(e.key), e.now, g, d) <==> !StrandsIn(cfg, s, e))
  {
    var inst, ids := s.instances[e.instance], s.instances.Keys;
    var g, d := Lookup(s.store, Global(e.key)), Lookup(s.store, PerInstance(e.instance, e.key));
    hide CheckKey, Strands, Sheltered, OnlyFrom, ZSet.Sound, Limit.TtlHarmless;
    FromIsSound(g, clock, ids);
    FromIsSound(d, clock, {e.instance});
    OwnShelterIff(cfg.policy, cfg.ttlBuffer, cfg.limits(e.key), |inst.registry|, e.instance, inst.breaker, g, d, clock,
                  e.now, e.io);
    CheckStaysFrom(cfg.policy, cfg.ttlBuffer, cfg.limits(e.key), |inst.registry|, e.instance, inst.breaker, g, d, clock,
                   e.now, e.io, ids);
  }

  lemma OtherEntriesSheltered(cfg: Config, s: State, e: Event, clock: nat, i: string)
    requires e.Check? && Runs(s, e) && clock <= e.now && cfg.limits(e.key).TtlHarmless(cfg.ttlBuffer)
    requires Contained(cfg.limits(e.key), clock, s.store, e.key, s.instances.Keys)
    requires i in s.instances && i != e.instance
    ensures var st' := Apply(cfg, s, e).store;
            var d := Lookup(st', PerInstance(i, e.key));
            OnlyFrom(d, e.now, {i}) && Sheltered(cfg.limits(e.key), e.now, Lookup(st', Global(e.key)), d)
  {
    var inst, ids := s.instances[e.instance], s.instances.Keys;
    var g, d, di := Lookup(s.store, Global(e.key)), Lookup(s.store, PerInstance(e.instance, e.key)),
                    Lookup(s.store, PerInstance(i, e.key));
    hide CheckKey, Sheltered, OnlyFrom, ZSet.Sound, Limit.TtlHarmless;
    FromIsSound(g, clock, ids);
    FromIsSound(di, clock, {i});
    PruneFrom(cfg.limits(e.key), clock, e.now, di, {i});
    OthersStaySheltered(cfg.policy, cfg.ttlBuffer, cfg.limits(e.key), |inst.registry|, e.instance, inst.breaker, g, d,
                        di, clock, e.now, e.io);
  }

  lemma FromIsSound(z: ZSet, clock: nat, tags: set<string>)
    requires OnlyFrom(z, clock, tags)
    ensures z.Sound(clock)
  {
  }

  lemma EvictKeepsSheltered(lim: Limit, clock: nat, now: nat, g: ZSet, d: ZSet, self: string, instances: set<string>)
    requires OnlyFrom(g, clock, instances) && OnlyFrom(d, clock, {self}) && Sheltered(lim, clock, g, d) && clock <= now
    ensures OnlyFrom(g, now, instances) && OnlyFrom(g.Evict(now), now, instances)
    ensures OnlyFrom(d, now, {self}) && OnlyFrom(d.Evict(now), now, {self})
    ensures Sheltered(lim, now, g, d) && Sheltered(lim, now, g.Evict(now), d) && Sheltered(lim, now, g, d.Evict(now))
  {
  }

  lemma GlobalStays(lim: Limit, clock: nat, now: nat, g: ZSet, instances: set<string>)
    requires OnlyFrom(g, clock, instances) && clock <= now
    ensures OnlyFrom(g, now, instances) && OnlyFrom(g.Evict(now), now, instances)
  {
  }

  lemma OtherEventKeepsContained(cfg: Config, s: State, e: Event, key: string, clock: nat)
    requires !(e.Check? && e.key == key && Runs(s, e)) && !e.Reset? && clock <= e.now
    requires Contained(cfg.limits(key), clock, s.store, key, s.instances.Keys)
    ensures Contained(cfg.limits(key), e.now, Apply(cfg, s, e).store, key, s.instances.Keys)
  {
    hide CheckKey, OnlyFrom, Sheltered, ZSet.Evict;
    var lim, ids, st' := cfg.limits(key), s.instances.Keys, Apply(cfg, s, e).store;
    var g := Lookup(s.store, Global(key));
    GlobalStays(lim, clock, e.now, g, ids);
    forall i | i in ids
      ensures var di := Lookup(st', PerInstance(i, key));
              OnlyFrom(di, e.now, {i}) && Sheltered(lim, e.now, Lookup(st', Global(key)), di)
    {
      EvictKeepsSheltered(lim, clock, e.now, g, Lookup(s.store, PerInstance(i, key)), i, ids);
    }
  }

  /** No step of the run strands an entry of the key. */
  ghost predicate NeverStrands(cfg: Config, start: Registries, es: seq<Event>, key: string) {
    es == [] || (NeverStrands(cfg, start, es[..|es| - 1], key)
                 && var e := es[|es| - 1];
                    !(e.Check? && e.key == key && StrandsIn(cfg, Run(cfg, start, es[..|es| - 1]), e)))
  }

  /** With any other faults, at any commands, the instances' live entries stay contained in
      the global set: faults only make the limiter count too much. */
  lemma {:induction false} FaultsOnlyOverCount(cfg: Config, start: Registries, es: seq<Event>, key: string)
    requires Timed(es) && NeverStrands(cfg, start, es, key) && cfg.limits(key).TtlHarmless(cfg.ttlBuffer)
    requires forall e :: e in es ==> !e.Reset?
    ensures var st, lim := Run(cfg, start, es).store, cfg.limits(key);
            && Contained(lim, Clock(es), st, key, start.Keys)
            && LiveLocal(st, key, start.Keys, Clock(es) - lim.windowMs)
                 <= Lookup(st, Global(key)).Live(Clock(es) - lim.windowMs)
    ensures Run(cfg, start, es).instances.Keys == start.Keys
  {
    if es != [] {
      var before, e := es[..|es| - 1], es[|es| - 1];
      FaultsOnlyOverCount(cfg, start, before, key);
      var s := Run(cfg, start, before);
      assert Clock(before) <= e.now && e in es;
      hide Contained, CheckKey, StrandsIn, LiveLocal;
      if e.Check? && e.key == key && Runs(s, e) {
        ContainmentSurvivesIff(cfg, s, e, Clock(before));
      } else {
        OtherEventKeepsContained(cfg, s, e, key, Clock(before));
      }
    }
    ContainedLive(cfg.limits(key), Clock(es), Run(cfg, start, es).store, key, start.Keys);
  }

  lemma ContainedLive(lim: Limit, clock: nat, st: Store, key: string, instances: set<string>)
    ensures Contained(lim, clock, st, key, instances) ==>
              LiveLocal(st, key, instances, clock - lim.windowMs) <= Lookup(st, Global(key)).Live(clock - lim.windowMs)
  {
  }

  /** The stranded entry outlives the global set: at the eviction the call failed to postpone,
      its instance still counts it and the global set counts nothing. The call was blocked. */
  lemma StrandedEntryIsForgotten(cfg: Config, s: State, e: Event)
    requires e.Check? && StrandsIn(cfg, s, e)
    ensures var lim, s1 := cfg.limits(e.key), Apply(cfg, s, e);
            var due := Lookup(s1.store, Global(e.key)).deadline;
            && !Admits(cfg, s, e) && due.Some? && due.value < e.now + lim.windowMs
            && var t := if due.value < e.now then e.now else due.value;
               var s2 := Apply(cfg, s1, Evict(Global(e.key), t));
               && Lookup(s2.store, Global(e.key)) == Empty()
               && RequestId(e.now, e.instance)
                    in Lookup(s2.store, PerInstance(e.instance, e.key)).Live(t - lim.windowMs)
  {
    hide ZSet.RemoveByScore, ZSet.Card, TtlSeconds, Quota;
  }

  /** After every event of the run, and after the global key may have been evicted at any later
      moment, the instances' live entries are live entries of the global set. */
  ghost predicate AlwaysContained(cfg: Config, start: Registries, es: seq<Event>, key: string) {
    && (forall t: nat :: Clock(es) <= t ==> ContainedAt(cfg, start, es, key, t))
    && (es == [] || AlwaysContained(cfg, start, es[..|es| - 1], key))
  }

  ghost predicate ContainedAt(cfg: Config, start: Registries, es: seq<Event>, key: string, t: nat) {
    var st, since := Apply(cfg, Run(cfg, start, es), Evict(Global(key), t)).store, t - cfg.limits(key).windowMs;
    LiveLocal(st, key, start.Keys, since) <= Lookup(st, Global(key)).Live(since)
  }

  /** Over whole runs without resets, with any faults: the instances never count an entry that
      the global set has forgotten if and only if no call strands its entry. */
  lemma {:induction false} AlwaysContainedIff(cfg: Config, start: Registries, es: seq<Event>, key: string)
    requires Timed(es) && cfg.limits(key).TtlHarmless(cfg.ttlBuffer) && forall e :: e in es ==> !e.Reset?
    ensures AlwaysContained(cfg, start, es, key) <==> NeverStrands(cfg, start, es, key)
  {
    if es != [] { AlwaysContainedIff(cfg, start, es[..|es| - 1], key); }
    hide ContainedAt, LiveLocal, StrandsIn, Run;
    if NeverStrands(cfg, start, es, key) {
      forall t: nat | Clock(es) <= t ensures ContainedAt(cfg, start, es, key, t) {
        NotStrandedIsContained(cfg, start, es, key, t);
      }
    } else if NeverStrands(cfg, start, es[..|es| - 1], key) {
      var t := StrandedIsNotContained(cfg, start, es, key);
      assert !ContainedAt(cfg, start, es, key, t);
    }
  }

  lemma NotStrandedIsContained(cfg: Config, start: Registries, es: seq<Event>, key: string, t: nat)
    requires Timed(es) && cfg.limits(key).TtlHarmless(cfg.ttlBuffer) && forall e :: e in es ==> !e.Reset?
    requires NeverStrands(cfg, start, es, key) && Clock(es) <= t
    ensures ContainedAt(cfg, start, es, key, t)
  {
    var s, evict := Run(cfg, start, es), Evict(Global(key), t);
    FaultsOnlyOverCount(cfg, start, es, key);
    hide Contained, LiveLocal, Run;
    OtherEventKeepsContained(cfg, s, evict, key, Clock(es));
    ContainedLive(cfg.limits(key), t, Apply(cfg, s, evict).store, key, start.Keys);
  }

  lemma StrandedIsNotContained(cfg: Config, start: Registries, es: seq<Event>, key: string) returns (t: nat)
    requires es != []
    requires var e := es[|es| - 1]; e.Check? && e.key == key && StrandsIn(cfg, Run(cfg, start, es[..|es| - 1]), e)
    ensures Clock(es) <= t && !ContainedAt(cfg, start, es, key, t)
  {
    var before, e := es[..|es| - 1], es[|es| - 1];
    var s := Run(cfg, start, before);
    InstancesStay(cfg, start, before);
    assert e.instance in start.Keys by { assert Runs(s, e); }
    hide StrandsIn, Apply, LiveLocal;
    t := ForgottenLater(cfg, s, e, start.Keys);
  }

  lemma {:induction false} InstancesStay(cfg: Config, start: Registries, es: seq<Event>)
    ensures Run(cfg, start, es).instances.Keys == start.Keys
  {
    if es != [] {
      hide CheckKey;
      InstancesStay(cfg, start, es[..|es| - 1]);
    }
  }

  lemma ForgottenLater(cfg: Config, s: State, e: Event, instances: set<string>) returns (t: nat)
    requires e.Check? && StrandsIn(cfg, s, e) && e.instance in instances
    ensures var st, since := Apply(cfg, Apply(cfg, s, e), Evict(Global(e.key), t)).store,
                             t - cfg.limits(e.key).windowMs;
            e.now <= t && !(LiveLocal(st, e.key, instances, since) <= Lookup(st, Global(e.key)).Live(since))
  {
    hide StrandsIn, Apply, Admits, ZSet.Live, LiveLocal;
    StrandedEntryIsForgotten(cfg, s, e);
    var s1 := Apply(cfg, s, e);
    var due := Lookup(s1.store, Global(e.key)).deadline.value;
    t := if due < e.now then e.now else due;
    CountedButForgotten(Apply(cfg, s1, Evict(Global(e.key), t)).store, e.key, instances, t - cfg.limits(e.key).windowMs,
                        e.instance, RequestId(e.now, e.instance));
  }

  lemma CountedButForgotten(st: Store, key: string, instances: set<string>, since: int, i: string, m: RequestId)
    requires i in instances && m in Lookup(st, PerInstance(i, key)).Live(since) && Lookup(st, Global(key)) == Empty()
    ensures !(LiveLocal(st, key, instances, since) <= Lookup(st, Global(key)).Live(since))
  {
    assert m in LiveLocal(st, key, instances, since) && m !in Lookup(st, Global(key)).Live(since);
  }

  /** Such a run exists: a's call sets the TTL, b's call half a second later stores its entry
      and then loses the EXPIRE. */
  lemma StrandingIsReachable()
    ensures var cfg := Config(Policy(5, 30000), 0, _ => Limit(4, 1000));
            var start: Registries := map["a" := {"b"}, "b" := {"a"}];
            var first := Check("a", "k", 0, AllOk());
            StrandsIn(cfg, Run(cfg, start, [first]), Check("b", "k", 500, AllOk().(expireGlobal := FailedBefore)))
  {
    var cfg := Config(Policy(5, 30000), 0, _ => Limit(4, 1000));
    var start: Registries := map["a" := {"b"}, "b" := {"a"}];
    var first := Check("a", "k", 0, AllOk());
    FirstCheckRun(cfg, start);
    hide CheckKey, Run, Apply;
    var g := ZSet(map[RequestId(0, "a") := 0], Some(1001));
    assert g.RemoveByScore(0, 500 - 1000).scores == g.scores;
    assert Empty().RemoveByScore(0, 500 - 1000) == Empty();
  }

  lemma FirstCheckRun(cfg: Config, start: Registries)
    requires cfg.ttlBuffer == 0 && cfg.limits("k") == Limit(4, 1000) && start == map["a" := {"b"}, "b" := {"a"}]
    ensures var s := Run(cfg, start, [Check("a", "k", 0, AllOk())]);
            && Lookup(s.store, Global("k")) == ZSet(map[RequestId(0, "a") := 0], Some(1001))
            && Lookup(s.store, PerInstance("b", "k")) == Empty()
            && "b" in s.instances && s.instances["b"] == Instance(Initial(), {"a", "b"}) && |{"a", "b"}| == 2
  {
    hide CheckKey, TtlSeconds;
    var first := Check("a", "k", 0, AllOk());
    var s := InitialState(start);
    RunOfOne(cfg, start, first);
    TwoPeers(start);
    TtlOfSecond();
    FirstCheckStores(cfg.policy, 0, cfg.limits("k"), 2, "a");
  }

  lemma RunOfOne(cfg: Config, start: Registries, e: Event)
    ensures Run(cfg, start, [e]) == Apply(cfg, InitialState(start), e)
  {
    var none: seq<Event> := [];
    assert [e][..0] == none;
    hide Apply;
  }

  lemma TwoPeers(start: Registries)
    requires start == map["a" := {"b"}, "b" := {"a"}]
    ensures var s := InitialState(start);
            && "a" in s.instances && s.instances["a"] == Instance(Initial(), {"a", "b"})
            && "b" in s.instances && s.instances["b"] == Instance(Initial(), {"a", "b"}) && |{"a", "b"}| == 2
  {
    assert {"b"} + {"a"} == {"a", "b"};
  }

  lemma TtlOfSecond()
    ensures TtlSeconds(1000, 0) == 1
  {
  }
}
