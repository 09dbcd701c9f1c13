/** Evictions while calls are in flight. A call whose key is dropped between its ZADD and its
    EXPIRE is still allowed; this is when such calls stay within the bound all the same. */
module InterleavingEvictions {
  import opened Redis
  import opened RateLimitTypes
  import D = Distributed
  import opened DistributedInterleaving
  import opened InterleavingHistory
  import opened InterleavingBounds

  /** Either a check passes on an empty set only, or entries of the past never count. */
  predicate Tolerant(lim: Limit) { lim.maxRequests <= 1 || lim.windowMs <= 1 }

  /** While the request is in the window its key cannot be dropped. */
  ghost predicate Lasting(lim: Limit, clock: nat, z: ZSet, m: RequestId) {
    m.at <= clock && (m.at > clock - lim.windowMs && z.deadline.Some? ==> m.at + lim.windowMs <= z.deadline.value)
  }

  /** And it is in the set. */
  ghost predicate Safe(lim: Limit, clock: nat, z: ZSet, m: RequestId) {
    Lasting(lim, clock, z, m) && (m.at > clock - lim.windowMs ==> m in z.scores)
  }

  ghost predicate Tidy(lim: Limit, clock: nat, z: ZSet) {
    z.Sound(clock) && (z.scores == map[] ==> z == Empty()) && forall m :: m in z.scores ==> Lasting(lim, clock, z, m)
  }

  /** From here on no deadline from before the call threatens its entry. */
  predicate Clear(lim: Limit, c: Call) {
    c.Passed() || c.Stored() || (lim.windowMs <= 1 && c.phase.CountGlobal?)
  }

  ghost predicate CallSafe(lim: Limit, clock: nat, z: ZSet, c: Call) {
    && c.now <= clock
    && (c.Passed() || c.Stored() ==> lim.maxRequests >= 1)
    && (Clear(lim, c) ==> Lasting(lim, clock, z, c.Id()))
    && (c.Stored() && !c.wiped ==> Safe(lim, clock, z, c.Id()))
  }

  ghost predicate AllSafe(sys: System, s: State, key: string) {
    var lim, g := sys.config.limits(key), Lookup(s.store, Global(key));
    && Tidy(lim, s.clock, g)
    && (forall id :: id in s.calls && s.calls[id].key == key ==> CallSafe(lim, s.clock, g, s.calls[id]))
    && forall x :: x in s.granted && x.key == key ==> Safe(lim, s.clock, g, x.id)
  }

  ghost predicate LosesNothing(lim: Limit, clock: nat, z: ZSet, z': ZSet) {
    && Tidy(lim, clock, z')
    && (forall m :: Lasting(lim, clock, z, m) ==> Lasting(lim, clock, z', m))
    && (forall m :: Safe(lim, clock, z, m) ==> Safe(lim, clock, z', m))
  }

  lemma PruneLosesNothing(lim: Limit, clock: nat, g: ZSet, c: Call)
    requires Tidy(lim, clock, g) && c.now <= clock
    ensures LosesNothing(lim, clock, g, g) && LosesNothing(lim, clock, g, g.RemoveByScore(0, c.now - lim.windowMs))
    ensures lim.windowMs <= 1 ==> Lasting(lim, clock, g.RemoveByScore(0, c.now - lim.windowMs), c.Id())
  {
    var p := g.RemoveByScore(0, c.now - lim.windowMs);
    assert forall m :: m in g.scores && m.at > clock - lim.windowMs ==> m in p.scores;
    if lim.windowMs <= 1 && c.now > clock - lim.windowMs && p.deadline.Some? {
      var m :| m in p.scores;
      assert m.at == c.now == clock && Lasting(lim, clock, g, m);
    }
  }

  lemma AddLosesNothing(lim: Limit, clock: nat, g: ZSet, c: Call)
    requires Tidy(lim, clock, g) && c.now <= clock && Lasting(lim, clock, g, c.Id())
    ensures LosesNothing(lim, clock, g, g.Add(c.now, c.Id())) && Safe(lim, clock, g.Add(c.now, c.Id()), c.Id())
  {
  }

  lemma ExpireLosesNothing(lim: Limit, ttlBuffer: int, clock: nat, g: ZSet)
    requires Tidy(lim, clock, g) && lim.TtlHarmless(ttlBuffer) && lim.maxRequests >= 1
    ensures LosesNothing(lim, clock, g, g.Expire(TtlSeconds(lim.windowMs, ttlBuffer), clock))
  {
  }

  lemma EmptyIsClear(lim: Limit, clock: nat, g: ZSet, c: Call)
    requires Tidy(lim, clock, g) && c.now <= clock && g.Card() < lim.maxRequests <= 1
    ensures Lasting(lim, clock, g, c.Id())
  {
  }

  lemma PerformSafe(lim: Limit, ttlBuffer: int, peers: nat, clock: nat, c: Call, g: ZSet, d: ZSet, reply: Reply)
    requires Tolerant(lim) && lim.TtlHarmless(ttlBuffer) && Tidy(lim, clock, g) && CallSafe(lim, clock, g, c)
    ensures var p := Perform(lim, ttlBuffer, peers, clock, c, g, d, reply);
            && LosesNothing(lim, clock, g, p.global)
            && (p.outcome.Continue? ==> CallSafe(lim, clock, p.global, c.(phase := p.outcome.next)))
            && (p.outcome.Deny? ==> CallSafe(lim, clock, p.global, c.(phase := Publish)))
            && (p.outcome.Grant? && !c.wiped ==> Safe(lim, clock, p.global, c.Id()))
  {
    hide ZSet.RemoveByScore, ZSet.Add, ZSet.Expire, ZSet.Card, TtlSeconds, D.Quota, Limit.TtlHarmless;
    hide Lasting, Safe, Tidy, CallSafe, LosesNothing;
    CallFacts(lim, clock, g, c);
    PruneLosesNothing(lim, clock, g, c);
    if c.phase.AddGlobal? { AddLosesNothing(lim, clock, g, c); }
    if c.Stored() { ExpireLosesNothing(lim, ttlBuffer, clock, g); }
    if g.Card() < lim.maxRequests <= 1 { EmptyIsClear(lim, clock, g, c); }
    var p := Perform(lim, ttlBuffer, peers, clock, c, g, d, reply);
    StillSafe(lim, clock, g, p.global, c.Id());
    CallMoves(lim, clock, g, p.global, c, if p.outcome.Continue? then p.outcome.next else Publish);
  }

  lemma CallFacts(lim: Limit, clock: nat, g: ZSet, c: Call)
    requires CallSafe(lim, clock, g, c)
    ensures c.now <= clock && (c.Passed() || c.Stored() ==> lim.maxRequests >= 1)
    ensures Clear(lim, c) ==> Lasting(lim, clock, g, c.Id())
    ensures c.Stored() && !c.wiped ==> Safe(lim, clock, g, c.Id())
  {
  }

  lemma StillSafe(lim: Limit, clock: nat, g: ZSet, g': ZSet, m: RequestId)
    requires LosesNothing(lim, clock, g, g')
    ensures Lasting(lim, clock, g, m) ==> Lasting(lim, clock, g', m)
    ensures Safe(lim, clock, g, m) ==> Safe(lim, clock, g', m)
  {
  }

  lemma CallMoves(lim: Limit, clock: nat, g: ZSet, g': ZSet, c: Call, next: Phase)
    requires CallSafe(lim, clock, g, c) && LosesNothing(lim, clock, g, g')
    ensures var c' := c.(phase := next);
            && (c'.Passed() || c'.Stored() ==> lim.maxRequests >= 1)
               && (Clear(lim, c') ==> Lasting(lim, clock, g', c.Id()))
            && (c'.Stored() && !c.wiped ==> Safe(lim, clock, g', c.Id()))
            ==> CallSafe(lim, clock, g', c')
  {
  }

  lemma SafeThrough(lim: Limit, clock: nat, g: ZSet, g': ZSet, c: Call)
    requires CallSafe(lim, clock, g, c) && LosesNothing(lim, clock, g, g')
    ensures CallSafe(lim, clock, g', c)
  {
  }

  lemma ReplyKeepsSafe(sys: System, s: State, id: nat, reply: Reply, key: string)
    requires id in s.calls && AllSafe(sys, s, key)
    requires sys.config.limits(key).TtlHarmless(sys.config.ttlBuffer) && Tolerant(sys.config.limits(key))
    ensures AllSafe(sys, OnReply(sys, s, id, reply), key)
  {
    hide OnReply, Perform, Lasting, Safe, Tidy, CallSafe;
    ReplyShape(sys, s, id, reply);
    var c, s', lim := s.calls[id], OnReply(sys, s, id, reply), sys.config.limits(key);
    var g, g' := Lookup(s.store, Global(key)), Lookup(s'.store, Global(key));
    if c.key == key {
      PerformSafe(lim, sys.config.ttlBuffer, Peers(s, c.instance), s.clock, c, g,
                  Lookup(s.store, PerInstance(c.instance, c.key)), reply);
    }
    forall x | x in s'.calls && s'.calls[x].key == key ensures CallSafe(lim, s.clock, g', s'.calls[x]) {
      if x != id && c.key == key { SafeThrough(lim, s.clock, g, g', s.calls[x]); }
    }
  }

  /** Time only lets requests leave the window, and no eviction meets one that is still in it. */
  lemma SafeLater(lim: Limit, clock: nat, now: nat, g: ZSet)
    requires clock <= now && Tidy(lim, clock, g)
    ensures Tidy(lim, now, g) && Tidy(lim, now, g.Evict(now)) && Tidy(lim, now, Empty())
    ensures forall m :: Safe(lim, clock, g, m) ==> Safe(lim, now, g, m) && Safe(lim, now, g.Evict(now), m)
  {
  }

  lemma CallSafeLater(lim: Limit, clock: nat, now: nat, g: ZSet, c: Call)
    requires clock <= now && CallSafe(lim, clock, g, c)
    ensures CallSafe(lim, now, g, c)
    ensures CallSafe(lim, now, g.Evict(now), Swept(c, false)) && CallSafe(lim, now, Empty(), Swept(c, true))
  {
  }

  lemma OtherKeepsSafe(sys: System, s: State, l: Label, key: string)
    requires AllSafe(sys, s, key) && !l.Command? && !l.Tick?
    ensures AllSafe(sys, Step(sys, s, l), key)
  {
    var lim, g, s' := sys.config.limits(key), Lookup(s.store, Global(key)), Step(sys, s, l);
    SafeLater(lim, s.clock, s.clock, g);
    OtherSteps(sys, s, l, key);
    assert forall i :: CallSafe(lim, s.clock, g, Begun(i, key, s.clock));
    hide CallSafe, Safe, Tidy, Lasting, ZSet.Evict, Step, Swept, Begun;
    forall id | id in s'.calls && s'.calls[id].key == key
      ensures CallSafe(lim, s.clock, Lookup(s'.store, Global(key)), s'.calls[id])
    {
      if id in s.calls && s.calls[id].key == key { CallSafeLater(lim, s.clock, s.clock, g, s.calls[id]); }
    }
  }

  lemma StepKeepsSafe(sys: System, s: State, l: Label, key: string)
    requires AllSafe(sys, s, key)
    requires sys.config.limits(key).TtlHarmless(sys.config.ttlBuffer) && Tolerant(sys.config.limits(key))
    ensures AllSafe(sys, Step(sys, s, l), key)
  {
    var lim, g := sys.config.limits(key), Lookup(s.store, Global(key));
    if l.Command? {
      hide OnReply, AllSafe;
      if l.call in s.calls { ReplyKeepsSafe(sys, s, l.call, l.reply, key); }
    } else if l.Tick? {
      SafeLater(lim, s.clock, s.clock + l.ms, g);
      forall id | id in s.calls && s.calls[id].key == key ensures CallSafe(lim, s.clock + l.ms, g, s.calls[id]) {
        CallSafeLater(lim, s.clock, s.clock + l.ms, g, s.calls[id]);
      }
      hide CallSafe, Safe, Tidy;
    } else {
      OtherKeepsSafe(sys, s, l, key);
    }
  }

  lemma {:induction false} RunSafe(sys: System, ls: seq<Label>, key: string)
    requires sys.config.limits(key).TtlHarmless(sys.config.ttlBuffer) && Tolerant(sys.config.limits(key))
    ensures AllSafe(sys, Run(sys, ls), key)
  {
    if ls != [] {
      hide Step, AllSafe;
      RunSafe(sys, ls[..|ls| - 1], key);
      StepKeepsSafe(sys, Run(sys, ls[..|ls| - 1]), ls[|ls| - 1], key);
    }
  }

  /** Under such a limit the current window holds at most maxRequests + C - 1 calls that were
      allowed since the last reset, whatever was evicted while they were in flight, as long as
      no instance begins two calls on the key in one millisecond. */
  lemma GrantedWindowBound(sys: System, ls: seq<Label>, key: string)
    requires sys.config.limits(key).TtlHarmless(sys.config.ttlBuffer) && Tolerant(sys.config.limits(key))
    requires Paced(Run(sys, ls), key)
    ensures var s, lim := Run(sys, ls), sys.config.limits(key);
            |LiveGranted(s, key, lim.windowMs, true)| + |PassedCalls(s.calls, key)| <= Ceiling(lim, sys.cap)
  {
    var s, lim := Run(sys, ls), sys.config.limits(key);
    RunSafe(sys, ls, key);
    RunRecorded(sys, ls);
    OvershootBound(sys, ls, key);
    hide Run, Recorded, Paced, PassedCalls;
    AtMostCard(s, key, LiveGranted(s, key, lim.windowMs, true), Lookup(s.store, Global(key)));
  }
}
