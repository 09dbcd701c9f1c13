/** Building blocks for runs of the interleaving model: systems of as many instances as a run
    needs, each knowing only itself as the constructor leaves it, and what one call, or a part
    of one, does to such a system. */
module InterleavingRuns {
  import opened Redis
  import opened CircuitBreaker
  import opened RateLimitTypes
  import D = Distributed
  import opened DistributedInterleaving
  import opened InterleavingBreaker

  function Name(k: nat): string { seq(k, _ => 'x') }

  lemma NamesDiffer(a: nat, b: nat)
    ensures Name(a) == Name(b) ==> a == b
  {
    assert |Name(a)| == a && |Name(b)| == b;
  }

  predicate OwnName(l: Label) { l.Begin? ==> l.instance == Name(l.call) }

  /** Reached by a run in which every call has an instance of its own. */
  ghost predicate Reachable(sys: System, s: State) {
    exists ls :: Run(sys, ls) == s && forall l :: l in ls ==> OwnName(l)
  }

  lemma Reach(sys: System, s: State, l: Label)
    requires Reachable(sys, s) && OwnName(l)
    ensures Reachable(sys, Step(sys, s, l))
  {
    hide Step, OwnName;
    var ls :| Run(sys, ls) == s && forall l :: l in ls ==> OwnName(l);
    assert (ls + [l])[..|ls|] == ls;
    assert Run(sys, ls + [l]) == Step(sys, s, l);
  }

  ghost predicate NamedApart(s: State) { forall j :: j in s.begun ==> s.begun[j].id.tag == Name(j) }

  /** Such a run is paced. */
  lemma {:induction false} OwnNamesPace(sys: System, ls: seq<Label>, key: string)
    requires forall l :: l in ls ==> OwnName(l)
    ensures NamedApart(Run(sys, ls)) && Paced(Run(sys, ls), key)
  {
    if ls != [] {
      hide Step, NamedApart, Paced, OwnName;
      OwnNamesPace(sys, ls[..|ls| - 1], key);
      StepNamesApart(sys, Run(sys, ls[..|ls| - 1]), ls[|ls| - 1]);
    }
    NamedApartIsPaced(Run(sys, ls), key);
  }

  lemma StepNamesApart(sys: System, s: State, l: Label)
    requires NamedApart(s) && OwnName(l)
    ensures NamedApart(Step(sys, s, l))
  {
    hide PerformIn, Operate, InFlight, Sweep, ZSet.Evict, Name;
  }

  lemma NamedApartIsPaced(s: State, key: string)
    requires NamedApart(s)
    ensures Paced(s, key)
  {
    forall a, b | a in s.begun && b in s.begun && a != b ensures s.begun[a] != s.begun[b] { NamesDiffer(a, b); }
  }

  function Lonely(config: Config, cap: nat, n: nat): System {
    System(config, cap, map k | 0 <= k < n :: Name(k) := {})
  }

  /** Instance number j, its set of the key and its call have not been used yet. */
  ghost predicate Unused(s: State, key: string, j: nat) {
    var i := Name(j);
    i in s.instances && s.instances[i] == D.Instance(Initial(), {i}) && Lookup(s.store, PerInstance(i, key)) == Empty()
  }

  ghost predicate UnusedFrom(s: State, key: string, k: nat, n: nat) {
    forall j :: k <= j < n ==> Unused(s, key, j) && !Taken(s, j)
  }

  lemma StartUnused(config: Config, cap: nat, n: nat, key: string)
    ensures var s := Start(Lonely(config, cap, n));
            && Reachable(Lonely(config, cap, n), s) && UnusedFrom(s, key, 0, n)
            && s.clock == 0 && s.calls == map[] && s.granted == {} && Lookup(s.store, Global(key)) == Empty()
  {
    var sys, none: seq<Label> := Lonely(config, cap, n), [];
    assert Run(sys, none) == Start(sys);
    forall j | 0 <= j < n ensures Unused(Start(sys), key, j) {
      assert Name(j) in sys.registries;
      assert {} + {Name(j)} == {Name(j)};
    }
  }

  /** The counts of an unused instance let its call go on while the global set has room. */
  lemma CountsPass(lim: Limit, ttlBuffer: int, clock: nat, c: Call, g: ZSet)
    requires lim.maxRequests >= 1
    ensures var g0 := g.RemoveByScore(0, c.now - lim.windowMs);
            && Perform(lim, ttlBuffer, 1, clock, c.(phase := PruneGlobal), g, Empty(), Ok)
                 == Performed(g0, Empty(), Continue(CountGlobal))
            && (g0.Card() < lim.maxRequests ==>
                  Perform(lim, ttlBuffer, 1, clock, c.(phase := CountGlobal), g0, Empty(), Ok)
                    == Performed(g0, Empty(), Continue(PruneLocal)))
  {
    hide TtlSeconds, ZSet.RemoveByScore, ZSet.Card, D.Quota;
  }

  lemma LocalCountPasses(lim: Limit, ttlBuffer: int, clock: nat, c: Call, g: ZSet)
    requires lim.maxRequests >= 1
    ensures Perform(lim, ttlBuffer, 1, clock, c.(phase := PruneLocal), g, Empty(), Ok)
              == Performed(g, Empty(), Continue(CountLocal))
    ensures Perform(lim, ttlBuffer, 1, clock, c.(phase := CountLocal), g, Empty(), Ok)
              == Performed(g, Empty(), Continue(AddGlobal))
  {
    assert Empty().RemoveByScore(0, c.now - lim.windowMs) == Empty();
    assert D.Quota(lim.maxRequests, 1) == lim.maxRequests;
    hide TtlSeconds;
  }

  lemma BeginOne(sys: System, s: State, j: nat, key: string)
    requires Unused(s, key, j) && !Taken(s, j) && |InFlight(s.calls, key)| < sys.cap
    ensures Midway(s, Step(sys, s, Begin(j, Name(j), key)), j, Begun(Name(j), key, s.clock),
                   Lookup(s.store, Global(key)), Empty(), Initial())
  {
  }

  /** A call of an unused instance up to its first ZADD. */
  lemma PassOne(sys: System, s: State, j: nat, key: string) returns (s': State)
    requires Reachable(sys, s) && Unused(s, key, j) && !Taken(s, j) && |InFlight(s.calls, key)| < sys.cap
    requires Lookup(s.store, Global(key)).RemoveByScore(0, s.clock - sys.config.limits(key).windowMs).Card()
               < sys.config.limits(key).maxRequests
    ensures Reachable(sys, s')
    ensures Midway(s, s', j, Begun(Name(j), key, s.clock).(phase := AddGlobal),
                   Lookup(s.store, Global(key)).RemoveByScore(0, s.clock - sys.config.limits(key).windowMs),
                   Empty(), Initial())
  {
    var lim, c, g := sys.config.limits(key), Begun(Name(j), key, s.clock), Lookup(s.store, Global(key));
    var g0 := g.RemoveByScore(0, s.clock - lim.windowMs);
    BeginOne(sys, s, j, key);
    CountsPass(lim, sys.config.ttlBuffer, s.clock, c, g);
    assert |s.instances[Name(j)].registry| == 1;
    hide Perform, Step, Midway, ZSet.RemoveByScore, ZSet.Card, InFlight, Unused, Reachable;
    s' := Step(sys, s, Begin(j, Name(j), key));
    Reach(sys, s, Begin(j, Name(j), key));
    s' := GoesOn(sys, s, s', j, c, g, Empty(), g0, Empty(), CountGlobal);
    s' := GoesOn(sys, s, s', j, c.(phase := CountGlobal), g0, Empty(), g0, Empty(), PruneLocal);
    s' := PassLocal(sys, s, s', j, c.(phase := PruneLocal), g0);
  }

  lemma PassLocal(sys: System, s0: State, s: State, j: nat, c: Call, g: ZSet) returns (s': State)
    requires Reachable(sys, s) && j !in s0.calls
    requires Midway(s0, s, j, c, g, Empty(), Initial()) && !c.wiped && c.phase.PruneLocal?
    requires |s0.instances[c.instance].registry| == 1 && sys.config.limits(c.key).maxRequests >= 1
    ensures Reachable(sys, s') && Midway(s0, s', j, c.(phase := AddGlobal), g, Empty(), Initial())
  {
    hide Perform, Midway, Reachable, ZSet.RemoveByScore, ZSet.Card;
    LocalCountPasses(sys.config.limits(c.key), sys.config.ttlBuffer, s0.clock, c, g);
    s' := GoesOn(sys, s0, s, j, c, g, Empty(), g, Empty(), CountLocal);
    s' := GoesOn(sys, s0, s', j, c.(phase := CountLocal), g, Empty(), g, Empty(), AddGlobal);
  }

  /** One command that resolves and lets the call go on. */
  lemma GoesOn(sys: System, s0: State, s: State, id: nat, c: Call, g: ZSet, d: ZSet, g': ZSet, d': ZSet, next: Phase)
    returns (s': State)
    requires Reachable(sys, s) && id !in s0.calls && Midway(s0, s, id, c, g, d, Initial()) && !c.wiped
    requires Perform(sys.config.limits(c.key), sys.config.ttlBuffer, |s0.instances[c.instance].registry|, s0.clock, c,
                     g, d, Ok)
             == Performed(g', d', Continue(next))
    ensures Reachable(sys, s') && Midway(s0, s', id, c.(phase := next), g', d', Initial())
  {
    s' := Step(sys, s, Command(id, Ok));
    hide Step, Midway, Perform, Reachable;
    OneCommand(sys, s0, s, id, c, g, d, Initial(), Ok);
    Reach(sys, s, Command(id, Ok));
  }

  /** The call stores its entry and goes on. */
  lemma AddOne(sys: System, s0: State, s: State, id: nat, c: Call, g: ZSet, d: ZSet) returns (s': State)
    requires Reachable(sys, s) && id !in s0.calls
    requires Midway(s0, s, id, c, g, d, Initial()) && c.phase.AddGlobal? && !c.wiped
    ensures Reachable(sys, s') && Midway(s0, s', id, c.(phase := AddLocal), g.Add(c.now, c.Id()), d, Initial())
  {
    s' := Step(sys, s, Command(id, Ok));
    hide Step, Midway, ZSet.Add, TtlSeconds;
    OneCommand(sys, s0, s, id, c, g, d, Initial(), Ok);
    Reach(sys, s, Command(id, Ok));
  }

  /** The call stores its entry and never learns of it: it ends denied, and no EXPIRE follows. */
  lemma AddLost(sys: System, s0: State, s: State, id: nat, c: Call, g: ZSet, d: ZSet) returns (s': State)
    requires Reachable(sys, s) && id !in s0.calls
    requires Midway(s0, s, id, c, g, d, Initial()) && c.phase.AddGlobal? && !c.wiped
    ensures Reachable(sys, s')
    ensures EndsAs(s0, s', id, c, g.Add(c.now, c.Id()), d, Initial().RecordFailure(sys.config.policy, s0.clock), false)
  {
    s' := Step(sys, s, Command(id, FailedAfter));
    hide Step, Midway, EndsAs, ZSet.Add, TtlSeconds;
    OneCommand(sys, s0, s, id, c, g, d, Initial(), FailedAfter);
    Reach(sys, s, Command(id, FailedAfter));
  }

  /** From the own ZADD to the point where EXPIRE is due. */
  lemma AddOwn(sys: System, s0: State, s: State, id: nat, c: Call, g: ZSet, d: ZSet) returns (s': State)
    requires Reachable(sys, s) && id !in s0.calls
    requires Midway(s0, s, id, c, g, d, Initial()) && c.phase.AddLocal? && !c.wiped
    ensures Reachable(sys, s') && Midway(s0, s', id, c.(phase := ExpireGlobal), g, d.Add(c.now, c.Id()), Initial())
  {
    s' := Step(sys, s, Command(id, Ok));
    hide Step, Midway, ZSet.Add, TtlSeconds;
    OneCommand(sys, s0, s, id, c, g, d, Initial(), Ok);
    Reach(sys, s, Command(id, Ok));
  }

  /** The rest of the call, which is allowed. */
  lemma FinishOne(sys: System, s0: State, s: State, id: nat, c: Call, g: ZSet, d: ZSet) returns (s': State)
    requires Reachable(sys, s) && id !in s0.calls
    requires Midway(s0, s, id, c, g, d, Initial()) && c.phase.ExpireGlobal? && !c.wiped
    ensures var ttl := TtlSeconds(sys.config.limits(c.key).windowMs, sys.config.ttlBuffer);
            EndsAs(s0, s', id, c, g.Expire(ttl, s0.clock), d.Expire(ttl, s0.clock), Initial(), true)
    ensures Reachable(sys, s')
  {
    var ttl := TtlSeconds(sys.config.limits(c.key).windowMs, sys.config.ttlBuffer);
    hide Step, Midway, ZSet.Expire, TtlSeconds, ZSet.Card, Reachable, Otherwise;
    s' := GoesOn(sys, s0, s, id, c, g, d, g.Expire(ttl, s0.clock), d, ExpireLocal);
    s' := GoesOn(sys, s0, s', id, c.(phase := ExpireLocal), g.Expire(ttl, s0.clock), d, g.Expire(ttl, s0.clock),
                 d.Expire(ttl, s0.clock), Recount);
    OneCommand(sys, s0, s', id, c.(phase := Recount), g.Expire(ttl, s0.clock), d.Expire(ttl, s0.clock), Initial(), Ok);
    Reach(sys, s', Command(id, Ok));
    s' := Step(sys, s', Command(id, Ok));
    AnyPhase(s0, s', id, c);
  }
}
