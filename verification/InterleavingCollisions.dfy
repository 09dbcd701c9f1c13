/** Callers that do not pace their calls. Calls of one instance in one millisecond share a request
    id and are one entry of the set, so the set bounds the calls only if a check passes on an
    empty set, or if no request is ever in the window. */
module InterleavingCollisions {
  import opened Redis
  import opened CircuitBreaker
  import opened WindowLog
  import opened RateLimitTypes
  import D = Distributed
  import opened DistributedCollisions
  import opened DistributedInterleaving
  import opened InterleavingHistory
  import opened InterleavingBounds
  import opened InterleavingEvictions
  import opened InterleavingBreaker
  import opened InterleavingRuns

  predicate Calm(lim: Limit) { lim.maxRequests <= 1 || lim.windowMs <= 0 }

  /** Has stored its entry, which is still in the window. */
  predicate Lives(c: Call, since: int) { c.Stored() && !c.wiped && c.now > since }

  /** The numbers of the calls charged to the window: granted, or stored, or sure to be stored. */
  function Charged(s: State, key: string, windowMs: int): set<nat> {
    CallsOf(LiveGranted(s, key, windowMs, true)) + PassedCalls(s.calls, key)
    + set id | id in s.calls && s.calls[id].key == key && Lives(s.calls[id], s.clock - windowMs)
  }

  lemma PhaseOrder(lim: Limit, ttlBuffer: int, peers: nat, clock: nat, c: Call, g: ZSet, d: ZSet, reply: Reply)
    ensures var out := Perform(lim, ttlBuffer, peers, clock, c, g, d, reply).outcome;
            && (out.Grant? ==> c.Stored())
            && (out.Continue? && c.(phase := out.next).Stored() ==> c.Stored() || c.Passed())
            && (out.Continue? && c.(phase := out.next).Passed() ==> c.Passed() || g.Card() < lim.maxRequests)
  {
    hide ZSet.RemoveByScore, ZSet.Add, ZSet.Expire, ZSet.Card, TtlSeconds, D.Quota;
  }

  /** On an empty set nothing is charged but calls that have passed. */
  lemma EmptyCharges(sys: System, s: State, key: string)
    requires AllSafe(sys, s, key) && Lookup(s.store, Global(key)).Card() == 0
    ensures Charged(s, key, sys.config.limits(key).windowMs) == PassedCalls(s.calls, key)
  {
    hide ZSet.Sound, Lasting;
  }

  lemma ReplyCharges(s: State, s': State, id: nat, out: Outcome, key: string, windowMs: int)
    requires id in s.calls && s'.clock == s.clock && s'.calls == Moved(s.calls, id, s.calls[id], out)
    requires var c := s.calls[id];
             s'.granted == if out.Grant? && !c.wiped then s.granted + {Granted(id, c.key, c.Id(), c.evicted)}
                           else s.granted
    requires var c := s.calls[id];
             && (out.Grant? ==> c.Stored())
             && (out.Continue? && c.(phase := out.next).Stored() ==> c.Stored() || c.Passed())
    ensures var c := s.calls[id];
            var passes := c.key == key && out.Continue? && c.(phase := out.next).Passed() && !c.Passed();
            Charged(s', key, windowMs) <= Charged(s, key, windowMs) + if passes then {id} else {}
  {
  }

  /** A step charges nobody, or one more call in flight while all that is charged is in flight. */
  lemma CommandCharges(sys: System, s: State, id: nat, reply: Reply, key: string)
    requires AllSafe(sys, s, key) && id in s.calls && sys.config.limits(key).maxRequests <= 1
    ensures var s', lim := OnReply(sys, s, id, reply), sys.config.limits(key);
            || Charged(s', key, lim.windowMs) <= Charged(s, key, lim.windowMs)
            || (lim.maxRequests == 1 && Charged(s', key, lim.windowMs) <= InFlight(s'.calls, key))
  {
    hide OnReply, Perform, AllSafe, Charged, PassedCalls, ZSet.Card;
    var c, lim, g := s.calls[id], sys.config.limits(key), Lookup(s.store, Global(key));
    ReplyShape(sys, s, id, reply);
    PhaseOrder(sys.config.limits(c.key), sys.config.ttlBuffer, Peers(s, c.instance), s.clock, c,
               Lookup(s.store, Global(c.key)), Lookup(s.store, PerInstance(c.instance, c.key)), reply);
    ReplyCharges(s, OnReply(sys, s, id, reply), id, PerformIn(sys, s, c, reply).outcome, key, lim.windowMs);
    if c.key == key && g.Card() < lim.maxRequests { EmptyCharges(sys, s, key); }
    PassedAreInFlight(s.calls, key);
  }

  lemma OtherCharges(s: State, s': State, key: string, windowMs: int)
    requires Undisturbed(s, s', key) || Overtaken(s, s', key, false) || Overtaken(s, s', key, true)
    requires s'.clock == s.clock
    ensures Charged(s', key, windowMs) <= Charged(s, key, windowMs)
  {
    hide ZSet.Evict;
  }

  lemma LaterCharges(s: State, now: nat, key: string, windowMs: int)
    requires s.clock <= now
    ensures Charged(s.(clock := now), key, windowMs) <= Charged(s, key, windowMs)
  {
  }

  lemma StepCharges(sys: System, s: State, l: Label, key: string)
    requires AllSafe(sys, s, key) && sys.config.limits(key).maxRequests <= 1
    ensures var s', lim := Step(sys, s, l), sys.config.limits(key);
            || Charged(s', key, lim.windowMs) <= Charged(s, key, lim.windowMs)
            || (lim.maxRequests == 1 && Charged(s', key, lim.windowMs) <= InFlight(s'.calls, key))
  {
    hide OnReply, Charged, AllSafe, InFlight;
    var w := sys.config.limits(key).windowMs;
    if l.Command? {
      if l.call in s.calls { CommandCharges(sys, s, l.call, l.reply, key); }
    } else if l.Tick? {
      LaterCharges(s, s.clock + l.ms, key, w);
    } else {
      hide Step, Undisturbed, Overtaken;
      OtherSteps(sys, s, l, key);
      OtherCharges(s, Step(sys, s, l), key, w);
    }
  }

  lemma {:induction false} RunCharges(sys: System, ls: seq<Label>, key: string)
    requires sys.config.limits(key).TtlHarmless(sys.config.ttlBuffer) && sys.config.limits(key).maxRequests <= 1
    ensures |Charged(Run(sys, ls), key, sys.config.limits(key).windowMs)| <= Ceiling(sys.config.limits(key), sys.cap)
  {
    hide Step, Charged, AllSafe, Limit.TtlHarmless;
    if ls == [] {
      NothingCharged(sys, key, sys.config.limits(key).windowMs);
    } else {
      var before, l, w := ls[..|ls| - 1], ls[|ls| - 1], sys.config.limits(key).windowMs;
      RunCharges(sys, before, key);
      RunSafe(sys, before, key);
      StepCharges(sys, Run(sys, before), l, key);
      OvershootBound(sys, ls, key);
      var s' := Run(sys, ls);
      if Charged(s', key, w) <= Charged(Run(sys, before), key, w) {
        SubsetCard(Charged(s', key, w), Charged(Run(sys, before), key, w));
      } else {
        SubsetCard(Charged(s', key, w), InFlight(s'.calls, key));
      }
    }
  }

  lemma NothingCharged(sys: System, key: string, windowMs: int)
    ensures Charged(Start(sys), key, windowMs) == {}
  {
  }

  lemma GrantedAreCharged(s: State, key: string, windowMs: int)
    requires Recorded(s)
    ensures |LiveGranted(s, key, windowMs, true)| + |PassedCalls(s.calls, key)| <= |Charged(s, key, windowMs)|
  {
    AsManyNumbers(s, LiveGranted(s, key, windowMs, true));
    var granted, passed := CallsOf(LiveGranted(s, key, windowMs, true)), PassedCalls(s.calls, key);
    assert granted !! passed;
    SubsetCard(granted + passed, Charged(s, key, windowMs));
  }

  /** With a limit of at most one, or no window at all, the current window holds at most
      maxRequests + C - 1 calls allowed since the last reset, however they are timed. */
  lemma CalmWindowBound(sys: System, ls: seq<Label>, key: string)
    requires sys.config.limits(key).TtlHarmless(sys.config.ttlBuffer) && Calm(sys.config.limits(key))
    ensures var s, lim := Run(sys, ls), sys.config.limits(key);
            |LiveGranted(s, key, lim.windowMs, true)| + |PassedCalls(s.calls, key)| <= Ceiling(lim, sys.cap)
  {
    hide Run, Charged, LiveGranted, Recorded, PassedCalls, Limit.TtlHarmless, AllSafe, Ceiling;
    var s, lim := Run(sys, ls), sys.config.limits(key);
    RunRecorded(sys, ls);
    if lim.maxRequests <= 1 {
      RunCharges(sys, ls, key);
      GrantedAreCharged(s, key, lim.windowMs);
    } else {
      RunSafe(sys, ls, key);
      NoneLive(sys, s, key);
      OvershootBound(sys, ls, key);
    }
  }

  lemma NoneLive(sys: System, s: State, key: string)
    requires AllSafe(sys, s, key) && sys.config.limits(key).windowMs <= 0
    ensures LiveGranted(s, key, sys.config.limits(key).windowMs, true) == {}
  {
    hide Tidy;
  }

  ghost predicate Reached(sys: System, s: State) { exists ls :: Run(sys, ls) == s }

  lemma StepReaches(sys: System, s: State, l: Label)
    requires Reached(sys, s)
    ensures Reached(sys, Step(sys, s, l))
  {
    hide Step;
    var ls :| Run(sys, ls) == s;
    assert (ls + [l])[..|ls|] == ls;
    assert Run(sys, ls + [l]) == Step(sys, s, l);
  }

  lemma {:induction false} DriveReaches(sys: System, s: State, id: nat, replies: seq<Reply>)
    requires Reached(sys, s)
    ensures Reached(sys, Drive(sys, s, id, replies))
    decreases |replies|
  {
    if replies != [] {
      hide Step, Reached;
      StepReaches(sys, s, Command(id, replies[0]));
      DriveReaches(sys, Step(sys, s, Command(id, replies[0])), id, replies[1..]);
    }
  }

  /** One instance that knows only itself, after n whole calls in millisecond 0, all allowed. */
  ghost predicate Hammered(s: State, key: string, n: nat) {
    var i := Name(0);
    && s.clock == 0 && s.calls == map[] && i in s.instances && s.instances[i] == D.Instance(Initial(), {i})
    && AtMostThisOne(Lookup(s.store, Global(key)), RequestId(0, i))
    && AtMostThisOne(Lookup(s.store, PerInstance(i, key)), RequestId(0, i))
    && (forall j :: j in s.begun ==> j < n)
    && |s.granted| == n && forall x :: x in s.granted ==> x.call < n && x.key == key && x.id.at == 0 && !x.evicted
  }

  lemma HammerRound(sys: System, s: State, key: string, n: nat) returns (s': State)
    requires Reached(sys, s) && Hammered(s, key, n) && sys.cap >= 1
    requires sys.config.limits(key).maxRequests >= 2 && sys.config.limits(key).windowMs >= 1
    ensures Reached(sys, s') && Hammered(s', key, n + 1)
  {
    hide Step, Drive, D.CheckKey, AtMostThisOne, Name, EndsAs, Reached, InFlight, Begun, D.Quota;
    var i, io, lim := Name(0), D.AllOk(), sys.config.limits(key);
    var g, d := Lookup(s.store, Global(key)), Lookup(s.store, PerInstance(i, key));
    var begun, replies := Step(sys, s, Begin(n, i, key)), CountReplies(io) + RecordReplies(io) + [Ok];
    HammerFits(s, key, lim.maxRequests);
    HammerStep(sys.config.policy, sys.config.ttlBuffer, lim, 1, i, g, d);
    UninterruptedCallIsAtomicCheck(sys, s, n, i, key, io);
    StepReaches(sys, s, Begin(n, i, key));
    s' := Drive(sys, begun, n, replies);
    DriveReaches(sys, begun, n, replies);
    var e := D.CheckKey(sys.config.policy, sys.config.ttlBuffer, lim, 1, i, Initial(), g, d, 0, io);
    HammerHits(s, s', key, n, e.global, e.local);
  }

  lemma HammerFits(s: State, key: string, maxRequests: int)
    requires s.calls == map[]
    ensures InFlight(s.calls, key) == {} && D.Quota(maxRequests, 1) == maxRequests
  {
  }

  lemma HammerHits(s: State, s': State, key: string, n: nat, g: ZSet, d: ZSet)
    requires Hammered(s, key, n) && EndsAs(s, s', n, Begun(Name(0), key, 0), g, d, Initial(), true)
    requires AtMostThisOne(g, RequestId(0, Name(0))) && AtMostThisOne(d, RequestId(0, Name(0)))
    ensures Hammered(s', key, n + 1)
  {
    hide AtMostThisOne, Name;
    assert forall j :: j in s'.begun && j != n ==> j in s'.begun - {n};
  }

  lemma {:induction false} HammerReaches(sys: System, key: string, n: nat) returns (s: State)
    requires sys == Lonely(sys.config, sys.cap, 1) && sys.cap >= 1
    requires sys.config.limits(key).maxRequests >= 2 && sys.config.limits(key).windowMs >= 1
    ensures Reached(sys, s) && Hammered(s, key, n)
  {
    if n == 0 {
      s := Start(sys);
      HammerStarts(sys.config, sys.cap, key);
    } else {
      s := HammerReaches(sys, key, n - 1);
      s := HammerRound(sys, s, key, n - 1);
    }
  }

  lemma HammerStarts(config: Config, cap: nat, key: string)
    ensures var s := Start(Lonely(config, cap, 1)); Reached(Lonely(config, cap, 1), s) && Hammered(s, key, 0)
  {
    var sys, none: seq<Label> := Lonely(config, cap, 1), [];
    assert Run(sys, none) == Start(sys);
    assert Name(0) in sys.registries;
    assert {} + {Name(0)} == {Name(0)};
  }

  /** One instance, one call at a time, all in one millisecond: any number of calls is allowed. */
  lemma AnyNumberIsGranted(config: Config, cap: nat, key: string, n: nat)
    returns (registries: D.Registries, ls: seq<Label>)
    requires config.limits(key).maxRequests >= 2 && config.limits(key).windowMs >= 1 && cap >= 1
    ensures var s := Run(System(config, cap, registries), ls);
            && s.clock == 0 && s.calls == map[] && |s.granted| == n
            && forall x :: x in s.granted ==> x.key == key && x.id.at == 0 && !x.evicted
  {
    var sys := Lonely(config, cap, 1);
    registries := sys.registries;
    assert sys == System(config, cap, registries);
    hide Lonely;
    var s := HammerReaches(sys, key, n);
    ls :| Run(sys, ls) == s;
  }

  /** Whoever the instances are and however they call: the calls granted in the current window,
      those about to store their entry included, stay within maxRequests + C - 1 in all
      interleavings if and only if nobody calls, the limit is at most one, or there is no window;
      whether or not calls are counted whose entry was evicted. */
  lemma GrantedBoundIff(config: Config, cap: nat, key: string, all: bool)
    requires config.limits(key).TtlHarmless(config.ttlBuffer)
    ensures (forall registries: D.Registries, ls ::
               var s, lim := Run(System(config, cap, registries), ls), config.limits(key);
               |LiveGranted(s, key, lim.windowMs, all)| + |PassedCalls(s.calls, key)| <= Ceiling(lim, cap))
        <==> (cap < 1 || Calm(config.limits(key)))
  {
    hide Run, Limit.TtlHarmless, LiveGranted, PassedCalls, Ceiling;
    var lim := config.limits(key);
    if cap < 1 || Calm(lim) {
      forall registries: D.Registries, ls
        ensures var s := Run(System(config, cap, registries), ls);
                |LiveGranted(s, key, lim.windowMs, all)| + |PassedCalls(s.calls, key)| <= Ceiling(lim, cap)
      {
        var sys := System(config, cap, registries);
        FewerCounted(Run(sys, ls), key, lim.windowMs, all);
        if Calm(lim) { CalmWindowBound(sys, ls, key); } else { NoCalls(sys, ls, key); }
      }
    } else {
      var registries, ls := AnyNumberIsGranted(config, cap, key, Ceiling(lim, cap) + 1);
      AllAreLive(Run(System(config, cap, registries), ls), key, lim.windowMs, all);
    }
  }

  lemma FewerCounted(s: State, key: string, windowMs: int, all: bool)
    ensures |LiveGranted(s, key, windowMs, all)| <= |LiveGranted(s, key, windowMs, true)|
  {
    SubsetCard(LiveGranted(s, key, windowMs, all), LiveGranted(s, key, windowMs, true));
  }

  lemma AllAreLive(s: State, key: string, windowMs: int, all: bool)
    requires s.clock == 0 && windowMs >= 1
    requires forall x :: x in s.granted ==> x.key == key && x.id.at == 0 && !x.evicted
    ensures LiveGranted(s, key, windowMs, all) == s.granted
  {
  }
}
