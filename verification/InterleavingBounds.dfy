/** Safety of overlapping distributed checks, for every run of the interleaving model. */
module InterleavingBounds {
  import opened Redis
  import opened WindowLog
  import opened RateLimitTypes
  import D = Distributed
  import opened DistributedInterleaving
  import opened InterleavingHistory

  /** What is stored in the key's global set plus what has passed its check already. */
  function Load(s: State, key: string): nat {
    Lookup(s.store, Global(key)).Card() + |PassedCalls(s.calls, key)|
  }

  ghost predicate WithinCeiling(sys: System, s: State, key: string) {
    && |InFlight(s.calls, key)| <= sys.cap
    && Load(s, key) <= Ceiling(sys.config.limits(key), sys.cap)
    && (sys.config.limits(key).maxRequests < 1 ==> PassedCalls(s.calls, key) == {})
  }

  lemma CallReplaced(calls: map<nat, Call>, id: nat, c: Call, key: string)
    requires id in calls && calls[id].key == c.key
    ensures InFlight(calls[id := c], key) == InFlight(calls, key)
    ensures PassedCalls(calls[id := c], key)
         == if c.key == key && c.Passed() then PassedCalls(calls, key) + {id} else PassedCalls(calls, key) - {id}
  {
  }

  lemma CallEnded(calls: map<nat, Call>, id: nat, key: string)
    ensures InFlight(calls - {id}, key) == InFlight(calls, key) - {id}
    ensures PassedCalls(calls - {id}, key) == PassedCalls(calls, key) - {id}
  {
  }

  lemma CallsSwept(calls: map<nat, Call>, swept: string, reset: bool, key: string)
    ensures InFlight(Sweep(calls, swept, reset), key) == InFlight(calls, key)
    ensures PassedCalls(Sweep(calls, swept, reset), key) == PassedCalls(calls, key)
  {
  }

  lemma CardBounds(z: ZSet, lo: int, hi: int, seconds: int, clock: nat, m: RequestId)
    ensures z.RemoveByScore(lo, hi).Card() <= z.Card()
    ensures z.Expire(seconds, clock).Card() <= z.Card() && z.Evict(clock).Card() <= z.Card()
    ensures z.Add(lo, m).Card() <= z.Card() + 1
  {
    SubsetCard(z.RemoveByScore(lo, hi).scores.Keys, z.scores.Keys);
    assert |z.RemoveByScore(lo, hi).scores.Keys| == z.RemoveByScore(lo, hi).Card() && |z.scores.Keys| == z.Card();
    assert z.Add(lo, m).scores.Keys == z.scores.Keys + {m} && |z.Add(lo, m).scores.Keys| == z.Add(lo, m).Card();
  }

  /** Only AddGlobal can grow the global set, by one, and only a successful CountGlobal can
      let a call pass, which it does below the limit. */
  lemma PerformShape(lim: Limit, ttlBuffer: int, peers: nat, clock: nat, c: Call, g: ZSet, d: ZSet, reply: Reply)
    ensures var p := Perform(lim, ttlBuffer, peers, clock, c, g, d, reply);
            && p.global.Card() <= g.Card() + (if c.phase.AddGlobal? then 1 else 0)
            && (p.outcome.Continue? && c.(phase := p.outcome.next).Passed() ==>
                  && !c.phase.AddGlobal?
                  && (!c.Passed() ==> p.global == g && g.Card() < lim.maxRequests))
  {
    hide ZSet.RemoveByScore, ZSet.Add, ZSet.Expire, ZSet.Card, TtlSeconds, D.Quota;
    CardBounds(g, 0, c.now - lim.windowMs, TtlSeconds(lim.windowMs, ttlBuffer), clock, c.Id());
    CardBounds(g, c.now, 0, 0, 0, c.Id());
  }

  lemma ReplyKeepsCeiling(sys: System, s: State, id: nat, reply: Reply, key: string)
    requires id in s.calls && WithinCeiling(sys, s, key)
    ensures WithinCeiling(sys, OnReply(sys, s, id, reply), key)
  {
    hide Perform, OnReply, InFlight, PassedCalls, ZSet.Card, Moved;
    var c, s' := s.calls[id], OnReply(sys, s, id, reply);
    var out := PerformIn(sys, s, c, reply).outcome;
    ReplyShape(sys, s, id, reply);
    PerformShape(sys.config.limits(c.key), sys.config.ttlBuffer, Peers(s, c.instance), s.clock, c,
                 Lookup(s.store, Global(c.key)), Lookup(s.store, PerInstance(c.instance, c.key)), reply);
    CallOutcome(s.calls, s'.calls, id, c, out, key);
  }

  /** How many calls have passed, before and after one call moves on or ends. */
  lemma CallOutcome(calls: map<nat, Call>, calls': map<nat, Call>, id: nat, c: Call, out: Outcome, key: string)
    requires id in calls && calls[id] == c
    requires calls' == Moved(calls, id, c, out)
    ensures var passes := out.Continue? && c.(phase := out.next).Passed();
            && InFlight(calls', key) <= InFlight(calls, key) && |InFlight(calls', key)| <= |InFlight(calls, key)|
            && |PassedCalls(calls', key)| <= |InFlight(calls', key)|
            && (c.key != key ==> PassedCalls(calls', key) == PassedCalls(calls, key))
            && (c.key == key && passes ==> PassedCalls(calls', key) == PassedCalls(calls, key) + {id})
            && (c.key == key && !passes ==> PassedCalls(calls', key) == PassedCalls(calls, key) - {id})
            && (c.key == key && c.Passed() ==> id in PassedCalls(calls, key))
            && |PassedCalls(calls, key) - {id}|
                 == |PassedCalls(calls, key)| - (if id in PassedCalls(calls, key) then 1 else 0)
  {
    hide InFlight;
    if out.Continue? {
      CallReplaced(calls, id, c.(phase := out.next), key);
    } else if out.Deny? {
      CallReplaced(calls, id, c.(phase := Publish), key);
    } else {
      CallEnded(calls, id, key);
    }
    SubsetCard(InFlight(calls', key), InFlight(calls, key));
    PassedAreInFlight(calls', key);
  }

  lemma PassedAreInFlight(calls: map<nat, Call>, key: string)
    ensures PassedCalls(calls, key) <= InFlight(calls, key) && |PassedCalls(calls, key)| <= |InFlight(calls, key)|
    ensures forall c :: c in calls && calls[c].key == key && calls[c].Passed() <==> c in PassedCalls(calls, key)
  {
    SubsetCard(PassedCalls(calls, key), InFlight(calls, key));
  }

  lemma StepKeepsCeiling(sys: System, s: State, l: Label, key: string)
    requires WithinCeiling(sys, s, key)
    ensures WithinCeiling(sys, Step(sys, s, l), key)
  {
    hide OnReply, Operate, InFlight, PassedCalls, ZSet.Card, ZSet.Evict;
    match l
    case Command(id, reply) => if id in s.calls { ReplyKeepsCeiling(sys, s, id, reply, key); }
    case Begin(id, i, k) => if !Taken(s, id) { CallBegun(s.calls, id, Begun(i, k, s.clock), key); }
    case Evict(k) =>
      CardBounds(Lookup(s.store, k), 0, 0, 0, s.clock, RequestId(0, ""));
      if k.Global? { CallsSwept(s.calls, k.name, false, key); }
    case DeleteGlobal(k, reply) =>
      EmptyCard();
      CallsSwept(s.calls, k, true, key);
    case _ =>
  }

  lemma CallBegun(calls: map<nat, Call>, id: nat, c: Call, key: string)
    requires id !in calls && !c.Passed()
    ensures |InFlight(calls[id := c], key)| <= |InFlight(calls, key)| + (if c.key == key then 1 else 0)
    ensures PassedCalls(calls[id := c], key) == PassedCalls(calls, key)
  {
    assert InFlight(calls[id := c], key) == if c.key == key then InFlight(calls, key) + {id} else InFlight(calls, key);
  }

  lemma EmptyCard()
    ensures Empty().Card() == 0
  {
  }

  /** In every interleaving of any number of instances with at most C calls in flight on a key,
      with faults, resets and evictions: the global set plus the calls that have passed its
      check and not yet stored their entry never exceed maxRequests + C - 1. */
  lemma {:induction false} OvershootBound(sys: System, ls: seq<Label>, key: string)
    ensures WithinCeiling(sys, Run(sys, ls), key)
    ensures Lookup(Run(sys, ls).store, Global(key)).Card() + |PassedCalls(Run(sys, ls).calls, key)|
            <= Ceiling(sys.config.limits(key), sys.cap)
  {
    if ls == [] {
      assert InFlight(Start(sys).calls, key) == {} && PassedCalls(Start(sys).calls, key) == {};
    } else {
      hide Step;
      OvershootBound(sys, ls[..|ls| - 1], key);
      StepKeepsCeiling(sys, Run(sys, ls[..|ls| - 1]), ls[|ls| - 1], key);
    }
  }

  /** The request still is in the set while its window is open, and so far nothing allows its
      eviction before. */
  ghost predicate Held(lim: Limit, clock: nat, g: ZSet, m: RequestId) {
    m.at <= clock && (m.at > clock - lim.windowMs ==> m in g.scores)
  }

  ghost predicate Guarded(lim: Limit, clock: nat, g: ZSet, m: RequestId) {
    Held(lim, clock, g, m) && (g.deadline.Some? ==> m.at + lim.windowMs <= g.deadline.value)
  }

  ghost predicate CallKept(lim: Limit, clock: nat, g: ZSet, c: Call) {
    && c.now <= clock
    && (c.Passed() || c.Stored() ==> lim.maxRequests >= 1)
    && (c.Stored() && !c.wiped && !c.evicted ==> Held(lim, clock, g, c.Id()))
    && (c.Extended() && !c.wiped && !c.evicted ==> Guarded(lim, clock, g, c.Id()))
  }

  ghost predicate Kept(sys: System, s: State, key: string) {
    var lim, g := sys.config.limits(key), Lookup(s.store, Global(key));
    && g.Sound(s.clock)
    && (forall id :: id in s.calls && s.calls[id].key == key ==> CallKept(lim, s.clock, g, s.calls[id]))
    && forall x :: x in s.granted && x.key == key && !x.evicted ==> Guarded(lim, s.clock, g, x.id)
  }

  /** A change of the global set that forgets no request a later check could still count. */
  ghost predicate ForgetsNothing(lim: Limit, clock: nat, g: ZSet, g': ZSet) {
    && g'.Sound(clock)
    && (forall m :: Held(lim, clock, g, m) ==> Held(lim, clock, g', m))
    && (forall m :: Guarded(lim, clock, g, m) ==> Guarded(lim, clock, g', m))
  }

  lemma CommandsForgetNothing(lim: Limit, ttlBuffer: int, clock: nat, g: ZSet, c: Call)
    requires g.Sound(clock) && c.now <= clock && lim.TtlHarmless(ttlBuffer)
    ensures ForgetsNothing(lim, clock, g, g) && ForgetsNothing(lim, clock, g, g.RemoveByScore(0, c.now - lim.windowMs))
    ensures ForgetsNothing(lim, clock, g, g.Add(c.now, c.Id())) && Held(lim, clock, g.Add(c.now, c.Id()), c.Id())
    ensures lim.maxRequests >= 1 ==>
              var g' := g.Expire(TtlSeconds(lim.windowMs, ttlBuffer), clock);
              ForgetsNothing(lim, clock, g, g') && (Held(lim, clock, g, c.Id()) ==> Guarded(lim, clock, g', c.Id()))
  {
    var p := g.RemoveByScore(0, c.now - lim.windowMs);
    assert forall m :: m in g.scores && m.at > clock - lim.windowMs ==> m in p.scores;
  }

  lemma PerformKeeps(lim: Limit, ttlBuffer: int, peers: nat, clock: nat, c: Call, g: ZSet, d: ZSet, reply: Reply)
    requires lim.TtlHarmless(ttlBuffer) && g.Sound(clock) && CallKept(lim, clock, g, c)
    ensures var p := Perform(lim, ttlBuffer, peers, clock, c, g, d, reply);
            && ForgetsNothing(lim, clock, g, p.global)
            && (p.outcome.Continue? ==> CallKept(lim, clock, p.global, c.(phase := p.outcome.next)))
            && (p.outcome.Deny? ==> CallKept(lim, clock, p.global, c.(phase := Publish)))
            && (p.outcome.Grant? && !c.wiped && !c.evicted ==> Guarded(lim, clock, p.global, c.Id()))
  {
    hide ZSet.RemoveByScore, ZSet.Add, ZSet.Expire, ZSet.Sound, TtlSeconds, D.Quota, Limit.TtlHarmless;
    hide Held, Guarded, ForgetsNothing, CallKept;
    CallFacts(lim, clock, g, c);
    CommandsForgetNothing(lim, ttlBuffer, clock, g, c);
    var p := Perform(lim, ttlBuffer, peers, clock, c, g, d, reply);
    KeptThrough(lim, clock, g, p.global, c);
    CallFacts(lim, clock, p.global, c);
    CallMoves(lim, clock, p.global, c, if p.outcome.Continue? then p.outcome.next else Publish);
  }

  /** CallKept read phase by phase. */
  lemma CallFacts(lim: Limit, clock: nat, g: ZSet, c: Call)
    requires CallKept(lim, clock, g, c)
    ensures c.now <= clock && (c.Passed() || c.Stored() ==> lim.maxRequests >= 1)
    ensures c.Stored() && !c.wiped && !c.evicted ==> Held(lim, clock, g, c.Id())
    ensures c.Extended() && !c.wiped && !c.evicted ==> Guarded(lim, clock, g, c.Id())
  {
  }

  lemma CallMoves(lim: Limit, clock: nat, g: ZSet, c: Call, next: Phase)
    requires CallKept(lim, clock, g, c)
    ensures var c' := c.(phase := next);
            ((c'.Passed() || c'.Stored() ==> lim.maxRequests >= 1)
             && (c'.Stored() && !c.wiped && !c.evicted ==> Held(lim, clock, g, c.Id()))
             && (c'.Extended() && !c.wiped && !c.evicted ==> Guarded(lim, clock, g, c.Id()))) ==>
                CallKept(lim, clock, g, c')
  {
  }

  lemma KeptThrough(lim: Limit, clock: nat, g: ZSet, g': ZSet, c: Call)
    requires CallKept(lim, clock, g, c) && ForgetsNothing(lim, clock, g, g')
    ensures CallKept(lim, clock, g', c)
  {
  }

  lemma ReplyKeepsKept(sys: System, s: State, id: nat, reply: Reply, key: string)
    requires id in s.calls && Kept(sys, s, key) && sys.config.limits(key).TtlHarmless(sys.config.ttlBuffer)
    ensures Kept(sys, OnReply(sys, s, id, reply), key)
  {
    hide OnReply, Perform, Held, Guarded, CallKept, ZSet.Sound;
    ReplyShape(sys, s, id, reply);
    var c, s', lim := s.calls[id], OnReply(sys, s, id, reply), sys.config.limits(key);
    var g, g' := Lookup(s.store, Global(key)), Lookup(s'.store, Global(key));
    if c.key == key {
      PerformKeeps(lim, sys.config.ttlBuffer, Peers(s, c.instance), s.clock, c, g,
                   Lookup(s.store, PerInstance(c.instance, c.key)), reply);
    }
    forall x | x in s'.calls && s'.calls[x].key == key ensures CallKept(lim, s.clock, g', s'.calls[x]) {
      if x != id && c.key == key { KeptThrough(lim, s.clock, g, g', s.calls[x]); }
    }
  }

  lemma GuardedLater(lim: Limit, clock: nat, now: nat, g: ZSet)
    requires clock <= now && g.Sound(clock)
    ensures g.Sound(now) && g.Evict(now).Sound(now)
    ensures forall m :: Guarded(lim, clock, g, m) ==> Guarded(lim, now, g, m) && Guarded(lim, now, g.Evict(now), m)
  {
  }

  lemma CallKeptLater(lim: Limit, clock: nat, now: nat, g: ZSet, c: Call)
    requires clock <= now && CallKept(lim, clock, g, c)
    ensures CallKept(lim, now, g, c)
    ensures CallKept(lim, now, g.Evict(now), Swept(c, false)) && CallKept(lim, now, Empty(), Swept(c, true))
  {
  }

  /** What the steps that are neither commands nor ticks do to one key. */
  ghost predicate Undisturbed(s: State, s': State, key: string) {
    && Lookup(s'.store, Global(key)) == Lookup(s.store, Global(key))
    && (forall x: Granted :: x.key == key ==> (x in s'.granted <==> x in s.granted))
    && forall id :: id in s'.calls && s'.calls[id].key == key ==>
         (id in s.calls && s'.calls[id] == s.calls[id]) || s'.calls[id] == Begun(s'.calls[id].instance, key, s.clock)
  }

  ghost predicate Overtaken(s: State, s': State, key: string, reset: bool) {
    && Lookup(s'.store, Global(key)) == (if reset then Empty() else Lookup(s.store, Global(key)).Evict(s.clock))
    && (if reset then forall x: Granted :: x in s'.granted ==> x.key != key else s'.granted == s.granted)
    && forall id :: id in s'.calls && s'.calls[id].key == key ==>
         id in s.calls && s.calls[id].key == key && s'.calls[id] == Swept(s.calls[id], reset)
  }

  lemma OtherSteps(sys: System, s: State, l: Label, key: string)
    requires !l.Command? && !l.Tick?
    ensures var s' := Step(sys, s, l);
            && s'.clock == s.clock
            && (Undisturbed(s, s', key) || Overtaken(s, s', key, false) || Overtaken(s, s', key, true))
  {
    hide ZSet.Evict, InFlight, Swept, Undisturbed, Overtaken;
    if l.Evict? && l.k == Global(key) && Lookup(s.store, l.k).Evict(s.clock) != Lookup(s.store, l.k) {
      Overtakes(sys, s, l, key, false);
    } else if l.DeleteGlobal? && l.reply.TookEffect() && l.key == key {
      Overtakes(sys, s, l, key, true);
    } else if l.Begin? {
      BeginDisturbsNobody(sys, s, l, key);
    } else {
      DisturbsNobody(sys, s, l, key);
    }
  }

  lemma Overtakes(sys: System, s: State, l: Label, key: string, reset: bool)
    requires if reset then l.DeleteGlobal? && l.reply.TookEffect() && l.key == key
             else l.Evict? && l.k == Global(key) && Lookup(s.store, l.k).Evict(s.clock) != Lookup(s.store, l.k)
    ensures Overtaken(s, Step(sys, s, l), key, reset) && Step(sys, s, l).clock == s.clock
  {
    hide ZSet.Evict, Swept;
  }

  lemma BeginDisturbsNobody(sys: System, s: State, l: Label, key: string)
    requires l.Begin?
    ensures Undisturbed(s, Step(sys, s, l), key) && Step(sys, s, l).clock == s.clock
  {
    hide InFlight, Operate;
  }

  lemma DisturbsNobody(sys: System, s: State, l: Label, key: string)
    requires !l.Command? && !l.Tick? && !l.Begin?
    requires !(l.Evict? && l.k == Global(key) && Lookup(s.store, l.k).Evict(s.clock) != Lookup(s.store, l.k))
    requires !(l.DeleteGlobal? && l.reply.TookEffect() && l.key == key)
    ensures Undisturbed(s, Step(sys, s, l), key) && Step(sys, s, l).clock == s.clock
  {
    hide ZSet.Evict, Swept;
  }

  lemma StepKeepsKept(sys: System, s: State, l: Label, key: string)
    requires Kept(sys, s, key) && sys.config.limits(key).TtlHarmless(sys.config.ttlBuffer)
    ensures Kept(sys, Step(sys, s, l), key)
  {
    var lim, g := sys.config.limits(key), Lookup(s.store, Global(key));
    if l.Command? {
      hide OnReply, Kept;
      if l.call in s.calls { ReplyKeepsKept(sys, s, l.call, l.reply, key); }
    } else if l.Tick? {
      GuardedLater(lim, s.clock, s.clock + l.ms, g);
      forall id | id in s.calls && s.calls[id].key == key ensures CallKept(lim, s.clock + l.ms, g, s.calls[id]) {
        CallKeptLater(lim, s.clock, s.clock + l.ms, g, s.calls[id]);
      }
      hide CallKept, Guarded, ZSet.Sound;
    } else {
      OtherKeepsKept(sys, s, l, key);
    }
  }

  lemma OtherKeepsKept(sys: System, s: State, l: Label, key: string)
    requires Kept(sys, s, key) && !l.Command? && !l.Tick?
    ensures Kept(sys, Step(sys, s, l), key)
  {
    var lim, g, s' := sys.config.limits(key), Lookup(s.store, Global(key)), Step(sys, s, l);
    GuardedLater(lim, s.clock, s.clock, g);
    OtherSteps(sys, s, l, key);
    assert forall i :: CallKept(lim, s.clock, g, Begun(i, key, s.clock));
    assert Empty().Sound(s.clock);
    hide CallKept, Guarded, ZSet.Sound, ZSet.Evict, Step, Swept, Begun;
    forall id | id in s'.calls && s'.calls[id].key == key
      ensures CallKept(lim, s.clock, Lookup(s'.store, Global(key)), s'.calls[id])
    {
      if id in s.calls && s.calls[id].key == key { CallKeptLater(lim, s.clock, s.clock, g, s.calls[id]); }
    }
  }

  lemma {:induction false} RunKept(sys: System, ls: seq<Label>, key: string)
    requires sys.config.limits(key).TtlHarmless(sys.config.ttlBuffer)
    ensures Kept(sys, Run(sys, ls), key)
  {
    if ls != [] {
      hide Step, Kept;
      RunKept(sys, ls[..|ls| - 1], key);
      StepKeepsKept(sys, Run(sys, ls[..|ls| - 1]), ls[|ls| - 1], key);
    }
  }

  /** In every interleaving the current window holds at most maxRequests + C - 1 calls that were
      allowed with their entry in the set, counting those still about to store it, as long as no
      instance begins two calls on the key in one millisecond. */
  lemma CountedWindowBound(sys: System, ls: seq<Label>, key: string)
    requires sys.config.limits(key).TtlHarmless(sys.config.ttlBuffer) && Paced(Run(sys, ls), key)
    ensures var s, lim := Run(sys, ls), sys.config.limits(key);
            |LiveGranted(s, key, lim.windowMs, false)| + |PassedCalls(s.calls, key)| <= Ceiling(lim, sys.cap)
  {
    var s, lim := Run(sys, ls), sys.config.limits(key);
    RunKept(sys, ls, key);
    RunRecorded(sys, ls);
    OvershootBound(sys, ls, key);
    hide Run, Recorded, Paced, PassedCalls;
    AtMostCard(s, key, LiveGranted(s, key, lim.windowMs, false), Lookup(s.store, Global(key)));
  }

  lemma {:induction false} NoCalls(sys: System, ls: seq<Label>, key: string)
    requires sys.cap == 0
    ensures Run(sys, ls).calls == map[] && Run(sys, ls).granted == {}
    ensures LiveGranted(Run(sys, ls), key, sys.config.limits(key).windowMs, true) == {}
    ensures PassedCalls(Run(sys, ls).calls, key) == {}
  {
    if ls != [] {
      NoCalls(sys, ls[..|ls| - 1], key);
      hide ZSet.Evict, Operate;
    }
  }
}
