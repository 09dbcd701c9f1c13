/** Overlapping calls of the single-key limiter overshoot as those of the shared limiter do when every
    call has an instance of its own: each step of the one is a few steps of the other. Request ids
    never repeat here, so the bounds on entries are bounds on calls without any pacing. */
module SlidingWindowOverlap {
  import opened Redis
  import opened CircuitBreaker
  import opened RateLimitTypes
  import D = Distributed
  import I = DistributedInterleaving
  import opened InterleavingHistory
  import InterleavingBounds
  import InterleavingEvictions
  import InterleavingBreaker
  import InterleavingAnyWindow
  import opened InterleavingRuns
  import opened SlidingWindowInterleaving

  function SharedPhase(p: Phase): I.Phase {
    match p
    case Prune => I.PruneGlobal case Count => I.CountGlobal case Add => I.AddGlobal
    case Expire => I.ExpireGlobal case Recount => I.Recount
  }

  function Shared(id: nat, c: Call): I.Call {
    I.Call(Name(id), c.key, c.now, SharedPhase(c.phase), c.wiped, c.evicted)
  }

  /** The instance has not done anything that changed it or its sets. */
  ghost predicate Idle(t: I.State, id: nat) {
    var i := Name(id);
    && i in t.instances && t.instances[i] == D.Instance(Initial(), {i})
    && forall key :: Lookup(t.store, PerInstance(i, key)) == Empty()
  }

  predicate Early(c: Call) { c.phase.Prune? || c.phase.Count? }

  /** The shared limiter with instances 0 to n - 1 in the corresponding state. */
  ghost predicate Mirrors(n: nat, s: State, t: I.State) {
    && t.clock == s.clock && t.granted == s.granted && t.begun.Keys == s.begun
    && (forall key :: Lookup(t.store, Global(key)) == Lookup(s.store, Plain(key)))
    && t.calls.Keys == s.calls.Keys && s.calls.Keys <= s.begun
    && (forall id :: id in s.calls ==> t.calls[id] == Shared(id, s.calls[id]) && id < n)
    && forall id: nat :: id < n && (id !in s.begun || (id in s.calls && Early(s.calls[id]))) ==> Idle(t, id)
  }

  lemma StartMirrors(config: Config, cap: nat, n: nat)
    ensures Mirrors(n, Start(), I.Start(Lonely(config, cap, n)))
    ensures Reachable(Lonely(config, cap, n), I.Start(Lonely(config, cap, n)))
  {
    var sys, none: seq<I.Label> := Lonely(config, cap, n), [];
    assert I.Run(sys, none) == I.Start(sys);
    forall id: nat | id < n ensures Idle(I.Start(sys), id) {
      assert Name(id) in sys.registries;
      assert {} + {Name(id)} == {Name(id)};
    }
  }

  lemma SameInFlight(n: nat, s: State, t: I.State, key: string)
    requires Mirrors(n, s, t)
    ensures I.InFlight(t.calls, key) == InFlight(s, key) && I.PassedCalls(t.calls, key) == Passed(s, key)
  {
  }

  /** One command of the call's own instance. */
  lemma SharedReply(sys: I.System, t: I.State, id: nat, reply: Reply) returns (t': I.State)
    requires Reachable(sys, t) && id in t.calls && t.calls[id].instance == Name(id)
    ensures t' == I.OnReply(sys, t, id, reply) && Reachable(sys, t')
    ensures forall j: nat :: j != id && Idle(t, j) ==> Idle(t', j)
    ensures var c := t.calls[id];
            var p := I.PerformIn(sys, t, c, reply);
            && t'.clock == t.clock && t'.begun == t.begun && t'.calls == Moved(t.calls, id, c, p.outcome)
            && t'.granted == (if p.outcome.Grant? && !c.wiped
                              then t.granted + {I.Granted(id, c.key, c.Id(), c.evicted)} else t.granted)
            && Lookup(t'.store, Global(c.key)) == p.global
            && (forall key :: key != c.key ==> Lookup(t'.store, Global(key)) == Lookup(t.store, Global(key)))
            && (Idle(t, id) && p.local == Empty() && p.outcome.Continue? && p.outcome != I.Continue(I.Recount) ==>
                  Idle(t', id))
  {
    t' := I.OnReply(sys, t, id, reply);
    hide I.OnReply, I.PerformIn, Reachable, Moved;
    assert I.Step(sys, t, I.Command(id, reply)) == t';
    Reach(sys, t, I.Command(id, reply));
    ReplyShape(sys, t, id, reply);
    InterleavingBreaker.ReplyBreaker(sys, t, id, reply);
    hide I.Step;
    forall j: nat | j != id && Idle(t, j) ensures Idle(t', j) { NamesDiffer(j, id); }
  }

  /** Where the shared call goes first: to its own count or its own set, which ours has not. */
  function NextShared(out: Outcome): I.Outcome {
    match out
    case Continue(Count) => I.Continue(I.CountGlobal)
    case Continue(Add) => I.Continue(I.PruneLocal)
    case Continue(Expire) => I.Continue(I.AddLocal)
    case Continue(_) => I.Continue(I.ExpireLocal)
    case Throw => I.Throw
    case Deny => I.Deny
    case Grant => I.Grant
  }

  lemma SamePerform(lim: Limit, ttlBuffer: int, peers: nat, clock: nat, id: nat, c: Call, z: ZSet, d: ZSet,
                    reply: Reply)
    ensures var p := Perform(lim, ttlBuffer, clock, Id(id, c), c.phase, z, reply);
            I.Perform(lim, ttlBuffer, peers, clock, Shared(id, c), z, d, reply)
            == I.Performed(p.zset, d, NextShared(p.outcome))
  {
    hide ZSet.RemoveByScore, ZSet.Add, ZSet.Expire, ZSet.Card, TtlSeconds, Name, D.Quota;
  }

  /** What the shared call does besides, without faults. */
  lemma OwnStores(lim: Limit, ttlBuffer: int, peers: nat, clock: nat, c: I.Call, z: ZSet, d: ZSet)
    ensures var p := I.Perform(lim, ttlBuffer, peers, clock, c.(phase := I.AddLocal), z, d, Ok);
            p.global == z && p.outcome == I.Continue(I.ExpireGlobal)
    ensures var p := I.Perform(lim, ttlBuffer, peers, clock, c.(phase := I.ExpireLocal), z, d, Ok);
            p.global == z && p.outcome == I.Continue(I.Recount)
    ensures I.Perform(lim, ttlBuffer, peers, clock, c.(phase := I.Publish), z, d, Ok) == I.Performed(z, d, I.End)
  {
    hide ZSet.RemoveByScore, ZSet.Add, ZSet.Expire, ZSet.Card, TtlSeconds, D.Quota;
  }

  /** Since t nothing has changed but this call, its key's global set and its instance. */
  ghost predicate Else(t: I.State, t': I.State, id: nat, key: string, z: ZSet) {
    && t'.clock == t.clock && t'.begun == t.begun && Lookup(t'.store, Global(key)) == z
    && (forall k :: k != key ==> Lookup(t'.store, Global(k)) == Lookup(t.store, Global(k)))
    && forall j: nat :: j != id && Idle(t, j) ==> Idle(t', j)
  }

  ghost predicate At(t: I.State, t': I.State, id: nat, c: I.Call, z: ZSet) {
    t'.calls == t.calls[id := c] && t'.granted == t.granted && Else(t, t', id, c.key, z)
  }

  ghost predicate Gone(t: I.State, t': I.State, id: nat, c: I.Call, z: ZSet, allowed: bool) {
    && t'.calls == t.calls - {id} && Else(t, t', id, c.key, z)
    && t'.granted == if allowed && !c.wiped then t.granted + {I.Granted(id, c.key, c.Id(), c.evicted)} else t.granted
  }

  /** One more command of the call. */
  lemma Carry(sys: I.System, t: I.State, t1: I.State, id: nat, c: I.Call, z: ZSet, reply: Reply) returns (t2: I.State)
    requires Reachable(sys, t1) && At(t, t1, id, c, z) && c.instance == Name(id)
    ensures Reachable(sys, t2)
    ensures var p := I.Perform(sys.config.limits(c.key), sys.config.ttlBuffer, I.Peers(t1, Name(id)), t.clock, c, z,
                               Lookup(t1.store, PerInstance(Name(id), c.key)), reply);
            && (if p.outcome.Continue? then At(t, t2, id, c.(phase := p.outcome.next), p.global)
                else if p.outcome.Deny? then At(t, t2, id, c.(phase := I.Publish), p.global)
                else Gone(t, t2, id, c, p.global, p.outcome.Grant?))
            && (Idle(t1, id) && p.local == Empty() && p.outcome.Continue? && p.outcome != I.Continue(I.Recount) ==>
                  Idle(t2, id))
  {
    hide I.OnReply, I.Perform, Reachable, Idle, Name;
    t2 := SharedReply(sys, t1, id, reply);
  }

  /** An idle instance has nothing of its own and knows only itself. */
  lemma IdleFacts(t: I.State, id: nat, key: string)
    requires Idle(t, id)
    ensures I.Peers(t, Name(id)) == 1 && Lookup(t.store, PerInstance(Name(id), key)) == Empty()
  {
  }

  /** Where one of our commands ends, the shared call has come as far. */
  lemma Lands(n: nat, s: State, s': State, t: I.State, t': I.State, id: nat, key: string, z: ZSet)
    requires Mirrors(n, s, t) && id in s.calls && s.calls[id].key == key && Else(t, t', id, key, z)
    requires s'.clock == s.clock && s'.begun == s.begun && s'.store == s.store[Plain(key) := z]
    requires t'.granted == s'.granted
    requires if id in s'.calls then s'.calls == s.calls[id := s'.calls[id]]
                                    && t'.calls == t.calls[id := Shared(id, s'.calls[id])]
                                    && (Early(s'.calls[id]) ==> Idle(t', id))
             else s'.calls == s.calls - {id} && t'.calls == t.calls - {id}
    ensures Mirrors(n, s', t')
  {
    hide Idle, Name;
  }

  /** The first command of ours is one of theirs. */
  lemma FirstCommand(sys: System, shared: I.System, n: nat, s: State, t: I.State, id: nat, reply: Reply)
    returns (t': I.State)
    requires shared.config == sys.config && Mirrors(n, s, t) && Reachable(shared, t) && id in s.calls
    ensures var c, p := s.calls[id], PerformIn(sys, s, id, reply);
            && Reachable(shared, t')
            && (if p.outcome.Continue?
                then At(t, t', id, Shared(id, c).(phase := NextShared(p.outcome).next), p.zset)
                else if p.outcome.Deny? then At(t, t', id, Shared(id, c).(phase := I.Publish), p.zset)
                else Gone(t, t', id, Shared(id, c), p.zset, p.outcome.Grant?))
            && (Idle(t, id) && p.outcome.Continue? && p.outcome.next.Count? ==> Idle(t', id))
            && (Idle(t, id) && p.outcome.Continue? && p.outcome.next.Add? ==> Idle(t', id))
  {
    var c := s.calls[id];
    SamePerform(sys.config.limits(c.key), sys.config.ttlBuffer, I.Peers(t, Name(id)), s.clock, id, c,
                Lookup(s.store, Plain(c.key)), Lookup(t.store, PerInstance(Name(id), c.key)), reply);
    assert t.calls[id := Shared(id, c)] == t.calls;
    if Idle(t, id) { IdleFacts(t, id, c.key); }
    hide I.Perform, Perform, Reachable, Idle, Name;
    t' := Carry(shared, t, t, id, Shared(id, c), Lookup(s.store, Plain(c.key)), reply);
  }

  lemma CommandMirrors(sys: System, shared: I.System, n: nat, s: State, t: I.State, id: nat, reply: Reply)
    returns (t': I.State)
    requires shared.config == sys.config && Mirrors(n, s, t) && Reachable(shared, t) && id in s.calls
    ensures Reachable(shared, t') && Mirrors(n, OnReply(sys, s, id, reply), t')
  {
    hide PerformIn, Reachable, Idle, Name, At, Gone, Mirrors, I.Perform, Else;
    var c, p := s.calls[id], PerformIn(sys, s, id, reply);
    PhaseFollows(sys, s, id, reply);
    if p.outcome.Continue? && (p.outcome.next.Count? || p.outcome.next.Add?) { EarlyIsIdle(n, s, t, id); }
    var t1 := FirstCommand(sys, shared, n, s, t, id, reply);
    if p.outcome.Continue? {
      if p.outcome.next.Count? {
        t' := t1;
      } else if p.outcome.next.Add? {
        t' := PassesOwn(shared, t, t1, id, Shared(id, c), p.zset);
      } else {
        t' := StoresOwn(shared, t, t1, id, Shared(id, c), p.zset, p.outcome.next.Expire?);
      }
      StaysInFlight(sys, n, s, t, t', id, reply);
    } else {
      t' := t1;
      if p.outcome.Deny? { t' := Publishes(shared, t, t1, id, Shared(id, c), p.zset); }
      IsGone(sys, n, s, t, t', id, reply);
    }
  }

  lemma PhaseFollows(sys: System, s: State, id: nat, reply: Reply)
    requires id in s.calls
    ensures var c, out := s.calls[id], PerformIn(sys, s, id, reply).outcome;
            out.Continue? ==> !out.next.Prune? && (out.next.Count? || out.next.Add? ==> Early(c))
                              && (out.next.Add? ==> sys.config.limits(c.key).maxRequests >= 1)
  {
    hide ZSet.RemoveByScore, ZSet.Add, ZSet.Expire, TtlSeconds, Name;
  }

  lemma EarlyIsIdle(n: nat, s: State, t: I.State, id: nat)
    requires Mirrors(n, s, t) && id in s.calls && Early(s.calls[id])
    ensures Idle(t, id)
  {
    hide Idle, Name;
  }

  /** Past the own count of the shared call. */
  lemma PassesOwn(shared: I.System, t: I.State, t1: I.State, id: nat, c: I.Call, z: ZSet) returns (t': I.State)
    requires Reachable(shared, t1) && At(t, t1, id, c.(phase := I.PruneLocal), z) && c.instance == Name(id)
    requires Idle(t1, id) && shared.config.limits(c.key).maxRequests >= 1
    ensures Reachable(shared, t') && At(t, t', id, c.(phase := I.AddGlobal), z)
  {
    hide I.Perform, Reachable, Idle, Name, At, Gone;
    LocalCountPasses(shared.config.limits(c.key), shared.config.ttlBuffer, t.clock, c, z);
    IdleFacts(t1, id, c.key);
    var t2 := Carry(shared, t, t1, id, c.(phase := I.PruneLocal), z, Ok);
    IdleFacts(t2, id, c.key);
    t' := Carry(shared, t, t2, id, c.(phase := I.CountLocal), z, Ok);
  }

  /** Through the command on the own set that follows ZADD or EXPIRE. */
  lemma StoresOwn(shared: I.System, t: I.State, t1: I.State, id: nat, c: I.Call, z: ZSet, adds: bool)
    returns (t': I.State)
    requires Reachable(shared, t1) && c.instance == Name(id)
    requires At(t, t1, id, c.(phase := if adds then I.AddLocal else I.ExpireLocal), z)
    ensures Reachable(shared, t') && At(t, t', id, c.(phase := if adds then I.ExpireGlobal else I.Recount), z)
  {
    hide I.Perform, Reachable, Idle, Name, At, Gone;
    OwnStores(shared.config.limits(c.key), shared.config.ttlBuffer, I.Peers(t1, Name(id)), t.clock, c, z,
              Lookup(t1.store, PerInstance(Name(id), c.key)));
    t' := Carry(shared, t, t1, id, c.(phase := if adds then I.AddLocal else I.ExpireLocal), z, Ok);
  }

  lemma Publishes(shared: I.System, t: I.State, t1: I.State, id: nat, c: I.Call, z: ZSet) returns (t': I.State)
    requires Reachable(shared, t1) && c.instance == Name(id) && At(t, t1, id, c.(phase := I.Publish), z)
    ensures Reachable(shared, t') && Gone(t, t', id, c, z, false)
  {
    hide I.Perform, Reachable, Idle, Name, At, Else;
    OwnStores(shared.config.limits(c.key), shared.config.ttlBuffer, I.Peers(t1, Name(id)), t.clock, c, z,
              Lookup(t1.store, PerInstance(Name(id), c.key)));
    t' := Carry(shared, t, t1, id, c.(phase := I.Publish), z, Ok);
  }

  lemma StaysInFlight(sys: System, n: nat, s: State, t: I.State, t': I.State, id: nat, reply: Reply)
    requires Mirrors(n, s, t) && id in s.calls && PerformIn(sys, s, id, reply).outcome.Continue?
    requires var c, p := s.calls[id], PerformIn(sys, s, id, reply);
             && At(t, t', id, Shared(id, c.(phase := p.outcome.next)), p.zset) && !p.outcome.next.Prune?
             && (p.outcome.next.Count? ==> Idle(t', id))
    ensures Mirrors(n, OnReply(sys, s, id, reply), t')
  {
    SameSet(n, s, t, s.calls[id].key);
    hide PerformIn, Idle, Name, Mirrors, Else;
    Lands(n, s, OnReply(sys, s, id, reply), t, t', id, s.calls[id].key, PerformIn(sys, s, id, reply).zset);
  }

  lemma IsGone(sys: System, n: nat, s: State, t: I.State, t': I.State, id: nat, reply: Reply)
    requires Mirrors(n, s, t) && id in s.calls && !PerformIn(sys, s, id, reply).outcome.Continue?
    requires var p := PerformIn(sys, s, id, reply);
             Gone(t, t', id, Shared(id, s.calls[id]), p.zset, p.outcome.Grant?)
    ensures Mirrors(n, OnReply(sys, s, id, reply), t')
  {
    SameSet(n, s, t, s.calls[id].key);
    hide PerformIn, Idle, Name, Mirrors, Else;
    Lands(n, s, OnReply(sys, s, id, reply), t, t', id, s.calls[id].key, PerformIn(sys, s, id, reply).zset);
  }

  lemma BeginMirrors(sys: System, shared: I.System, n: nat, s: State, t: I.State, id: nat, key: string)
    returns (t': I.State)
    requires shared.config == sys.config && shared.cap == sys.cap && Mirrors(n, s, t) && Reachable(shared, t) && id < n
    ensures Reachable(shared, t') && Mirrors(n, Step(sys, s, Begin(id, key)), t')
  {
    hide Reachable, InFlight, I.InFlight, Name, Idle, Mirrors;
    t' := t;
    if Step(sys, s, Begin(id, key)) != s {
      SameInFlight(n, s, t, key);
      NewIsIdle(n, s, t, id);
      t' := I.Step(shared, t, I.Begin(id, Name(id), key));
      Reach(shared, t, I.Begin(id, Name(id), key));
      IdleBegins(shared, t, id, key);
      hide Step, I.Step;
      Begins(sys, n, s, t, t', id, key);
    }
  }

  lemma NewIsIdle(n: nat, s: State, t: I.State, id: nat)
    requires Mirrors(n, s, t) && id < n && id !in s.begun
    ensures Idle(t, id) && !I.Taken(t, id)
  {
    hide Idle, Name;
  }

  lemma IdleBegins(shared: I.System, t: I.State, id: nat, key: string)
    requires Idle(t, id) && !I.Taken(t, id) && |I.InFlight(t.calls, key)| < shared.cap
    ensures I.Step(shared, t, I.Begin(id, Name(id), key))
         == t.(calls := t.calls[id := I.Begun(Name(id), key, t.clock)],
               begun := t.begun[id := I.Request(key, RequestId(t.clock, Name(id)))])
  {
    hide I.InFlight, Name;
    assert t.instances[Name(id) := t.instances[Name(id)]] == t.instances;
  }

  lemma Begins(sys: System, n: nat, s: State, t: I.State, t': I.State, id: nat, key: string)
    requires Mirrors(n, s, t) && id < n && id !in s.begun && Step(sys, s, Begin(id, key)) != s
    requires t' == t.(calls := t.calls[id := I.Begun(Name(id), key, t.clock)],
                      begun := t.begun[id := I.Request(key, RequestId(t.clock, Name(id)))])
    ensures Mirrors(n, Step(sys, s, Begin(id, key)), t')
  {
    hide InFlight, Name;
    assert forall j: nat :: Idle(t, j) ==> Idle(t', j);
    hide Idle;
  }

  lemma SweepMirrors(n: nat, s: State, t: I.State, key: string, reset: bool)
    requires Mirrors(n, s, t)
    ensures var calls, shared := Sweep(s.calls, key, reset), I.Sweep(t.calls, key, reset);
            && calls.Keys == s.calls.Keys && shared.Keys == calls.Keys
            && forall id :: id in calls ==>
                 shared[id] == Shared(id, calls[id]) && (Early(calls[id]) <==> Early(s.calls[id]))
  {
    hide Idle, Name, Shared, Swept, I.Swept, Early;
    SameCalls(n, s, t);
    forall id | id in s.calls
      ensures Sweep(s.calls, key, reset)[id].key == s.calls[id].key
      ensures I.Sweep(t.calls, key, reset)[id] == Shared(id, Sweep(s.calls, key, reset)[id])
      ensures Early(Sweep(s.calls, key, reset)[id]) <==> Early(s.calls[id])
    {
      SweptAlike(id, s.calls[id], reset);
    }
  }

  lemma SameCalls(n: nat, s: State, t: I.State)
    requires Mirrors(n, s, t)
    ensures t.calls.Keys == s.calls.Keys && forall id :: id in s.calls ==> t.calls[id] == Shared(id, s.calls[id])
  {
    hide Idle, Name, Shared;
  }

  lemma SweptAlike(id: nat, c: Call, reset: bool)
    ensures I.Swept(Shared(id, c), reset) == Shared(id, Swept(c, reset)) && Shared(id, c).key == c.key
    ensures Swept(c, reset).key == c.key && (Early(Swept(c, reset)) <==> Early(c))
  {
    hide Name;
  }

  lemma LossMirrors(sys: System, shared: I.System, n: nat, s: State, t: I.State, l: Label) returns (t': I.State)
    requires Mirrors(n, s, t) && Reachable(shared, t) && (l.Evict? || l.Delete?)
    ensures Reachable(shared, t') && Mirrors(n, Step(sys, s, l), t')
  {
    hide Reachable, Sweep, I.Sweep, Mirrors;
    t' := t;
    if Step(sys, s, l) != s {
      var lost := if l.Evict? then I.Evict(Global(l.key)) else I.DeleteGlobal(l.key, l.reply);
      t' := I.Step(shared, t, lost);
      Reach(shared, t, lost);
      SameSet(n, s, t, l.key);
      Loses(n, s, Step(sys, s, l), t, t', l.key, l.Delete?);
    }
  }

  lemma SameSet(n: nat, s: State, t: I.State, key: string)
    requires Mirrors(n, s, t)
    ensures Lookup(t.store, Global(key)) == Lookup(s.store, Plain(key))
    ensures t.clock == s.clock && t.granted == s.granted && t.calls.Keys == s.calls.Keys
  {
  }

  lemma Loses(n: nat, s: State, s': State, t: I.State, t': I.State, key: string, reset: bool)
    requires Mirrors(n, s, t) && s'.clock == s.clock && s'.begun == s.begun && t'.granted == s'.granted
    requires s'.store == s.store[Plain(key) := Empty()] && s'.calls == Sweep(s.calls, key, reset)
    requires t' == t.(store := t.store[Global(key) := Empty()], calls := I.Sweep(t.calls, key, reset),
                      granted := t'.granted)
    ensures Mirrors(n, s', t')
  {
    hide Name, Sweep, I.Sweep;
    SweepMirrors(n, s, t, key, reset);
    assert forall j: nat :: Idle(t, j) ==> Idle(t', j);
    hide Idle;
  }

  lemma TickMirrors(sys: System, shared: I.System, n: nat, s: State, t: I.State, ms: nat) returns (t': I.State)
    requires Mirrors(n, s, t) && Reachable(shared, t)
    ensures Reachable(shared, t') && Mirrors(n, Step(sys, s, Tick(ms)), t')
  {
    hide Reachable, Name;
    t' := I.Step(shared, t, I.Tick(ms));
    Reach(shared, t, I.Tick(ms));
    assert forall j: nat :: Idle(t, j) ==> Idle(t', j);
    hide Idle;
  }

  /** Every run has a paced run of the shared limiter with the same sets and the same grants. */
  lemma {:induction false} RunMirrors(sys: System, ls: seq<Label>, n: nat) returns (t: I.State)
    requires forall l :: l in ls && l.Begin? ==> l.call < n
    ensures Reachable(Lonely(sys.config, sys.cap, n), t) && Mirrors(n, Run(sys, ls), t)
  {
    hide Step, Reachable, Mirrors, Lonely;
    var shared := Lonely(sys.config, sys.cap, n);
    LonelyIs(sys.config, sys.cap, n);
    if ls == [] {
      t := I.Start(shared);
      StartMirrors(sys.config, sys.cap, n);
    } else {
      var before, l := ls[..|ls| - 1], ls[|ls| - 1];
      t := RunMirrors(sys, before, n);
      t := StepMirrors(sys, shared, n, Run(sys, before), t, l);
    }
  }

  lemma LonelyIs(config: Config, cap: nat, n: nat)
    ensures Lonely(config, cap, n).config == config && Lonely(config, cap, n).cap == cap
  {
  }

  lemma StepMirrors(sys: System, shared: I.System, n: nat, s: State, t: I.State, l: Label) returns (t': I.State)
    requires shared.config == sys.config && shared.cap == sys.cap && Mirrors(n, s, t) && Reachable(shared, t)
    requires l.Begin? ==> l.call < n
    ensures Reachable(shared, t') && Mirrors(n, Step(sys, s, l), t')
  {
    if l.Command? && l.call !in s.calls {
      t' := t;
    } else if l.Command? {
      t' := CommandMirrors(sys, shared, n, s, t, l.call, l.reply);
    } else {
      hide Step, Mirrors, Reachable;
      if l.Tick? {
        t' := TickMirrors(sys, shared, n, s, t, l.ms);
      } else if l.Begin? {
        t' := BeginMirrors(sys, shared, n, s, t, l.call, l.key);
      } else {
        t' := LossMirrors(sys, shared, n, s, t, l);
      }
    }
  }

  function Above(ls: seq<Label>): (n: nat)
    ensures forall l :: l in ls && l.Begin? ==> l.call < n
  {
    if ls == [] then 0
    else
      var before, l := Above(ls[..|ls| - 1]), ls[|ls| - 1];
      if l.Begin? && l.call >= before then l.call + 1 else before
  }

  lemma Embeds(sys: System, ls: seq<Label>) returns (shared: I.System, ks: seq<I.Label>)
    ensures shared.config == sys.config && shared.cap == sys.cap && Mirrors(Above(ls), Run(sys, ls), I.Run(shared, ks))
    ensures forall key :: I.Paced(I.Run(shared, ks), key)
  {
    hide Run, I.Run, Mirrors, Lonely, Above, I.Paced, OwnName;
    LonelyIs(sys.config, sys.cap, Above(ls));
    shared := Lonely(sys.config, sys.cap, Above(ls));
    var t := RunMirrors(sys, ls, Above(ls));
    ks :| I.Run(shared, ks) == t && forall l :: l in ks ==> OwnName(l);
    forall key ensures I.Paced(I.Run(shared, ks), key) { OwnNamesPace(shared, ks, key); }
  }

  /** In every interleaving with at most C calls in flight on a key, with faults, resets and
      evictions: the set plus the calls that passed the count and have not stored their entry yet
      never exceed maxRequests + C - 1. */
  lemma OvershootBound(sys: System, ls: seq<Label>, key: string)
    ensures Lookup(Run(sys, ls).store, Plain(key)).Card() + |Passed(Run(sys, ls), key)|
            <= I.Ceiling(sys.config.limits(key), sys.cap)
  {
    hide Run, I.Run, I.Paced, Mirrors, I.Ceiling, Passed, I.PassedCalls;
    var shared, ks := Embeds(sys, ls);
    SameSet(Above(ls), Run(sys, ls), I.Run(shared, ks), key);
    SameInFlight(Above(ls), Run(sys, ls), I.Run(shared, ks), key);
    InterleavingBounds.OvershootBound(shared, ks, key);
  }

  /** Every call that is allowed adds one to `granted`. */
  lemma EachGrantCounts(sys: System, ls: seq<Label>, id: nat, reply: Reply)
    requires var s := Run(sys, ls);
             id in s.calls && !s.calls[id].wiped && PerformIn(sys, s, id, reply).outcome.Grant?
    ensures |Run(sys, ls + [Command(id, reply)]).granted| == |Run(sys, ls).granted| + 1
  {
    hide PerformIn, BreakerAfter, I.Run, I.Paced, Mirrors, Id;
    var shared, ks := Embeds(sys, ls);
    SameSet(Above(ls), Run(sys, ls), I.Run(shared, ks), "");
    RunRecorded(shared, ks);
    assert (ls + [Command(id, reply)])[..|ls|] == ls;
    var s, c := Run(sys, ls), Run(sys, ls).calls[id];
    assert I.Granted(id, c.key, Id(id, c), c.evicted) !in s.granted;
  }

  /** The calls in the current window that were granted; without `all`, only those whose entry was
      still in the set then. */
  function LiveGranted(s: State, key: string, windowMs: int, all: bool): set<I.Granted> {
    set x | x in s.granted && x.key == key && x.id.at > s.clock - windowMs && (all || !x.evicted)
  }

  /** The current window holds at most maxRequests + C - 1 calls that were granted with their entry in
      the set; and granted at all, if the limit tolerates evictions. */
  lemma GrantedWindowBound(sys: System, ls: seq<Label>, key: string, all: bool)
    requires sys.config.limits(key).TtlHarmless(sys.config.ttlBuffer)
    requires all ==> InterleavingEvictions.Tolerant(sys.config.limits(key))
    ensures var s, lim := Run(sys, ls), sys.config.limits(key);
            |LiveGranted(s, key, lim.windowMs, all)| + |Passed(s, key)| <= I.Ceiling(lim, sys.cap)
  {
    hide Run, I.Run, I.Paced, Mirrors, I.Ceiling, Passed, I.PassedCalls, Limit.TtlHarmless;
    var shared, ks := Embeds(sys, ls);
    var w := sys.config.limits(key).windowMs;
    SameSet(Above(ls), Run(sys, ls), I.Run(shared, ks), key);
    SameInFlight(Above(ls), Run(sys, ls), I.Run(shared, ks), key);
    assert LiveGranted(Run(sys, ls), key, w, all) == I.LiveGranted(I.Run(shared, ks), key, w, all);
    if all {
      InterleavingEvictions.GrantedWindowBound(shared, ks, key);
    } else {
      InterleavingBounds.CountedWindowBound(shared, ks, key);
    }
  }

  /** The calls with a timestamp in (until - windowMs, until] that were granted. */
  function GrantedIn(s: State, key: string, windowMs: int, until: int, all: bool): set<I.Granted> {
    set x | x in s.granted && x.key == key && until - windowMs < x.id.at <= until && (all || !x.evicted)
  }

  /** And a window that ends at any moment, however late its calls are granted, at most
      maxRequests + 2 * C - 1. */
  lemma AnyWindowBound(sys: System, ls: seq<Label>, key: string, until: nat, all: bool)
    requires sys.config.limits(key).TtlHarmless(sys.config.ttlBuffer)
    requires all ==> InterleavingEvictions.Tolerant(sys.config.limits(key))
    ensures var s, lim := Run(sys, ls), sys.config.limits(key);
            |GrantedIn(s, key, lim.windowMs, until, all)| <= I.Ceiling(lim, sys.cap) + sys.cap
  {
    hide Run, I.Run, I.Paced, Mirrors, I.Ceiling, Limit.TtlHarmless;
    var shared, ks := Embeds(sys, ls);
    var w := sys.config.limits(key).windowMs;
    SameSet(Above(ls), Run(sys, ls), I.Run(shared, ks), key);
    assert GrantedIn(Run(sys, ls), key, w, until, all)
        == InterleavingAnyWindow.GrantedIn(I.Run(shared, ks), key, w, until, all);
    InterleavingAnyWindow.AnyWindowBound(shared, ks, key, until, all);
  }
}
