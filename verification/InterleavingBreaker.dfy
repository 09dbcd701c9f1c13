/** The breaker under interleaving, and the atomic check as the special case of a call that
    nothing interrupts. */
module InterleavingBreaker {
  import opened Redis
  import opened CircuitBreaker
  import D = Distributed
  import opened DistributedInterleaving
  import opened InterleavingHistory

  /** The breaker operations that one step performs on one instance. */
  function StepOps(sys: System, s: State, l: Label, i: string): seq<Op> {
    match l
    case Begin(id, j, key) =>
      if j != i || Taken(s, id) || j !in s.instances || |InFlight(s.calls, key)| >= sys.cap then []
      else [Op.Admit(s.clock)]
    case Command(id, reply) =>
      if id !in s.calls || s.calls[id].instance != i then []
      else BreakerOps(PerformIn(sys, s, s.calls[id], reply).outcome, s.clock)
    case _ => []
  }

  /** All of them, in the order in which the calls of the instance reached them. */
  function Ops(sys: System, ls: seq<Label>, i: string): seq<Op> {
    if ls == [] then []
    else Ops(sys, ls[..|ls| - 1], i) + StepOps(sys, Run(sys, ls[..|ls| - 1]), ls[|ls| - 1], i)
  }

  lemma StepFollowsOps(sys: System, s: State, l: Label, i: string)
    requires i in s.instances
    ensures var ops, s' := StepOps(sys, s, l, i), Step(sys, s, l);
            && |ops| <= 1 && i in s'.instances
            && s'.instances[i].breaker == if ops == [] then s.instances[i].breaker
                                          else ApplyOp(sys.config.policy, s.instances[i].breaker, ops[0])
  {
    hide Perform, InFlight, ApplyOp, Sweep;
  }

  /** In every interleaving, each instance's breaker is the one its own operations produce, so
      closed means fewer failures than the threshold, open and half-open mean at least as
      many, and the counter is the number of failures recorded since it last closed. */
  lemma {:induction false} BreakerUnderInterleaving(sys: System, ls: seq<Label>, i: string)
    requires i in sys.registries
    ensures i in Run(sys, ls).instances
    ensures Run(sys, ls).instances[i].breaker == After(sys.config.policy, Ops(sys, ls, i))
    ensures var b := Run(sys, ls).instances[i].breaker;
            && b.failureCount == FailuresSinceClose(sys.config.policy, Ops(sys, ls, i))
            && (sys.config.policy.failureThreshold >= 1 ==> b.Consistent(sys.config.policy))
  {
    CountsFailuresSinceClose(sys.config.policy, Ops(sys, ls, i));
    if sys.config.policy.failureThreshold >= 1 { AfterConsistent(sys.config.policy, Ops(sys, ls, i)); }
    if ls != [] {
      var before, l := ls[..|ls| - 1], ls[|ls| - 1];
      BreakerUnderInterleaving(sys, before, i);
      StepFollowsOps(sys, Run(sys, before), l, i);
      var before', after' := Ops(sys, before, i), Ops(sys, ls, i);
      hide Step, StepOps, ApplyOp, FailuresSinceClose;
      if |after'| == |before'| { assert after' == before'; } else { assert after'[..|after'| - 1] == before'; }
    }
  }

  /** One call from start to end with nothing in between. */
  function Drive(sys: System, s: State, id: nat, replies: seq<Reply>): State
    decreases |replies|
  {
    if replies == [] then s else Drive(sys, Step(sys, s, Command(id, replies[0])), id, replies[1..])
  }

  /** The state in the middle of such a call: `s0` but for the two sets, the breaker, the call. */
  ghost predicate Midway(s0: State, s: State, id: nat, c: Call, g: ZSet, d: ZSet, b: Breaker) {
    && s.calls == s0.calls[id := c] && Otherwise(s0, s, c, g, d, b)
    && s.begun - {id} == s0.begun - {id} && s.granted == s0.granted
  }

  ghost predicate Otherwise(s0: State, s: State, c: Call, g: ZSet, d: ZSet, b: Breaker) {
    var gk, dk := Global(c.key), PerInstance(c.instance, c.key);
    && c.instance in s0.instances && s.clock == s0.clock
    && Lookup(s.store, gk) == g && Lookup(s.store, dk) == d
    && (forall k :: k != gk && k != dk ==> Lookup(s.store, k) == Lookup(s0.store, k))
    && s.instances == s0.instances[c.instance := s0.instances[c.instance].(breaker := b)]
  }

  /** And at its end: the call is gone, and it is remembered if it was allowed. */
  ghost predicate EndsAs(s0: State, s: State, id: nat, c: Call, g: ZSet, d: ZSet, b: Breaker, allowed: bool) {
    && s.calls == s0.calls - {id} && Otherwise(s0, s, c, g, d, b) && s.begun - {id} == s0.begun - {id}
    && s.granted == if allowed then s0.granted + {Granted(id, c.key, c.Id(), c.evicted)} else s0.granted
  }

  function BreakerAfter(p: Policy, b: Breaker, ops: seq<Op>): Breaker { if ops == [] then b else ApplyOp(p, b, ops[0]) }

  lemma OneCommand(sys: System, s0: State, s: State, id: nat, c: Call, g: ZSet, d: ZSet, b: Breaker, reply: Reply)
    requires id !in s0.calls && Midway(s0, s, id, c, g, d, b) && !c.wiped
    ensures var p := Perform(sys.config.limits(c.key), sys.config.ttlBuffer, |s0.instances[c.instance].registry|,
                             s0.clock, c, g, d, reply);
            var b' := BreakerAfter(sys.config.policy, b, BreakerOps(p.outcome, s0.clock));
            var s' := Step(sys, s, Command(id, reply));
            match p.outcome
            case Continue(next) => Midway(s0, s', id, c.(phase := next), p.global, p.local, b')
            case Deny => Midway(s0, s', id, c.(phase := Publish), p.global, p.local, b')
            case Grant => EndsAs(s0, s', id, c, p.global, p.local, b', true)
            case _ => EndsAs(s0, s', id, c, p.global, p.local, b', false)
  {
    hide Perform, PerformIn, BreakerOps, OnReply, Otherwise, BreakerAfter;
    CommandSets(sys, s0, s, id, c, g, d, b, reply);
    ReplyShape(sys, s, id, reply);
    SamePhases(s0, Step(sys, s, Command(id, reply)), c);
  }

  /** What one command does to the store and the breaker. */
  lemma CommandSets(sys: System, s0: State, s: State, id: nat, c: Call, g: ZSet, d: ZSet, b: Breaker, reply: Reply)
    requires id !in s0.calls && Midway(s0, s, id, c, g, d, b)
    ensures var p := Perform(sys.config.limits(c.key), sys.config.ttlBuffer, |s0.instances[c.instance].registry|,
                             s0.clock, c, g, d, reply);
            && PerformIn(sys, s, c, reply) == p
            && Otherwise(s0, OnReply(sys, s, id, reply), c, p.global, p.local,
                         BreakerAfter(sys.config.policy, b, BreakerOps(p.outcome, s0.clock)))
  {
    hide OnReply, Perform, ApplyOp, BreakerOps;
    ReplyShape(sys, s, id, reply);
    ReplyBreaker(sys, s, id, reply);
  }

  lemma ReplyBreaker(sys: System, s: State, id: nat, reply: Reply)
    requires id in s.calls
    ensures var c := s.calls[id];
            var ops := BreakerOps(PerformIn(sys, s, c, reply).outcome, s.clock);
            OnReply(sys, s, id, reply).instances == Operate(sys.config.policy, s.instances, c.instance, ops)
  {
    hide PerformIn, Operate, BreakerOps;
  }

  /** The phase of the call does not matter to what else there is. */
  lemma SamePhases(s0: State, s: State, c: Call)
    ensures forall phase, g, d, b :: Otherwise(s0, s, c, g, d, b) ==> Otherwise(s0, s, c.(phase := phase), g, d, b)
  {
  }

  lemma DriveOn(sys: System, s: State, id: nat, replies: seq<Reply>)
    requires replies != []
    ensures Drive(sys, s, id, replies) == Drive(sys, Step(sys, s, Command(id, replies[0])), id, replies[1..])
  {
  }

  lemma {:induction false} DriveDone(sys: System, s: State, id: nat, replies: seq<Reply>)
    requires id !in s.calls
    ensures Drive(sys, s, id, replies) == s
    decreases |replies|
  {
    if replies != [] { DriveDone(sys, s, id, replies[1..]); }
  }

  /** How the rest of a call ends when nothing interrupts it: by the same computation, phase by
      phase, on the two sets and the breaker. */
  datatype Rest = Rest(global: ZSet, local: ZSet, breaker: Breaker, allowed: bool)

  function Finish(sys: System, peers: nat, clock: nat, c: Call, g: ZSet, d: ZSet, b: Breaker, replies: seq<Reply>): Rest
    decreases |replies|
  {
    if replies == [] then Rest(g, d, b, false)
    else
      var p := Perform(sys.config.limits(c.key), sys.config.ttlBuffer, peers, clock, c, g, d, replies[0]);
      var b' := BreakerAfter(sys.config.policy, b, BreakerOps(p.outcome, clock));
      match p.outcome
      case Continue(next) => Finish(sys, peers, clock, c.(phase := next), p.global, p.local, b', replies[1..])
      case Deny => Rest(p.global, p.local, b', false)
      case Grant => Rest(p.global, p.local, b', true)
      case _ => Rest(p.global, p.local, b', false)
  }

  /** How many commands are left, the publication of a denial included. */
  function Left(phase: Phase): nat {
    match phase
    case PruneGlobal => 9 case CountGlobal => 8 case PruneLocal => 7 case CountLocal => 6
    case AddGlobal => 5 case AddLocal => 4 case ExpireGlobal => 3 case ExpireLocal => 2
    case Recount => 1 case Publish => 1
  }

  lemma {:induction false} DriveFinishes(sys: System, s0: State, s: State, id: nat, c: Call, g: ZSet, d: ZSet,
                                         b: Breaker, replies: seq<Reply>)
    requires id !in s0.calls && Midway(s0, s, id, c, g, d, b) && !c.wiped && !c.phase.Publish?
    requires |replies| == Left(c.phase)
    ensures var peers := |s0.instances[c.instance].registry|;
            var r := Finish(sys, peers, s0.clock, c, g, d, b, replies);
            EndsAs(s0, Drive(sys, s, id, replies + [Ok]), id, c, r.global, r.local, r.breaker, r.allowed)
    decreases |replies|
  {
    assert c.instance in s0.instances;
    hide Perform, Step, BreakerOps, BreakerAfter, Drive, Midway, EndsAs;
    var r, rest, all := replies[0], replies[1..], replies + [Ok];
    var p := Perform(sys.config.limits(c.key), sys.config.ttlBuffer, |s0.instances[c.instance].registry|, s0.clock, c,
                     g, d, r);
    var b' := BreakerAfter(sys.config.policy, b, BreakerOps(p.outcome, s0.clock));
    var s' := Step(sys, s, Command(id, r));
    OneCommand(sys, s0, s, id, c, g, d, b, r);
    DriveOn(sys, s, id, all);
    assert all[1..] == rest + [Ok];
    NextPhase(sys, |s0.instances[c.instance].registry|, s0.clock, c, g, d, r);
    if p.outcome.Continue? {
      DriveFinishes(sys, s0, s', id, c.(phase := p.outcome.next), p.global, p.local, b', rest);
      AnyPhase(s0, Drive(sys, s, id, all), id, c);
    } else if p.outcome.Deny? {
      DenialEnds(sys, s0, s', id, c, p.global, p.local, b', rest + [Ok]);
    } else {
      EndedIsGone(s0, s', id, c);
      DriveDone(sys, s', id, rest + [Ok]);
    }
  }

  /** The phase of a call does not matter once it has ended. */
  lemma AnyPhase(s0: State, s: State, id: nat, c: Call)
    ensures forall phase, g, d, b, allowed ::
              EndsAs(s0, s, id, c.(phase := phase), g, d, b, allowed) ==> EndsAs(s0, s, id, c, g, d, b, allowed)
  {
  }

  lemma EndedIsGone(s0: State, s: State, id: nat, c: Call)
    ensures forall g, d, b, allowed :: EndsAs(s0, s, id, c, g, d, b, allowed) ==> id !in s.calls
  {
  }

  /** A denied call publishes, whatever the reply, and is over. */
  lemma DenialEnds(sys: System, s0: State, s: State, id: nat, c: Call, g: ZSet, d: ZSet, b: Breaker,
                   replies: seq<Reply>)
    requires id !in s0.calls && Midway(s0, s, id, c.(phase := Publish), g, d, b) && !c.wiped && replies != []
    ensures EndsAs(s0, Drive(sys, s, id, replies), id, c, g, d, b, false)
  {
    assert c.instance in s0.instances;
    hide Perform, Step, Drive, Midway, EndsAs;
    var c' := c.(phase := Publish);
    DriveOn(sys, s, id, replies);
    OneCommand(sys, s0, s, id, c', g, d, b, replies[0]);
    PublishEnds(sys, |s0.instances[c.instance].registry|, s0.clock, c', g, d, replies[0]);
    EndedIsGone(s0, Step(sys, s, Command(id, replies[0])), id, c');
    DriveDone(sys, Step(sys, s, Command(id, replies[0])), id, replies[1..]);
    AnyPhase(s0, Drive(sys, s, id, replies), id, c);
  }

  lemma NextPhase(sys: System, peers: nat, clock: nat, c: Call, g: ZSet, d: ZSet, r: Reply)
    requires !c.phase.Publish?
    ensures var out := Perform(sys.config.limits(c.key), sys.config.ttlBuffer, peers, clock, c, g, d, r).outcome;
            out.Continue? ==> !out.next.Publish? && Left(out.next) == Left(c.phase) - 1 && Left(c.phase) > 1
  {
    hide ZSet.RemoveByScore, ZSet.Add, ZSet.Expire, ZSet.Card, TtlSeconds, D.Quota;
  }

  lemma PublishEnds(sys: System, peers: nat, clock: nat, c: Call, g: ZSet, d: ZSet, r: Reply)
    requires c.phase.Publish?
    ensures Perform(sys.config.limits(c.key), sys.config.ttlBuffer, peers, clock, c, g, d, r) == Performed(g, d, End)
    ensures BreakerOps(End, clock) == []
  {
  }

  function CountReplies(io: D.CheckIO): seq<Reply> { [io.pruneGlobal, io.countGlobal, io.pruneLocal, io.countLocal] }

  function RecordReplies(io: D.CheckIO): seq<Reply> {
    [io.addGlobal, io.addLocal, io.expireGlobal, io.expireLocal, io.recount]
  }

  lemma FinishOn(sys: System, peers: nat, clock: nat, c: Call, g: ZSet, d: ZSet, b: Breaker, r: Reply, rest: seq<Reply>)
    ensures var p := Perform(sys.config.limits(c.key), sys.config.ttlBuffer, peers, clock, c, g, d, r);
            var b' := BreakerAfter(sys.config.policy, b, BreakerOps(p.outcome, clock));
            Finish(sys, peers, clock, c, g, d, b, [r] + rest) ==
              if p.outcome.Continue?
              then Finish(sys, peers, clock, c.(phase := p.outcome.next), p.global, p.local, b', rest)
              else Rest(p.global, p.local, b', p.outcome.Grant?)
  {
    assert ([r] + rest)[1..] == rest;
  }

  lemma FinishRecords(sys: System, peers: nat, c: Call, g: ZSet, d: ZSet, b: Breaker, io: D.CheckIO)
    requires c.phase == AddGlobal && b.Probe() == b
    ensures var r := Finish(sys, peers, c.now, c, g, d, b, RecordReplies(io));
            var e := D.Record(sys.config.policy, sys.config.ttlBuffer, sys.config.limits(c.key), c.Id(), b, g, d, io);
            r == Rest(e.global, e.local, e.breaker, e.result.allowed)
  {
    hide ZSet.RemoveByScore, ZSet.Add, ZSet.Expire, ZSet.Card, TtlSeconds;
    hide D.Quota, Finish, Breaker.RecordFailure, Breaker.Succeed;
    var ttl := TtlSeconds(sys.config.limits(c.key).windowMs, sys.config.ttlBuffer);
    var g1, d1 := IfDone(io.addGlobal, g, g.Add(c.now, c.Id())), IfDone(io.addLocal, d, d.Add(c.now, c.Id()));
    var g2, d2 := IfDone(io.expireGlobal, g1, g1.Expire(ttl, c.now)), IfDone(io.expireLocal, d1, d1.Expire(ttl, c.now));
    var r1, r2, r3, r4 := [io.addLocal, io.expireGlobal, io.expireLocal, io.recount],
                          [io.expireGlobal, io.expireLocal, io.recount], [io.expireLocal, io.recount], [io.recount];
    assert RecordReplies(io) == [io.addGlobal] + r1 && r1 == [io.addLocal] + r2;
    assert r2 == [io.expireGlobal] + r3 && r3 == [io.expireLocal] + r4;
    FinishOn(sys, peers, c.now, c, g, d, b, io.addGlobal, r1);
    FinishOn(sys, peers, c.now, c.(phase := AddLocal), g1, d, b, io.addLocal, r2);
    FinishOn(sys, peers, c.now, c.(phase := ExpireGlobal), g1, d1, b, io.expireGlobal, r3);
    FinishOn(sys, peers, c.now, c.(phase := ExpireLocal), g2, d1, b, io.expireLocal, r4);
    FinishOn(sys, peers, c.now, c.(phase := Recount), g2, d2, b.Succeed(), io.recount, []);
    assert [io.recount] + [] == r4;
  }

  lemma FinishIsCheck(sys: System, peers: nat, c: Call, g: ZSet, d: ZSet, b: Breaker, io: D.CheckIO)
    requires c.phase == PruneGlobal && peers >= 1 && !b.Blocks(sys.config.policy, c.now)
    ensures var r := Finish(sys, peers, c.now, c, g, d, b.Probe(), CountReplies(io) + RecordReplies(io));
            var e := D.CheckKey(sys.config.policy, sys.config.ttlBuffer, sys.config.limits(c.key), peers, c.instance, b,
                                g, d, c.now, io);
            r == Rest(e.global, e.local, e.breaker, e.result.allowed)
  {
    hide ZSet.RemoveByScore, ZSet.Add, ZSet.Expire, ZSet.Card, TtlSeconds, D.Quota;
    hide Finish, Breaker.RecordFailure, Breaker.Succeed, D.Record;
    var lim, p := sys.config.limits(c.key), b.Probe();
    var g1 := IfDone(io.pruneGlobal, g, g.RemoveByScore(0, c.now - lim.windowMs));
    var d1 := IfDone(io.pruneLocal, d, d.RemoveByScore(0, c.now - lim.windowMs));
    var r4 := RecordReplies(io);
    var r3 := [io.countLocal] + r4;
    var r2 := [io.pruneLocal] + r3;
    var r1 := [io.countGlobal] + r2;
    assert CountReplies(io) + r4 == [io.pruneGlobal] + r1;
    FinishOn(sys, peers, c.now, c, g, d, p, io.pruneGlobal, r1);
    FinishOn(sys, peers, c.now, c.(phase := CountGlobal), g1, d, p, io.countGlobal, r2);
    FinishOn(sys, peers, c.now, c.(phase := PruneLocal), g1, d, p, io.pruneLocal, r3);
    FinishOn(sys, peers, c.now, c.(phase := CountLocal), g1, d1, p, io.countLocal, r4);
    FinishRecords(sys, peers, c.(phase := AddGlobal), g1, d1, p, io);
    D.RecordProbes(sys.config.policy, sys.config.ttlBuffer, lim, c.Id(), b, g1, d1, io);
  }

  /** The atomic check is the interleaving model's call with nothing in between: same sets,
      same breaker, same answer, and nothing else changed. */
  lemma UninterruptedCallIsAtomicCheck(sys: System, s: State, id: nat, i: string, key: string, io: D.CheckIO)
    requires !Taken(s, id) && i in s.instances && |s.instances[i].registry| >= 1 && |InFlight(s.calls, key)| < sys.cap
    ensures var inst := s.instances[i];
            var begun := Step(sys, s, Begin(id, i, key));
            var e := D.CheckKey(sys.config.policy, sys.config.ttlBuffer, sys.config.limits(key), |inst.registry|, i,
                                inst.breaker,
                                Lookup(s.store, Global(key)), Lookup(s.store, PerInstance(i, key)), s.clock, io);
            if inst.breaker.Blocks(sys.config.policy, s.clock) then begun == s && !e.result.allowed
            else EndsAs(s, Drive(sys, begun, id, CountReplies(io) + RecordReplies(io) + [Ok]), id,
                        Begun(i, key, s.clock),
                        e.global, e.local, e.breaker, e.result.allowed)
  {
    var inst, begun, c := s.instances[i], Step(sys, s, Begin(id, i, key)), Begun(i, key, s.clock);
    var g, d := Lookup(s.store, Global(key)), Lookup(s.store, PerInstance(i, key));
    if inst.breaker.Blocks(sys.config.policy, s.clock) {
      assert begun.instances == s.instances;
    } else {
      assert Midway(s, begun, id, c, g, d, inst.breaker.Probe());
      hide Finish, Drive, D.CheckKey, Midway, EndsAs, Step;
      DriveFinishes(sys, s, begun, id, c, g, d, inst.breaker.Probe(), CountReplies(io) + RecordReplies(io));
      FinishIsCheck(sys, |inst.registry|, c, g, d, inst.breaker, io);
    }
  }
}
