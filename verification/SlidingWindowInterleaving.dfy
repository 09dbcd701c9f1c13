/** libs/ratelimit/src/redisRateLimit.ts with overlapping calls: every `await` of a check is one
    step, and between two steps the clock may move, other calls may run, and keys may be reset or
    evicted. A label that does not apply leaves the state as it is. */
module SlidingWindowInterleaving {
  import opened Redis
  import opened CircuitBreaker
  import opened RateLimitTypes
  import S = SlidingWindow
  import I = DistributedInterleaving
  import opened InterleavingRuns

  /** The command a call is waiting for. */
  datatype Phase = Prune | Count | Add | Expire | Recount

  /** A call in flight; `wiped` and `evicted` as in the shared limiter. */
  datatype Call = Call(key: string, now: nat, phase: Phase, wiped: bool, evicted: bool) {
    predicate Stored() { phase.Expire? || phase.Recount? }
  }

  datatype Label =
    | Tick(ms: nat)
    | Begin(call: nat, key: string)
    | Command(call: nat, reply: Reply)
    | Evict(key: string)
    | Delete(key: string, reply: Reply)

  /** `begun` and `granted` are history: the numbers of all calls that were let in, and the calls
      allowed since their key was last reset. */
  datatype State = State(clock: nat, store: Store, breaker: Breaker, calls: map<nat, Call>, begun: set<nat>,
                         granted: set<I.Granted>)

  datatype System = System(config: Config, cap: nat)

  function Start(): State { State(0, map[], Initial(), map[], {}, {}) }

  /** The random part of the id is the number of the call: what matters is that it never repeats. */
  function Id(call: nat, c: Call): RequestId { RequestId(c.now, Name(call)) }

  function InFlight(s: State, key: string): set<nat> { set c | c in s.calls && s.calls[c].key == key }

  /** Found the count low enough and has not stored its entry yet. */
  function Passed(s: State, key: string): set<nat> {
    set c | c in s.calls && s.calls[c].key == key && s.calls[c].phase.Add?
  }

  datatype Outcome = Continue(next: Phase) | Throw | Deny | Grant

  datatype Performed = Performed(zset: ZSet, outcome: Outcome)

  /** What the awaited command does to the set of the key, and where the call goes next. */
  function Perform(lim: Limit, ttlBuffer: int, clock: nat, id: RequestId, phase: Phase, z: ZSet,
                   reply: Reply): Performed
  {
    var after := (changed: ZSet) => if reply.TookEffect() then changed else z;
    var onOk := (next: Outcome) => if reply.Ok? then next else Throw;
    match phase
    case Prune => Performed(after(z.RemoveByScore(0, id.at - lim.windowMs)), onOk(Continue(Count)))
    case Count => Performed(z, onOk(if z.Card() >= lim.maxRequests then Deny else Continue(Add)))
    case Add => Performed(after(z.Add(id.at, id)), onOk(Continue(Expire)))
    case Expire => Performed(after(z.Expire(TtlSeconds(lim.windowMs, ttlBuffer), clock)), onOk(Continue(Recount)))
    case Recount => Performed(z, onOk(Grant))
  }

  function PerformIn(sys: System, s: State, id: nat, reply: Reply): Performed
    requires id in s.calls
  {
    var c := s.calls[id];
    Perform(sys.config.limits(c.key), sys.config.ttlBuffer, s.clock, Id(id, c), c.phase, Lookup(s.store, Plain(c.key)),
            reply)
  }

  /** The breaker of the code that runs when the command's reply arrives. */
  function BreakerAfter(p: Policy, b: Breaker, out: Outcome, clock: nat): Breaker {
    match out
    case Continue(_) => b
    case Grant => b.Succeed()
    case _ => b.RecordFailure(p, clock)
  }

  function OnReply(sys: System, s: State, id: nat, reply: Reply): State
    requires id in s.calls
  {
    var c, p := s.calls[id], PerformIn(sys, s, id, reply);
    s.(store := s.store[Plain(c.key) := p.zset],
       breaker := BreakerAfter(sys.config.policy, s.breaker, p.outcome, s.clock),
       calls := if p.outcome.Continue? then s.calls[id := c.(phase := p.outcome.next)] else s.calls - {id},
       granted := if p.outcome.Grant? && !c.wiped then s.granted + {I.Granted(id, c.key, Id(id, c), c.evicted)}
                  else s.granted)
  }

  function Swept(c: Call, reset: bool): Call {
    if !c.Stored() then c else if reset then c.(wiped := true) else c.(evicted := true)
  }

  function Sweep(calls: map<nat, Call>, key: string, reset: bool): map<nat, Call> {
    map c | c in calls :: if calls[c].key == key then Swept(calls[c], reset) else calls[c]
  }

  function Step(sys: System, s: State, l: Label): State {
    match l
    case Tick(ms) => s.(clock := s.clock + ms)
    case Begin(id, key) =>
      if id in s.begun || |InFlight(s, key)| >= sys.cap || s.breaker.Blocks(sys.config.policy, s.clock) then s
      else
        s.(breaker := s.breaker.Probe(), calls := s.calls[id := Call(key, s.clock, Prune, false, false)],
           begun := s.begun + {id})
    case Command(id, reply) => if id in s.calls then OnReply(sys, s, id, reply) else s
    case Evict(key) =>
      var z := Lookup(s.store, Plain(key));
      if z.Evict(s.clock) == z then s
      else s.(store := s.store[Plain(key) := Empty()], calls := Sweep(s.calls, key, false))
    case Delete(key, reply) =>
      if !reply.TookEffect() then s
      else s.(store := s.store[Plain(key) := Empty()], calls := Sweep(s.calls, key, true),
              granted := set x | x in s.granted && x.key != key)
  }

  function Run(sys: System, ls: seq<Label>): State {
    if ls == [] then Start() else Step(sys, Run(sys, ls[..|ls| - 1]), ls[|ls| - 1])
  }

  /** One call from start to end with nothing in between. */
  function Drive(sys: System, s: State, id: nat, replies: seq<Reply>): State
    decreases |replies|
  {
    if replies == [] then s else Drive(sys, Step(sys, s, Command(id, replies[0])), id, replies[1..])
  }

  /** The state when such a call has come to a phase, or has ended: `s0` but for the set, the breaker
      and the call. */
  ghost predicate Midway(s0: State, s: State, id: nat, c: Call, z: ZSet, b: Breaker) {
    && s.calls == s0.calls[id := c] && s.granted == s0.granted && Otherwise(s0, s, id, c.key, z, b)
  }

  ghost predicate Ended(s0: State, s: State, id: nat, c: Call, z: ZSet, b: Breaker, allowed: bool) {
    && s.calls == s0.calls && Otherwise(s0, s, id, c.key, z, b)
    && s.granted == if allowed then s0.granted + {I.Granted(id, c.key, Id(id, c), false)} else s0.granted
  }

  ghost predicate Otherwise(s0: State, s: State, id: nat, key: string, z: ZSet, b: Breaker) {
    && s.clock == s0.clock && s.breaker == b && s.begun == s0.begun + {id} && Lookup(s.store, Plain(key)) == z
    && forall k :: k != Plain(key) ==> Lookup(s.store, k) == Lookup(s0.store, k)
  }

  lemma OneCommand(sys: System, s0: State, s: State, id: nat, c: Call, z: ZSet, b: Breaker, reply: Reply)
    requires id !in s0.calls && Midway(s0, s, id, c, z, b) && !c.wiped && !c.evicted
    ensures var p := Perform(sys.config.limits(c.key), sys.config.ttlBuffer, s0.clock, Id(id, c), c.phase, z, reply);
            var s', b' := Step(sys, s, Command(id, reply)), BreakerAfter(sys.config.policy, b, p.outcome, s0.clock);
            if p.outcome.Continue? then Midway(s0, s', id, c.(phase := p.outcome.next), p.zset, b')
            else Ended(s0, s', id, c, p.zset, b', p.outcome.Grant?)
  {
    hide Perform, BreakerAfter, Id;
  }

  /** How the rest of a call ends: by the same computation on the set and the breaker. */
  datatype Rest = Rest(zset: ZSet, breaker: Breaker, allowed: bool)

  function Finish(sys: System, clock: nat, id: RequestId, key: string, phase: Phase, z: ZSet, b: Breaker,
                  replies: seq<Reply>): Rest
    decreases |replies|
  {
    if replies == [] then Rest(z, b, false)
    else
      var p := Perform(sys.config.limits(key), sys.config.ttlBuffer, clock, id, phase, z, replies[0]);
      var b' := BreakerAfter(sys.config.policy, b, p.outcome, clock);
      if p.outcome.Continue? then Finish(sys, clock, id, key, p.outcome.next, p.zset, b', replies[1..])
      else Rest(p.zset, b', p.outcome.Grant?)
  }

  function Left(phase: Phase): nat {
    match phase case Prune => 5 case Count => 4 case Add => 3 case Expire => 2 case Recount => 1
  }

  lemma {:induction false} DriveDone(sys: System, s: State, id: nat, replies: seq<Reply>)
    requires id !in s.calls
    ensures Drive(sys, s, id, replies) == s
    decreases |replies|
  {
    if replies != [] { DriveDone(sys, s, id, replies[1..]); }
  }

  lemma NextPhase(lim: Limit, ttlBuffer: int, clock: nat, id: RequestId, phase: Phase, z: ZSet, reply: Reply)
    ensures var out := Perform(lim, ttlBuffer, clock, id, phase, z, reply).outcome;
            if out.Continue? then Left(out.next) == Left(phase) - 1 else phase.Recount? || !out.Grant?
    ensures phase.Recount? ==> !Perform(lim, ttlBuffer, clock, id, phase, z, reply).outcome.Continue?
  {
    hide ZSet.RemoveByScore, ZSet.Add, ZSet.Expire, ZSet.Card, TtlSeconds;
  }

  lemma {:induction false} DriveFinishes(sys: System, s0: State, s: State, id: nat, c: Call, z: ZSet, b: Breaker,
                                         replies: seq<Reply>)
    requires id !in s0.calls && Midway(s0, s, id, c, z, b) && !c.wiped && !c.evicted && |replies| == Left(c.phase)
    ensures var r := Finish(sys, s0.clock, Id(id, c), c.key, c.phase, z, b, replies);
            Ended(s0, Drive(sys, s, id, replies), id, c, r.zset, r.breaker, r.allowed)
    decreases |replies|
  {
    hide Perform, Step, BreakerAfter, Otherwise;
    var p := Perform(sys.config.limits(c.key), sys.config.ttlBuffer, s0.clock, Id(id, c), c.phase, z, replies[0]);
    var s', b' := Step(sys, s, Command(id, replies[0])), BreakerAfter(sys.config.policy, b, p.outcome, s0.clock);
    OneCommand(sys, s0, s, id, c, z, b, replies[0]);
    NextPhase(sys.config.limits(c.key), sys.config.ttlBuffer, s0.clock, Id(id, c), c.phase, z, replies[0]);
    if p.outcome.Continue? {
      DriveFinishes(sys, s0, s', id, c.(phase := p.outcome.next), p.zset, b', replies[1..]);
    } else {
      DriveDone(sys, s', id, replies[1..]);
    }
  }

  function Replies(io: S.CheckIO): seq<Reply> { [io.prune, io.count, io.add, io.expire, io.recount] }

  lemma FinishOn(sys: System, clock: nat, id: RequestId, key: string, phase: Phase, z: ZSet, b: Breaker, r: Reply,
                 rest: seq<Reply>)
    ensures var p := Perform(sys.config.limits(key), sys.config.ttlBuffer, clock, id, phase, z, r);
            var b' := BreakerAfter(sys.config.policy, b, p.outcome, clock);
            Finish(sys, clock, id, key, phase, z, b, [r] + rest)
            == if p.outcome.Continue? then Finish(sys, clock, id, key, p.outcome.next, p.zset, b', rest)
               else Rest(p.zset, b', p.outcome.Grant?)
  {
    assert ([r] + rest)[1..] == rest;
  }

  lemma FinishIsCheck(sys: System, now: nat, nonce: string, key: string, z: ZSet, b: Breaker, io: S.CheckIO)
    requires !b.Blocks(sys.config.policy, now)
    ensures var r := Finish(sys, now, RequestId(now, nonce), key, Prune, z, b.Probe(), Replies(io));
            var e := S.CheckKey(sys.config.policy, sys.config.ttlBuffer, sys.config.limits(key), b, z, now, nonce, io);
            r == Rest(e.zset, e.breaker, e.result.allowed)
  {
    hide ZSet.RemoveByScore, ZSet.Add, ZSet.Expire, ZSet.Card, TtlSeconds, Finish, Breaker.RecordFailure;
    var lim, id, p := sys.config.limits(key), RequestId(now, nonce), b.Probe();
    var z1 := if io.prune.TookEffect() then z.RemoveByScore(0, now - lim.windowMs) else z;
    var z2 := if io.add.TookEffect() then z1.Add(now, id) else z1;
    var z3 := if io.expire.TookEffect() then z2.Expire(TtlSeconds(lim.windowMs, sys.config.ttlBuffer), now) else z2;
    var r3, r2, r1 := [io.expire, io.recount], [io.add, io.expire, io.recount],
                      [io.count, io.add, io.expire, io.recount];
    assert Replies(io) == [io.prune] + r1 && r1 == [io.count] + r2 && r2 == [io.add] + r3;
    assert r3 == [io.expire] + [io.recount] && [io.recount] == [io.recount] + [];
    FinishOn(sys, now, id, key, Prune, z, p, io.prune, r1);
    FinishOn(sys, now, id, key, Count, z1, p, io.count, r2);
    FinishOn(sys, now, id, key, Add, z1, p, io.add, r3);
    FinishOn(sys, now, id, key, Expire, z2, p, io.expire, [io.recount]);
    FinishOn(sys, now, id, key, Recount, z3, p, io.recount, []);
  }

  /** The atomic check is this model's call with nothing in between: same set, same breaker, same
      answer, and nothing else changed. */
  lemma UninterruptedCallIsAtomicCheck(sys: System, s: State, id: nat, key: string, io: S.CheckIO)
    requires id !in s.begun && id !in s.calls && |InFlight(s, key)| < sys.cap
    ensures var begun := Step(sys, s, Begin(id, key));
            var e := S.CheckKey(sys.config.policy, sys.config.ttlBuffer, sys.config.limits(key), s.breaker,
                                Lookup(s.store, Plain(key)), s.clock, Name(id), io);
            if s.breaker.Blocks(sys.config.policy, s.clock) then begun == s && !e.result.allowed
            else Ended(s, Drive(sys, begun, id, Replies(io)), id, Call(key, s.clock, Prune, false, false), e.zset,
                       e.breaker, e.result.allowed)
  {
    hide Finish, Drive, S.CheckKey, Ended, InFlight, Name;
    var z := Lookup(s.store, Plain(key));
    if s.breaker.Blocks(sys.config.policy, s.clock) {
      BlockedIsDenied(sys, s, id, key, io);
    } else {
      assert Midway(s, Step(sys, s, Begin(id, key)), id, Call(key, s.clock, Prune, false, false), z, s.breaker.Probe());
      hide Midway, Step;
      DriveFinishes(sys, s, Step(sys, s, Begin(id, key)), id, Call(key, s.clock, Prune, false, false), z,
                    s.breaker.Probe(), Replies(io));
      FinishIsCheck(sys, s.clock, Name(id), key, z, s.breaker, io);
    }
  }

  lemma BlockedIsDenied(sys: System, s: State, id: nat, key: string, io: S.CheckIO)
    requires s.breaker.Blocks(sys.config.policy, s.clock)
    ensures !S.CheckKey(sys.config.policy, sys.config.ttlBuffer, sys.config.limits(key), s.breaker,
                        Lookup(s.store, Plain(key)), s.clock, Name(id), io).result.allowed
  {
  }
}
