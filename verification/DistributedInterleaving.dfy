/** Several instances, several calls in flight: every `await` of
    libs/ratelimit/src/distributedRateLimit.ts is one step, and between any two steps the
    clock may move, other calls may run, keys may be reset or evicted and registries may
    grow. A label that does not apply leaves the state as it is, so every sequence of labels
    is a run. */
module DistributedInterleaving {
  import opened Redis
  import opened CircuitBreaker
  import opened RateLimitTypes
  import D = Distributed

  /** The command a call is waiting for. */
  datatype Phase =
    | PruneGlobal | CountGlobal | PruneLocal | CountLocal
    | AddGlobal | AddLocal | ExpireGlobal | ExpireLocal | Recount | Publish

  /** A call in flight. `wiped` and `evicted` remember that its entry was in the global set when a
      reset deleted the set or Redis dropped it. */
  datatype Call = Call(instance: string, key: string, now: nat, phase: Phase, wiped: bool, evicted: bool) {
    function Id(): RequestId { RequestId(now, instance) }

    /** Found the global count low enough and has not stored its entry yet. */
    predicate Passed() { phase.PruneLocal? || phase.CountLocal? || phase.AddGlobal? }

    /** Has stored its entry in the global set. */
    predicate Stored() { phase.AddLocal? || phase.ExpireGlobal? || phase.ExpireLocal? || phase.Recount? }

    /** Has also extended the life of the global set. */
    predicate Extended() { phase.ExpireLocal? || phase.Recount? }
  }

  datatype Label =
    | Tick(ms: nat)
    | Begin(call: nat, instance: string, key: string)
    | Command(call: nat, reply: Reply)
    | Evict(k: Key)
    | Sync(instance: string, peer: string)
    | DeleteLocal(instance: string, key: string, reply: Reply)
    | DeleteGlobal(key: string, reply: Reply)

  /** An allowed call, and whether its entry was gone before it was allowed. */
  datatype Granted = Granted(call: nat, key: string, id: RequestId, evicted: bool)

  datatype Request = Request(key: string, id: RequestId)

  /** `begun` and `granted` are history: every call that was let in, under its number, which is
      used once; and the calls allowed since the key was last reset, those aside whose entry a
      reset had deleted. */
  datatype State = State(clock: nat, store: Store, instances: map<string, D.Instance>, calls: map<nat, Call>,
                         begun: map<nat, Request>, granted: set<Granted>)

  datatype System = System(config: Config, cap: nat, registries: D.Registries)

  function Start(sys: System): State {
    State(0, map[], D.InitialState(sys.registries).instances, map[], map[], {})
  }

  function InFlight(calls: map<nat, Call>, key: string): set<nat> { set c | c in calls && calls[c].key == key }

  function PassedCalls(calls: map<nat, Call>, key: string): set<nat> {
    set c | c in calls && calls[c].key == key && calls[c].Passed()
  }

  datatype Outcome = Continue(next: Phase) | Throw | Deny | Grant | End

  datatype Performed = Performed(global: ZSet, local: ZSet, outcome: Outcome)

  function IfDone(reply: Reply, before: ZSet, after: ZSet): ZSet { if reply.TookEffect() then after else before }

  /** What the awaited command does to the two sets of the key, and where the call goes next. */
  function Perform(lim: Limit, ttlBuffer: int, peers: nat, clock: nat, c: Call, g: ZSet, d: ZSet,
                   reply: Reply): Performed {
    var ttl := TtlSeconds(lim.windowMs, ttlBuffer);
    var onOk := (next: Outcome) => if reply.Ok? then next else Throw;
    match c.phase
    case PruneGlobal => Performed(IfDone(reply, g, g.RemoveByScore(0, c.now - lim.windowMs)), d,
                                  onOk(Continue(CountGlobal)))
    case CountGlobal => Performed(g, d, onOk(if g.Card() >= lim.maxRequests then Deny else Continue(PruneLocal)))
    case PruneLocal => Performed(g, IfDone(reply, d, d.RemoveByScore(0, c.now - lim.windowMs)),
                                 onOk(Continue(CountLocal)))
    case CountLocal =>
      Performed(g, d, onOk(if peers == 0 || d.Card() >= D.Quota(lim.maxRequests, peers) then Deny
                           else Continue(AddGlobal)))
    case AddGlobal => Performed(IfDone(reply, g, g.Add(c.now, c.Id())), d, onOk(Continue(AddLocal)))
    case AddLocal => Performed(g, IfDone(reply, d, d.Add(c.now, c.Id())), onOk(Continue(ExpireGlobal)))
    case ExpireGlobal => Performed(IfDone(reply, g, g.Expire(ttl, clock)), d, onOk(Continue(ExpireLocal)))
    case ExpireLocal => Performed(g, IfDone(reply, d, d.Expire(ttl, clock)), onOk(Continue(Recount)))
    case Recount => Performed(g, d, onOk(Grant))
    case Publish => Performed(g, d, End)
  }

  function PerformIn(sys: System, s: State, c: Call, reply: Reply): Performed {
    Perform(sys.config.limits(c.key), sys.config.ttlBuffer, Peers(s, c.instance), s.clock, c,
            Lookup(s.store, Global(c.key)), Lookup(s.store, PerInstance(c.instance, c.key)), reply)
  }

  function Peers(s: State, i: string): nat { if i in s.instances then |s.instances[i].registry| else 0 }

  /** The breaker operation of the code that runs when the command's reply arrives. */
  function BreakerOps(out: Outcome, clock: nat): seq<Op> {
    if out.Throw? || out.Deny? then [Op.Fail(clock)] else if out == Continue(Recount) then [Op.Pass] else []
  }

  function OnReply(sys: System, s: State, id: nat, reply: Reply): State
    requires id in s.calls
  {
    var c := s.calls[id];
    var p := PerformIn(sys, s, c, reply);
    var s' := s.(store := s.store[Global(c.key) := p.global][PerInstance(c.instance, c.key) := p.local],
                 instances := Operate(sys.config.policy, s.instances, c.instance, BreakerOps(p.outcome, s.clock)));
    match p.outcome
    case Continue(next) => s'.(calls := s.calls[id := c.(phase := next)])
    case Deny => s'.(calls := s.calls[id := c.(phase := Publish)])
    case Grant =>
      s'.(calls := s.calls - {id},
          granted := if c.wiped then s.granted else s.granted + {Granted(id, c.key, c.Id(), c.evicted)})
    case _ => s'.(calls := s.calls - {id})
  }

  function Operate(p: Policy, instances: map<string, D.Instance>, i: string, ops: seq<Op>): map<string, D.Instance> {
    if ops == [] || i !in instances then instances
    else instances[i := instances[i].(breaker := ApplyOp(p, instances[i].breaker, ops[0]))]
  }

  /** What becomes of the calls in flight when the key's global set is reset or evicted. */
  function Sweep(calls: map<nat, Call>, key: string, reset: bool): map<nat, Call> {
    map c | c in calls :: if calls[c].key == key then Swept(calls[c], reset) else calls[c]
  }

  function Swept(c: Call, reset: bool): (r: Call)
    ensures r.key == c.key && r.Id() == c.Id()
  {
    if !c.Stored() then c else if reset then c.(wiped := true) else c.(evicted := true)
  }

  /** A call just begun. */
  function Begun(i: string, key: string, now: nat): Call { Call(i, key, now, PruneGlobal, false, false) }

  /** The number has been given to a call before. */
  predicate Taken(s: State, id: nat) { id in s.calls || id in s.begun }

  function Step(sys: System, s: State, l: Label): State {
    match l
    case Tick(ms) => s.(clock := s.clock + ms)
    case Begin(id, i, key) =>
      if Taken(s, id) || i !in s.instances || |InFlight(s.calls, key)| >= sys.cap then s
      else
        var admitted := s.(instances := Operate(sys.config.policy, s.instances, i, [Op.Admit(s.clock)]));
        if s.instances[i].breaker.Blocks(sys.config.policy, s.clock) then admitted
        else admitted.(calls := s.calls[id := Begun(i, key, s.clock)],
                       begun := s.begun[id := Request(key, RequestId(s.clock, i))])
    case Command(id, reply) => if id in s.calls then OnReply(sys, s, id, reply) else s
    case Evict(k) =>
      var z := Lookup(s.store, k);
      var s' := s.(store := s.store[k := z.Evict(s.clock)]);
      if k.Global? && z.Evict(s.clock) != z then s'.(calls := Sweep(s.calls, k.name, false)) else s'
    case Sync(i, peer) =>
      if i !in s.instances then s
      else s.(instances := s.instances[i := s.instances[i].(registry := s.instances[i].registry + {peer})])
    case DeleteLocal(i, key, reply) =>
      if reply.TookEffect() then s.(store := s.store[PerInstance(i, key) := Empty()]) else s
    case DeleteGlobal(key, reply) =>
      if !reply.TookEffect() then s
      else s.(store := s.store[Global(key) := Empty()], calls := Sweep(s.calls, key, true),
              granted := set x | x in s.granted && x.key != key)
  }

  function Run(sys: System, ls: seq<Label>): State {
    if ls == [] then Start(sys) else Step(sys, Run(sys, ls[..|ls| - 1]), ls[|ls| - 1])
  }

  /** The calls in the current window that were granted; without `all`, only those whose entry
      was still in the set then. */
  function LiveGranted(s: State, key: string, windowMs: int, all: bool): set<Granted> {
    set x | x in s.granted && x.key == key && x.id.at > s.clock - windowMs && (all || !x.evicted)
  }

  /** No instance began two calls on the key in one millisecond. */
  ghost predicate Paced(s: State, key: string) {
    forall a, b :: a in s.begun && b in s.begun && a != b && s.begun[a] == s.begun[b] ==> s.begun[a].key != key
  }

  /** maxRequests + C - 1, or nothing when no call can be admitted at all. */
  function Ceiling(lim: Limit, cap: nat): nat {
    if lim.maxRequests < 1 || cap < 1 then 0 else lim.maxRequests + cap - 1
  }
}
