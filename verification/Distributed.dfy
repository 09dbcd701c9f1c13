/** libs/ratelimit/src/distributedRateLimit.ts: a sliding window shared by several instances,
    one global set per key plus one set per instance and key, each instance with its own
    breaker and its own registry of peers. Here every check is one atomic call; see
    DistributedInterleaving for calls that overlap. */
module Distributed {
  import opened Redis
  import opened CircuitBreaker
  import opened WindowLog
  import opened RateLimitTypes

  /** How each awaited command of a check turns out. Publishing the denial never throws. */
  datatype CheckIO = CheckIO(pruneGlobal: Reply, countGlobal: Reply, pruneLocal: Reply, countLocal: Reply,
                             addGlobal: Reply,
                             addLocal: Reply, expireGlobal: Reply, expireLocal: Reply, recount: Reply) {
    predicate FaultFree() { this == AllOk() }
  }

  function AllOk(): CheckIO { CheckIO(Ok, Ok, Ok, Ok, Ok, Ok, Ok, Ok, Ok) }

  datatype Checked = Checked(breaker: Breaker, global: ZSet, local: ZSet, result: RateLimitResult)

  /** `Math.ceil(maxRequests / instanceRegistry.size)` */
  function Quota(maxRequests: int, peers: nat): int
    requires peers >= 1
  {
    CeilDiv(maxRequests, peers)
  }

  /** What a check by instance `self` does to its breaker, to the global set and to its own
      set of the key, and what it answers. */
  function CheckKey(p: Policy, ttlBuffer: int, lim: Limit, peers: nat, self: string, b: Breaker, global: ZSet,
                    local: ZSet, now: nat, io: CheckIO): Checked
    requires peers >= 1
  {
    if b.Blocks(p, now) then Checked(b, global, local, Blocked(lim, now))
    else
      var failed := b.Probe().RecordFailure(p, now);
      var g := if io.pruneGlobal.TookEffect() then global.RemoveByScore(0, now - lim.windowMs) else global;
      if io.pruneGlobal.Threw() || io.countGlobal.Threw() || g.Card() >= lim.maxRequests then
        Checked(failed, g, local, Blocked(lim, now))
      else
        var d := if io.pruneLocal.TookEffect() then local.RemoveByScore(0, now - lim.windowMs) else local;
        if io.pruneLocal.Threw() || io.countLocal.Threw() || d.Card() >= Quota(lim.maxRequests, peers) then
          Checked(failed, g, d, Blocked(lim, now))
        else
          Record(p, ttlBuffer, lim, RequestId(now, self), b, g, d, io)
  }

  /** The part of a check after both counts were found low enough. */
  function Record(p: Policy, ttlBuffer: int, lim: Limit, id: RequestId, b: Breaker, g: ZSet, d: ZSet,
                  io: CheckIO): Checked {
    var failed := b.Probe().RecordFailure(p, id.at);
    var ttl := TtlSeconds(lim.windowMs, ttlBuffer);
    var g1 := if io.addGlobal.TookEffect() then g.Add(id.at, id) else g;
    if io.addGlobal.Threw() then Checked(failed, g1, d, Blocked(lim, id.at))
    else
      var d1 := if io.addLocal.TookEffect() then d.Add(id.at, id) else d;
      if io.addLocal.Threw() then Checked(failed, g1, d1, Blocked(lim, id.at))
      else
        var g2 := if io.expireGlobal.TookEffect() then g1.Expire(ttl, id.at) else g1;
        if io.expireGlobal.Threw() then Checked(failed, g2, d1, Blocked(lim, id.at))
        else
          var d2 := if io.expireLocal.TookEffect() then d1.Expire(ttl, id.at) else d1;
          if io.expireLocal.Threw() then Checked(failed, g2, d2, Blocked(lim, id.at))
          else
            var closed := b.Probe().Succeed();
            if io.recount.Threw() then Checked(closed.RecordFailure(p, id.at), g2, d2, Blocked(lim, id.at))
            else Checked(closed, g2, d2, Allowed(lim, id.at, g2.Card()))
  }

  lemma RecordProbes(p: Policy, ttlBuffer: int, lim: Limit, id: RequestId, b: Breaker, g: ZSet, d: ZSet, io: CheckIO)
    ensures Record(p, ttlBuffer, lim, id, b.Probe(), g, d, io) == Record(p, ttlBuffer, lim, id, b, g, d, io)
  {
  }

  class DistributedRateLimit {
    const policy: Policy
    const instanceId: string
    const ttlBuffer: int
    const redis: Client
    var instanceRegistry: set<string>
    var circuitBreakerState: Mode
    var failureCount: nat
    var lastFailureTime: nat

    ghost predicate Valid()
      reads this
    {
      instanceId in instanceRegistry
    }

    constructor (policy: Policy, instanceId: string, ttlBuffer: int, redis: Client)
      ensures this.policy == policy && this.instanceId == instanceId
      ensures this.ttlBuffer == ttlBuffer && this.redis == redis
      ensures Valid() && View() == Initial() && instanceRegistry == {instanceId}
    {
      this.policy, this.instanceId, this.ttlBuffer, this.redis := policy, instanceId, ttlBuffer, redis;
      circuitBreakerState, failureCount, lastFailureTime := Closed, 0, 0;
      instanceRegistry := {instanceId};
    }

    function View(): Breaker
      reads this
    {
      Breaker(circuitBreakerState, failureCount, lastFailureTime)
    }

    method CheckRateLimit(key: string, maxRequests: int, windowMs: int, now: nat, io: CheckIO)
      returns (result: RateLimitResult)
      requires Valid()
      modifies this, redis
      ensures Valid() && instanceRegistry == old(instanceRegistry)
      ensures var g, d := Global(key), PerInstance(instanceId, key);
              var c := CheckKey(policy, ttlBuffer, Limit(maxRequests, windowMs), |instanceRegistry|, instanceId,
                                old(View()), Lookup(old(redis.keys), g), Lookup(old(redis.keys), d), now, io);
              && View() == c.breaker && result == c.result
              && Lookup(redis.keys, g) == c.global && Lookup(redis.keys, d) == c.local
              && forall k :: k != g && k != d ==> Lookup(redis.keys, k) == Lookup(old(redis.keys), k)
    {
      hide ZSet.RemoveByScore, ZSet.Add, ZSet.Expire, ZSet.Card, TtlSeconds, Blocked, Allowed, Quota;
      hide Breaker.RecordFailure, Record;
      var lim := Limit(maxRequests, windowMs);
      var distributedKey, globalKey := PerInstance(instanceId, key), Global(key);
      ghost var expected := CheckKey(policy, ttlBuffer, lim, |instanceRegistry|, instanceId, View(),
                                     Lookup(redis.keys, globalKey), Lookup(redis.keys, distributedKey), now, io);
      if circuitBreakerState.Open? {
        if now - lastFailureTime < policy.recoveryTimeout {
          return Blocked(lim, now);
        }
        circuitBreakerState := HalfOpen;
      }
      label attempt: {
        var windowStart := now - windowMs;
        var threw := redis.ZRemRangeByScore(globalKey, 0, windowStart, io.pruneGlobal);
        if threw { break attempt; }
        var globalCount: nat;
        threw, globalCount := redis.ZCard(globalKey, io.countGlobal);
        if threw { break attempt; }
        if globalCount >= maxRequests {
          RecordFailure(now);
          return Blocked(lim, now);
        }
        threw := redis.ZRemRangeByScore(distributedKey, 0, windowStart, io.pruneLocal);
        if threw { break attempt; }
        var instanceCount: nat;
        threw, instanceCount := redis.ZCard(distributedKey, io.countLocal);
        if threw { break attempt; }
        if instanceCount >= Quota(maxRequests, |instanceRegistry|) {
          RecordFailure(now);
          return Blocked(lim, now);
        }
        RecordProbes(policy, ttlBuffer, lim, RequestId(now, instanceId), old(View()), Lookup(redis.keys, globalKey),
                     Lookup(redis.keys, distributedKey), io);
        var newGlobalCount: nat;
        threw, newGlobalCount := RecordRequest(globalKey, distributedKey, lim, now, io);
        if threw { break attempt; }
        return Allowed(lim, now, newGlobalCount);
      }
      assert expected == Checked(View().RecordFailure(policy, now), Lookup(redis.keys, globalKey),
                                 Lookup(redis.keys, distributedKey), Blocked(lim, now));
      RecordFailure(now);
      return Blocked(lim, now);
    }

    /** The second half of the try block, after both counts were found low enough. */
    method RecordRequest(globalKey: Key, distributedKey: Key, lim: Limit, now: nat, io: CheckIO)
      returns (threw: bool, newGlobalCount: nat)
      requires globalKey != distributedKey && !circuitBreakerState.Open?
      modifies this, redis
      ensures instanceRegistry == old(instanceRegistry)
      ensures var c := Record(policy, ttlBuffer, lim, RequestId(now, instanceId), old(View()),
                              Lookup(old(redis.keys), globalKey), Lookup(old(redis.keys), distributedKey), io);
              && c.breaker == (if threw then View().RecordFailure(policy, now) else View())
              && c.result == (if threw then Blocked(lim, now) else Allowed(lim, now, newGlobalCount))
              && Lookup(redis.keys, globalKey) == c.global && Lookup(redis.keys, distributedKey) == c.local
      ensures forall k :: k != globalKey && k != distributedKey ==> Lookup(redis.keys, k) == Lookup(old(redis.keys), k)
    {
      hide ZSet.RemoveByScore, ZSet.Add, ZSet.Expire, ZSet.Card, TtlSeconds, Blocked, Allowed, Breaker.RecordFailure;
      newGlobalCount := 0;
      ghost var expected := Record(policy, ttlBuffer, lim, RequestId(now, instanceId), View(),
                                   Lookup(redis.keys, globalKey), Lookup(redis.keys, distributedKey), io);
      label attempt: {
        var requestId := RequestId(now, instanceId);
        threw := redis.ZAdd(globalKey, now, requestId, io.addGlobal);
        if threw { break attempt; }
        threw := redis.ZAdd(distributedKey, now, requestId, io.addLocal);
        if threw { break attempt; }
        var ttl := TtlSeconds(lim.windowMs, ttlBuffer);
        threw := redis.Expire(globalKey, ttl, now, io.expireGlobal);
        if threw { break attempt; }
        threw := redis.Expire(distributedKey, ttl, now, io.expireLocal);
        if threw { break attempt; }
        if circuitBreakerState.HalfOpen? {
          circuitBreakerState := Closed;
          failureCount := 0;
        }
        threw, newGlobalCount := redis.ZCard(globalKey, io.recount);
      }
      assert expected == Checked(if threw then View().RecordFailure(policy, now) else View(),
                                 Lookup(redis.keys, globalKey), Lookup(redis.keys, distributedKey),
                                 if threw then Blocked(lim, now) else Allowed(lim, now, newGlobalCount));
    }

    method RecordFailure(now: nat)
      modifies `circuitBreakerState, `failureCount, `lastFailureTime
      ensures View() == old(View()).RecordFailure(policy, now)
    {
      failureCount := failureCount + 1;
      lastFailureTime := now;
      if failureCount >= policy.failureThreshold {
        circuitBreakerState := Open;
      }
    }

    /** Deletes the caller's own set and the global set; the peers' sets stay. */
    method Reset(key: string, local: Reply, global: Reply) returns (threw: bool)
      modifies redis
      ensures threw == (local.Threw() || global.Threw())
      ensures redis.keys == AfterReset(old(redis.keys), instanceId, key, local, global)
      ensures Lookup(redis.keys, PerInstance(instanceId, key))
           == if local.TookEffect() then Empty() else Lookup(old(redis.keys), PerInstance(instanceId, key))
      ensures Lookup(redis.keys, Global(key))
           == if local.Ok? && global.TookEffect() then Empty() else Lookup(old(redis.keys), Global(key))
      ensures forall k :: k != PerInstance(instanceId, key) && k != Global(key) ==>
                Lookup(redis.keys, k) == Lookup(old(redis.keys), k)
    {
      threw := redis.Del(PerInstance(instanceId, key), local);
      if !threw { threw := redis.Del(Global(key), global); }
    }

    /** The `message` handler: own messages are ignored and only the sync channel grows the
        registry. */
    method HandleMessage(channel: string, fromInstance: string)
      requires Valid()
      modifies `instanceRegistry
      ensures Valid()
      ensures instanceRegistry == if channel == "rate_limit:sync" && fromInstance != instanceId
                                  then old(instanceRegistry) + {fromInstance} else old(instanceRegistry)
    {
      if fromInstance == instanceId { return; }
      if channel == "rate_limit:sync" { instanceRegistry := instanceRegistry + {fromInstance}; }
    }
  }

  function AfterReset(st: Store, self: string, key: string, local: Reply, global: Reply): Store {
    var st1 := if local.TookEffect() then st[PerInstance(self, key) := Empty()] else st;
    if local.Threw() || !global.TookEffect() then st1 else st1[Global(key) := Empty()]
  }

  /** Runs of atomic operations by the instances of `start`, which gives the registry each
      instance begins with. */
  datatype Event =
    | Check(instance: string, key: string, now: nat, io: CheckIO)
    | Reset(instance: string, key: string, now: nat, local: Reply, global: Reply)
    | Sync(instance: string, peer: string, now: nat)
    | Evict(evicted: Key, now: nat)

  datatype Instance = Instance(breaker: Breaker, registry: set<string>)

  datatype State = State(store: Store, instances: map<string, Instance>)

  type Registries = map<string, set<string>>

  function InitialState(start: Registries): State {
    State(map[], map i | i in start :: Instance(Initial(), start[i] + {i}))
  }

  /** A check event meets an instance that exists, with a registry of at least one peer. */
  predicate Runs(s: State, e: Event) {
    e.Check? && e.instance in s.instances && |s.instances[e.instance].registry| >= 1
  }

  function CheckIn(cfg: Config, s: State, e: Event): Checked
    requires Runs(s, e)
  {
    var i := s.instances[e.instance];
    CheckKey(cfg.policy, cfg.ttlBuffer, cfg.limits(e.key), |i.registry|, e.instance, i.breaker,
             Lookup(s.store, Global(e.key)), Lookup(s.store, PerInstance(e.instance, e.key)), e.now, e.io)
  }

  function Apply(cfg: Config, s: State, e: Event): State {
    match e
    case Check(self, key, _, _) =>
      if !Runs(s, e) then s
      else
        var c := CheckIn(cfg, s, e);
        State(s.store[Global(key) := c.global][PerInstance(self, key) := c.local],
              s.instances[self := s.instances[self].(breaker := c.breaker)])
    case Reset(self, key, _, local, global) => s.(store := AfterReset(s.store, self, key, local, global))
    case Sync(self, peer, _) =>
      if self !in s.instances then s
      else s.(instances := s.instances[self := s.instances[self].(registry := s.instances[self].registry + {peer})])
    case Evict(k, now) => s.(store := s.store[k := Lookup(s.store, k).Evict(now)])
  }

  function Run(cfg: Config, start: Registries, es: seq<Event>): State {
    if es == [] then InitialState(start) else Apply(cfg, Run(cfg, start, es[..|es| - 1]), es[|es| - 1])
  }

  predicate Admits(cfg: Config, s: State, e: Event) { Runs(s, e) && CheckIn(cfg, s, e).result.allowed }

  function NextLog(cfg: Config, s: State, e: Event, key: string, log: seq<RequestId>): seq<RequestId> {
    match e
    case Check(self, k, now, _) => if k == key && Admits(cfg, s, e) then log + [RequestId(now, self)] else log
    case Reset(_, k, _, local, global) => if k == key && local.Ok? && global.TookEffect() then [] else log
    case _ => log
  }

  function NextOwn(cfg: Config, s: State, e: Event, key: string, i: string, own: seq<RequestId>): seq<RequestId> {
    match e
    case Check(self, k, now, _) => if k == key && self == i && Admits(cfg, s, e) then own + [RequestId(now, i)] else own
    case Reset(self, k, _, local, _) => if k == key && self == i && local.TookEffect() then [] else own
    case _ => own
  }

  /** The calls allowed on a key, by any instance, since a reset last deleted the global set. */
  function AllowedLog(cfg: Config, start: Registries, es: seq<Event>, key: string): seq<RequestId> {
    if es == [] then []
    else
      var before := es[..|es| - 1];
      NextLog(cfg, Run(cfg, start, before), es[|es| - 1], key, AllowedLog(cfg, start, before, key))
  }

  /** The calls of one instance allowed on a key, since it last deleted its own set; resets by
      its peers leave that set alone. */
  function OwnLog(cfg: Config, start: Registries, es: seq<Event>, key: string, i: string): seq<RequestId> {
    if es == [] then []
    else
      var before := es[..|es| - 1];
      NextOwn(cfg, Run(cfg, start, before), es[|es| - 1], key, i, OwnLog(cfg, start, before, key, i))
  }

  function Clock(es: seq<Event>): nat { if es == [] then 0 else es[|es| - 1].now }

  ghost predicate Timed(es: seq<Event>) {
    forall i, j :: 0 <= i < j < |es| ==> es[i].now <= es[j].now
  }

  /** A check some command of which throws. */
  predicate Faulty(e: Event) { e.Check? && !e.io.FaultFree() }

  /** Neither a faulty check nor a reset. */
  ghost predicate Undisturbed(es: seq<Event>) { forall e :: e in es ==> !Faulty(e) && !e.Reset? }

  /** Between resets, no instance has been allowed twice on the key in one millisecond. */
  ghost predicate NoCollision(cfg: Config, start: Registries, es: seq<Event>, key: string) {
    && NoDuplicates(AllowedLog(cfg, start, es, key))
    && (forall i :: i in start ==> NoDuplicates(OwnLog(cfg, start, es, key, i)))
    && (es == [] || NoCollision(cfg, start, es[..|es| - 1], key))
  }

  /** No reset of the key deletes the caller's set and then leaves the global one. */
  ghost predicate NoHalfResets(es: seq<Event>, key: string) {
    forall e :: e in es && e.Reset? && e.key == key && e.local.TookEffect() ==> e.local.Ok? && e.global.TookEffect()
  }
}
