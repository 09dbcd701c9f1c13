/** libs/ratelimit/src/redisRateLimit.ts: the single-key sliding-window log with a key TTL
    and a circuit breaker. A check is one atomic call at one instant; faults can strike at
    every Redis command, and between calls Redis may evict a key whose deadline is reached. */
module SlidingWindow {
  import opened Redis
  import opened CircuitBreaker
  import opened WindowLog
  import opened RateLimitTypes
  import opened LogCover

  /** How each of the five awaited commands of a check turns out. */
  datatype CheckIO = CheckIO(prune: Reply, count: Reply, add: Reply, expire: Reply, recount: Reply) {
    predicate FaultFree() { prune.Ok? && count.Ok? && add.Ok? && expire.Ok? && recount.Ok? }
  }

  datatype Checked = Checked(breaker: Breaker, zset: ZSet, result: RateLimitResult)

  /** What a check does to the breaker and to the key's sorted set, and what it answers. */
  function CheckKey(p: Policy, ttlBuffer: int, lim: Limit, b: Breaker, z: ZSet, now: nat, nonce: string,
                    io: CheckIO): Checked
  {
    if b.Blocks(p, now) then Checked(b, z, Blocked(lim, now))
    else
      var failed := b.Probe().RecordFailure(p, now);
      var pruned := if io.prune.TookEffect() then z.RemoveByScore(0, now - lim.windowMs) else z;
      if io.prune.Threw() || io.count.Threw() || pruned.Card() >= lim.maxRequests then
        Checked(failed, pruned, Blocked(lim, now))
      else
        var added := if io.add.TookEffect() then pruned.Add(now, RequestId(now, nonce)) else pruned;
        if io.add.Threw() then Checked(failed, added, Blocked(lim, now))
        else
          var kept := if io.expire.TookEffect() then added.Expire(TtlSeconds(lim.windowMs, ttlBuffer), now) else added;
          if io.expire.Threw() || io.recount.Threw() then Checked(failed, kept, Blocked(lim, now))
          else Checked(b.Probe().Succeed(), kept, Allowed(lim, now, kept.Card()))
  }

  class OptimizedRedisRateLimit {
    const policy: Policy
    const keyPrefix: string
    const ttlBuffer: int
    const redis: Client
    var circuitBreakerState: Mode
    var failureCount: nat
    var lastFailureTime: nat

    constructor (policy: Policy, keyPrefix: string, ttlBuffer: int, redis: Client)
      ensures this.policy == policy && this.keyPrefix == keyPrefix && this.ttlBuffer == ttlBuffer && this.redis == redis
      ensures View() == Initial()
    {
      this.policy, this.keyPrefix, this.ttlBuffer, this.redis := policy, keyPrefix, ttlBuffer, redis;
      circuitBreakerState, failureCount, lastFailureTime := Closed, 0, 0;
    }

    /** The key with the prefix of this limiter in front. */
    function RedisKey(key: string): (k: Key)
      ensures k.Plain? && |k.name| == |keyPrefix| + |key| && keyPrefix <= k.name && k.name[|keyPrefix|..] == key
    {
      Plain(keyPrefix + key)
    }

    function View(): Breaker
      reads this
    {
      Breaker(circuitBreakerState, failureCount, lastFailureTime)
    }

    method CheckRateLimit(key: string, maxRequests: int, windowMs: int, now: nat, nonce: string, io: CheckIO)
      returns (result: RateLimitResult)
      modifies this, redis
      ensures var c := CheckKey(policy, ttlBuffer, Limit(maxRequests, windowMs), old(View()),
                             Lookup(old(redis.keys), RedisKey(key)), now, nonce, io);
              && View() == c.breaker
              && Lookup(redis.keys, RedisKey(key)) == c.zset
              && result == c.result
      ensures forall k :: k != RedisKey(key) ==> Lookup(redis.keys, k) == Lookup(old(redis.keys), k)
    {
      hide ZSet.RemoveByScore, ZSet.Add, ZSet.Expire, ZSet.Card, TtlSeconds, Blocked, Allowed;
      var lim := Limit(maxRequests, windowMs);
      var redisKey := RedisKey(key);
      ghost var expected := CheckKey(policy, ttlBuffer, lim, View(), Lookup(redis.keys, redisKey), now, nonce, io);
      if circuitBreakerState.Open? {
        if now - lastFailureTime < policy.recoveryTimeout {
          return Blocked(lim, now);
        }
        circuitBreakerState := HalfOpen;
      }
      ghost var failed := Checked(View().RecordFailure(policy, now), Lookup(redis.keys, redisKey), Blocked(lim, now));
      label attempt: {
        var windowStart := now - windowMs;
        var threw := redis.ZRemRangeByScore(redisKey, 0, windowStart, io.prune);
        failed := failed.(zset := Lookup(redis.keys, redisKey));
        if threw { break attempt; }
        var currentCount: nat;
        threw, currentCount := redis.ZCard(redisKey, io.count);
        if threw { break attempt; }
        if currentCount >= maxRequests {
          RecordFailure(now);
          return Blocked(lim, now);
        }
        threw := redis.ZAdd(redisKey, now, RequestId(now, nonce), io.add);
        failed := failed.(zset := Lookup(redis.keys, redisKey));
        if threw { break attempt; }
        threw := redis.Expire(redisKey, TtlSeconds(windowMs, ttlBuffer), now, io.expire);
        failed := failed.(zset := Lookup(redis.keys, redisKey));
        if threw { break attempt; }
        var newCount: nat;
        threw, newCount := redis.ZCard(redisKey, io.recount);
        if threw { break attempt; }
        if circuitBreakerState.HalfOpen? {
          circuitBreakerState := Closed;
          failureCount := 0;
        }
        return Allowed(lim, now, newCount);
      }
      assert expected == failed;
      RecordFailure(now);
      return Blocked(lim, now);
    }

    method RecordFailure(now: nat)
      modifies this
      ensures View() == old(View()).RecordFailure(policy, now)
    {
      failureCount := failureCount + 1;
      lastFailureTime := now;
      if failureCount >= policy.failureThreshold {
        circuitBreakerState := Open;
      }
    }

    method Reset(key: string, reply: Reply) returns (threw: bool)
      modifies redis
      ensures threw == reply.Threw()
      ensures redis.keys == if reply.TookEffect() then old(redis.keys)[RedisKey(key) := Empty()]
                            else old(redis.keys)
    {
      threw := redis.Del(RedisKey(key), reply);
    }
  }

  /** Runs of atomic operations of one limiter object over all its keys. */
  datatype Event =
    | Check(key: string, now: nat, nonce: string, io: CheckIO)
    | Reset(key: string, now: nat, reply: Reply)
    | Evict(key: string, now: nat)
  {
    function Id(): RequestId
      requires Check?
    {
      RequestId(now, nonce)
    }
  }

  datatype State = State(breaker: Breaker, store: Store)

  function CheckIn(cfg: Config, s: State, e: Event): Checked
    requires e.Check?
  {
    CheckKey(cfg.policy, cfg.ttlBuffer, cfg.limits(e.key), s.breaker, Lookup(s.store, Plain(e.key)), e.now, e.nonce,
             e.io)
  }

  function Apply(cfg: Config, s: State, e: Event): State {
    match e
    case Check(key, _, _, _) =>
      var c := CheckIn(cfg, s, e);
      State(c.breaker, s.store[Plain(key) := c.zset])
    case Reset(key, _, reply) =>
      if reply.TookEffect() then s.(store := s.store[Plain(key) := Empty()]) else s
    case Evict(key, now) => s.(store := s.store[Plain(key) := Lookup(s.store, Plain(key)).Evict(now)])
  }

  function Run(cfg: Config, es: seq<Event>): State {
    if es == [] then State(Initial(), map[]) else Apply(cfg, Run(cfg, es[..|es| - 1]), es[|es| - 1])
  }

  /** Whether this event, in this state, is a check that is allowed. */
  predicate Admits(cfg: Config, s: State, e: Event) { e.Check? && CheckIn(cfg, s, e).result.allowed }

  /** The allow/deny answers of the run, one per check. */
  function Decisions(cfg: Config, es: seq<Event>): seq<bool> {
    if es == [] then []
    else
      var before, e := es[..|es| - 1], es[|es| - 1];
      Decisions(cfg, before) + (if e.Check? then [Admits(cfg, Run(cfg, before), e)] else [])
  }

  function NextLog(cfg: Config, s: State, e: Event, key: string, log: seq<RequestId>): seq<RequestId> {
    if e.key != key then log
    else if e.Reset? then (if e.reply.TookEffect() then [] else log)
    else if Admits(cfg, s, e) then log + [e.Id()]
    else log
  }

  /** The calls allowed on a key since a reset last reached Redis. */
  function AllowedLog(cfg: Config, es: seq<Event>, key: string): seq<RequestId> {
    if es == [] then []
    else
      var before := es[..|es| - 1];
      NextLog(cfg, Run(cfg, before), es[|es| - 1], key, AllowedLog(cfg, before, key))
  }

  function Clock(es: seq<Event>): nat { if es == [] then 0 else es[|es| - 1].now }

  /** The wall clock never runs backwards. */
  ghost predicate Timed(es: seq<Event>) {
    forall i, j :: 0 <= i < j < |es| ==> es[i].now <= es[j].now
  }

  /** `Math.random()` never repeats a value on one key within one millisecond. */
  ghost predicate Fresh(es: seq<Event>) {
    forall i, j ::
      0 <= i < j < |es| && es[i].Check? && es[j].Check? && es[i].key == es[j].key ==> es[i].Id() != es[j].Id()
  }

  /** No command of a check throws; resets may fail, before or after they took effect. */
  ghost predicate FaultFree(es: seq<Event>) { forall e :: e in es && e.Check? ==> e.io.FaultFree() }

  lemma CheckKeepsCovers(p: Policy, ttlBuffer: int, lim: Limit, b: Breaker, z: ZSet, log: seq<RequestId>, clock: nat,
                         now: nat, nonce: string, io: CheckIO)
    requires lim.TtlHarmless(ttlBuffer) && clock <= now && RequestId(now, nonce) !in log
    requires Covers(lim, clock, z, log)
    ensures var c := CheckKey(p, ttlBuffer, lim, b, z, now, nonce, io);
            var log' := if c.result.allowed then log + [RequestId(now, nonce)] else log;
            && Covers(lim, now, c.zset, log')
            && (c.result.allowed ==> InWindow(log, lim.windowMs, now) < lim.maxRequests)
  {
    hide Covers, Exact, Count, InWindow, TtlSeconds, ZSet.RemoveByScore, ZSet.Expire, ZSet.Add, ZSet.Card;
    var id := RequestId(now, nonce);
    PruneStep(lim, clock, z, log, now);
    if !b.Blocks(p, now) {
      var pruned := if io.prune.TookEffect() then z.RemoveByScore(0, now - lim.windowMs) else z;
      if !io.prune.Threw() && !io.count.Threw() && pruned.Card() < lim.maxRequests && io.add.TookEffect() {
        AddStep(lim, pruned, log, id);
        ExpireStep(lim, ttlBuffer, pruned.Add(now, id), log, id);
      }
    }
  }

  /** Without faults and with no breaker in the way, the answer is that of the plain window count. */
  lemma CheckIsExact(p: Policy, ttlBuffer: int, lim: Limit, b: Breaker, z: ZSet, log: seq<RequestId>, clock: nat,
                     now: nat, nonce: string, io: CheckIO)
    requires lim.TtlHarmless(ttlBuffer) && clock <= now && RequestId(now, nonce) !in log
    requires Exact(lim, clock, z, log) && io.FaultFree()
    ensures var c := CheckKey(p, ttlBuffer, lim, b, z, now, nonce, io);
            && Exact(lim, now, c.zset, if c.result.allowed then log + [RequestId(now, nonce)] else log)
            && (c.result.allowed <==> !b.Blocks(p, now) && InWindow(log, lim.windowMs, now) < lim.maxRequests)
  {
    hide Covers, Count, InWindow, TtlSeconds, ZSet.RemoveByScore, ZSet.Expire, ZSet.Add, ZSet.Card;
    var id := RequestId(now, nonce);
    PruneStep(lim, clock, z, log, now);
    var pruned := z.RemoveByScore(0, now - lim.windowMs);
    if !b.Blocks(p, now) && pruned.Card() < lim.maxRequests {
      AddStep(lim, pruned, log, id);
      ExpireStep(lim, ttlBuffer, pruned.Add(now, id), log, id);
    }
  }

  lemma LogComesFromChecks(cfg: Config, es: seq<Event>, key: string)
    ensures forall m ::
              m in AllowedLog(cfg, es, key) ==>
              exists i :: 0 <= i < |es| && es[i].Check? && es[i].key == key && es[i].Id() == m
  {
    if es != [] { LogComesFromChecks(cfg, es[..|es| - 1], key); }
  }

  lemma EventKeepsCovers(cfg: Config, s: State, e: Event, key: string, log: seq<RequestId>, clock: nat)
    requires cfg.limits(key).TtlHarmless(cfg.ttlBuffer) && clock <= e.now
    requires e.Check? && e.key == key ==> e.Id() !in log
    requires Covers(cfg.limits(key), clock, Lookup(s.store, Plain(key)), log)
    ensures Covers(cfg.limits(key), e.now, Lookup(Apply(cfg, s, e).store, Plain(key)), NextLog(cfg, s, e, key, log))
    ensures Bounded(log, cfg.limits(key).windowMs, cfg.limits(key).Capacity())
            ==> Bounded(NextLog(cfg, s, e, key, log), cfg.limits(key).windowMs, cfg.limits(key).Capacity())
  {
    var lim, z := cfg.limits(key), Lookup(s.store, Plain(key));
    if e.key == key && e.Check? {
      hide CheckKey, ZSet.RemoveByScore, ZSet.Expire, ZSet.Add, Count;
      CheckKeepsCovers(cfg.policy, cfg.ttlBuffer, lim, s.breaker, z, log, clock, e.now, e.nonce, e.io);
      if Admits(cfg, s, e) && Bounded(log, lim.windowMs, lim.Capacity()) {
        AdmitKeepsBounded(log, e.Id(), lim.windowMs, lim.Capacity());
      }
    }
  }

  lemma EventKeepsExact(cfg: Config, s: State, e: Event, key: string, log: seq<RequestId>, clock: nat)
    requires cfg.limits(key).TtlHarmless(cfg.ttlBuffer) && clock <= e.now
    requires e.Check? && e.key == key ==> e.Id() !in log
    requires Exact(cfg.limits(key), clock, Lookup(s.store, Plain(key)), log) && FaultFree([e])
    ensures Exact(cfg.limits(key), e.now, Lookup(Apply(cfg, s, e).store, Plain(key)), NextLog(cfg, s, e, key, log))
  {
    assert e in [e];
    var lim, z := cfg.limits(key), Lookup(s.store, Plain(key));
    if e.key == key && e.Check? {
      hide CheckKey, ZSet.RemoveByScore, ZSet.Expire, ZSet.Add, Count;
      CheckIsExact(cfg.policy, cfg.ttlBuffer, lim, s.breaker, z, log, clock, e.now, e.nonce, e.io);
    }
  }

  lemma {:induction false} RunCovers(cfg: Config, es: seq<Event>, key: string)
    requires Timed(es) && Fresh(es) && cfg.limits(key).TtlHarmless(cfg.ttlBuffer)
    ensures var lim, z, log := cfg.limits(key), Lookup(Run(cfg, es).store, Plain(key)), AllowedLog(cfg, es, key);
            && Covers(lim, Clock(es), z, log)
            && (FaultFree(es) ==> Exact(lim, Clock(es), z, log))
            && Bounded(log, lim.windowMs, lim.Capacity())
  {
    if es != [] {
      var before, e := es[..|es| - 1], es[|es| - 1];
      RunCovers(cfg, before, key);
      LogComesFromChecks(cfg, before, key);
      assert Clock(before) <= e.now;
      var s, log := Run(cfg, before), AllowedLog(cfg, before, key);
      hide Covers, Exact, Bounded, NextLog, Apply;
      EventKeepsCovers(cfg, s, e, key, log, Clock(before));
      if FaultFree(es) { EventKeepsExact(cfg, s, e, key, log, Clock(before)); }
    }
  }
}
