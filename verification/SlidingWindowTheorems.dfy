/** What runs of the single-key limiter guarantee, and exactly when: no window is ever
    over-filled, and pruning and key TTLs are invisible next to a limiter that keeps
    every allowed timestamp forever. */
module SlidingWindowTheorems {
  import opened Options
  import opened Redis
  import opened CircuitBreaker
  import opened WindowLog
  import opened RateLimitTypes
  import opened LogCover
  import opened SlidingWindow

  /** The reference limiter: the same breaker in front of a log that is never pruned. */
  datatype Naive = Naive(breaker: Breaker, logs: map<string, seq<RequestId>>) {
    function Log(key: string): seq<RequestId> { if key in logs then logs[key] else [] }
  }

  predicate NaiveAdmits(cfg: Config, n: Naive, e: Event) {
    e.Check? && !n.breaker.Blocks(cfg.policy, e.now)
    && InWindow(n.Log(e.key), cfg.limits(e.key).windowMs, e.now) < cfg.limits(e.key).maxRequests
  }

  function NaiveApply(cfg: Config, n: Naive, e: Event): Naive {
    match e
    case Check(key, now, _, _) =>
      if n.breaker.Blocks(cfg.policy, now) then n
      else if NaiveAdmits(cfg, n, e) then Naive(n.breaker.Probe().Succeed(), n.logs[key := n.Log(key) + [e.Id()]])
      else n.(breaker := n.breaker.Probe().RecordFailure(cfg.policy, now))
    case Reset(key, _, reply) => if reply.TookEffect() then n.(logs := n.logs[key := []]) else n
    case Evict(_, _) => n
  }

  function NaiveRun(cfg: Config, es: seq<Event>): Naive {
    if es == [] then Naive(Initial(), map[]) else NaiveApply(cfg, NaiveRun(cfg, es[..|es| - 1]), es[|es| - 1])
  }

  function NaiveDecisions(cfg: Config, es: seq<Event>): seq<bool> {
    if es == [] then []
    else
      var before, e := es[..|es| - 1], es[|es| - 1];
      NaiveDecisions(cfg, before) + (if e.Check? then [NaiveAdmits(cfg, NaiveRun(cfg, before), e)] else [])
  }

  /** Same answers, same breaker. As it is asked of every run, it is asked after every step. */
  ghost predicate Agree(cfg: Config, es: seq<Event>) {
    Decisions(cfg, es) == NaiveDecisions(cfg, es) && Run(cfg, es).breaker == NaiveRun(cfg, es).breaker
  }

  lemma StepsAgree(cfg: Config, s: State, n: Naive, e: Event, clock: nat)
    requires cfg.limits(e.key).TtlHarmless(cfg.ttlBuffer) && clock <= e.now && FaultFree([e])
    requires s.breaker == n.breaker && (e.Check? ==> e.Id() !in n.Log(e.key))
    requires Exact(cfg.limits(e.key), clock, Lookup(s.store, Plain(e.key)), n.Log(e.key))
    ensures Admits(cfg, s, e) <==> NaiveAdmits(cfg, n, e)
    ensures Apply(cfg, s, e).breaker == NaiveApply(cfg, n, e).breaker
    ensures forall key :: NaiveApply(cfg, n, e).Log(key) == NextLog(cfg, s, e, key, n.Log(key))
  {
    hide Covers, Exact, InWindow, ZSet.RemoveByScore, ZSet.Add, ZSet.Expire, ZSet.Card, TtlSeconds;
    assert e in [e];
    if e.Check? {
      CheckIsExact(cfg.policy, cfg.ttlBuffer, cfg.limits(e.key), s.breaker, Lookup(s.store, Plain(e.key)), n.Log(e.key),
                   clock, e.now, e.nonce, e.io);
    }
  }

  lemma {:induction false} RefinesNaive(cfg: Config, es: seq<Event>)
    requires Timed(es) && Fresh(es) && FaultFree(es)
    requires forall key :: cfg.limits(key).TtlHarmless(cfg.ttlBuffer)
    ensures Agree(cfg, es)
    ensures forall key :: NaiveRun(cfg, es).Log(key) == AllowedLog(cfg, es, key)
  {
    hide Covers, Exact, Apply, NaiveApply, Admits, NaiveAdmits, NextLog, Limit.TtlHarmless;
    if es != [] {
      var before, e := es[..|es| - 1], es[|es| - 1];
      RefinesNaive(cfg, before);
      RunCovers(cfg, before, e.key);
      LogComesFromChecks(cfg, before, e.key);
      StepsAgree(cfg, Run(cfg, before), NaiveRun(cfg, before), e, Clock(before));
    }
  }

  /** A burst at time 0 that fills the key to its limit, the eviction its TTL allows, and
      one more check, all inside one window. */
  function Nth(key: string, at: nat, n: nat): Event {
    Check(key, at, seq(n, _ => 'x'), CheckIO(Ok, Ok, Ok, Ok, Ok))
  }

  function Burst(key: string, n: nat): seq<Event> {
    if n == 0 then [] else Burst(key, n - 1) + [Nth(key, 0, n - 1)]
  }

  function EvictionTime(cfg: Config, key: string): nat {
    var ttl := TtlSeconds(cfg.limits(key).windowMs, cfg.ttlBuffer);
    if ttl <= 0 then 0 else Expiry(ttl, 0)
  }

  function Overflow(cfg: Config, key: string): seq<Event> {
    var n, t := cfg.limits(key).Capacity(), EvictionTime(cfg, key);
    Burst(key, n) + [Evict(key, t)] + [Nth(key, t, n)]
  }

  lemma {:induction false} BurstShape(key: string, n: nat)
    ensures |Burst(key, n)| == n && forall i :: 0 <= i < n ==> Burst(key, n)[i] == Nth(key, 0, i)
  {
    if n > 0 { BurstShape(key, n - 1); }
  }

  lemma OverflowIsARun(cfg: Config, key: string)
    ensures var es := Overflow(cfg, key); Timed(es) && Fresh(es) && FaultFree(es)
  {
    var es, n, t := Overflow(cfg, key), cfg.limits(key).Capacity(), EvictionTime(cfg, key);
    BurstShape(key, n);
    assert forall i ::
             0 <= i < |es| && es[i].Check? ==> es[i] == Nth(key, if i < n then 0 else t, if i < n then i else n);
    forall i, j | 0 <= i < j < |es| && es[i].Check? && es[j].Check? ensures es[i].Id() != es[j].Id() {
      assert |es[i].nonce| != |es[j].nonce|;
    }
  }

  /** The key after a part of the burst: at most `n` members, all from time 0, and either
      nothing at all or due for eviction as soon as the first EXPIRE said. */
  ghost predicate Filled(lim: Limit, ttlBuffer: int, z: ZSet, n: nat) {
    var ttl := TtlSeconds(lim.windowMs, ttlBuffer);
    z.Card() <= n && z.Sound(0) && (z == Empty() || (ttl > 0 && z.deadline == Some(Expiry(ttl, 0))))
  }

  lemma BurstStep(p: Policy, ttlBuffer: int, lim: Limit, z: ZSet, n: nat, nonce: string)
    requires n < lim.maxRequests && lim.windowMs > 0 && Filled(lim, ttlBuffer, z, n)
    ensures var c := CheckKey(p, ttlBuffer, lim, Initial(), z, 0, nonce, CheckIO(Ok, Ok, Ok, Ok, Ok));
            c.result.allowed && c.breaker == Initial() && Filled(lim, ttlBuffer, c.zset, n + 1)
  {
    BurstStepOnSet(lim, ttlBuffer, z, n, RequestId(0, nonce));
    hide ZSet.RemoveByScore, ZSet.Add, ZSet.Expire, TtlSeconds, Filled;
  }

  lemma BurstStepOnSet(lim: Limit, ttlBuffer: int, z: ZSet, n: nat, id: RequestId)
    requires lim.windowMs > 0 && Filled(lim, ttlBuffer, z, n) && id.at == 0
    ensures var z0 := z.RemoveByScore(0, 0 - lim.windowMs);
            z0.Card() <= n
            && Filled(lim, ttlBuffer, z0.Add(0, id).Expire(TtlSeconds(lim.windowMs, ttlBuffer), 0), n + 1)
  {
    var pruned := z.RemoveByScore(0, 0 - lim.windowMs);
    assert pruned.scores == z.scores;
    var added := pruned.Add(0, id);
    assert added.scores.Keys == z.scores.Keys + {id};
  }

  lemma {:induction false} BurstFills(cfg: Config, key: string, n: nat)
    requires n <= cfg.limits(key).maxRequests && cfg.limits(key).windowMs > 0
    ensures var es := Burst(key, n);
            && Run(cfg, es).breaker == Initial()
               && Filled(cfg.limits(key), cfg.ttlBuffer, Lookup(Run(cfg, es).store, Plain(key)), n)
            && |AllowedLog(cfg, es, key)| == n && AtZero(AllowedLog(cfg, es, key))
  {
    if n > 0 {
      BurstFills(cfg, key, n - 1);
      var before, e := Burst(key, n - 1), Nth(key, 0, n - 1);
      assert Burst(key, n)[..|before|] == before && Burst(key, n)[|before|] == e by { BurstShape(key, n - 1); }
      hide Filled, CheckKey;
      BurstStep(cfg.policy, cfg.ttlBuffer, cfg.limits(key), Lookup(Run(cfg, before).store, Plain(key)), n - 1, e.nonce);
    }
  }

  lemma {:induction false} NaiveBurstFills(cfg: Config, key: string, n: nat)
    requires n <= cfg.limits(key).maxRequests && cfg.limits(key).windowMs > 0
    ensures var naive := NaiveRun(cfg, Burst(key, n));
            naive.breaker == Initial() && |naive.Log(key)| == n && AtZero(naive.Log(key))
  {
    hide NaiveApply, Nth;
    if n > 0 {
      hide AtZero;
      NaiveBurstFills(cfg, key, n - 1);
      var before, e := Burst(key, n - 1), Nth(key, 0, n - 1);
      assert Burst(key, n)[..|before|] == before && Burst(key, n)[|before|] == e by { BurstShape(key, n - 1); }
      NaiveBurstStep(cfg, NaiveRun(cfg, before), key, n - 1);
    }
  }

  lemma NaiveBurstStep(cfg: Config, naive: Naive, key: string, n: nat)
    requires n < cfg.limits(key).maxRequests && cfg.limits(key).windowMs > 0
    requires naive.breaker == Initial() && |naive.Log(key)| == n && AtZero(naive.Log(key))
    ensures var next := NaiveApply(cfg, naive, Nth(key, 0, n));
            next.breaker == Initial() && |next.Log(key)| == n + 1 && AtZero(next.Log(key))
  {
    CountAtZero(naive.Log(key), cfg.limits(key).windowMs, 0);
    hide InWindow;
  }

  /** Once evicted, the key admits again. */
  lemma EvictedKeyAdmits(p: Policy, ttlBuffer: int, lim: Limit, z: ZSet, n: nat, now: nat, nonce: string)
    requires var ttl := TtlSeconds(lim.windowMs, ttlBuffer);
             Filled(lim, ttlBuffer, z, n) && (ttl <= 0 || now >= Expiry(ttl, 0))
    requires lim.maxRequests > 0
    ensures CheckKey(p, ttlBuffer, lim, Initial(), z.Evict(now), now, nonce, CheckIO(Ok, Ok, Ok, Ok, Ok)).result.allowed
  {
    assert z.Evict(now) == Empty();
    assert Empty().RemoveByScore(0, now - lim.windowMs) == Empty();
  }

  /** If the TTL can be observed, the burst above is one call too many, and the reference
      limiter, which still sees the burst, disagrees. */
  lemma OverflowOverfills(cfg: Config, key: string)
    requires !cfg.limits(key).TtlHarmless(cfg.ttlBuffer)
    ensures var es, lim := Overflow(cfg, key), cfg.limits(key);
            && InWindow(AllowedLog(cfg, es, key), lim.windowMs, EvictionTime(cfg, key)) == lim.maxRequests + 1
            && !Agree(cfg, es)
  {
    var n, t := cfg.limits(key).Capacity(), EvictionTime(cfg, key);
    var burst, e := Burst(key, n), Nth(key, t, n);
    var evicted := burst + [Evict(key, t)];
    OverflowIsAdmitted(cfg, key);
    OverflowIsNotNaive(cfg, key);
    BurstCounts(cfg, key, e.Id());
    hide Burst, EvictionTime, InWindow, Admits, NaiveAdmits, Agree, Run, NaiveRun, AllowedLog;
    DifferAtLast(cfg, evicted, e);
    LogAfterEviction(cfg, burst, key, t, e);
  }

  lemma DifferAtLast(cfg: Config, before: seq<Event>, e: Event)
    requires e.Check? && Admits(cfg, Run(cfg, before), e) != NaiveAdmits(cfg, NaiveRun(cfg, before), e)
    ensures !Agree(cfg, before + [e])
  {
    var es := before + [e];
    assert es[..|es| - 1] == before;
    hide Admits, NaiveAdmits, Run, NaiveRun;
    var d, d' := Decisions(cfg, es), NaiveDecisions(cfg, es);
    assert d[|d| - 1] != d'[|d'| - 1];
  }

  lemma LogAfterEviction(cfg: Config, before: seq<Event>, key: string, t: nat, e: Event)
    requires e.Check? && e.key == key && Admits(cfg, Run(cfg, before + [Evict(key, t)]), e)
    ensures AllowedLog(cfg, before + [Evict(key, t)] + [e], key) == AllowedLog(cfg, before, key) + [e.Id()]
  {
    var evicted := before + [Evict(key, t)];
    assert evicted[..|before|] == before && (evicted + [e])[..|evicted|] == evicted;
    hide Admits, Run;
  }

  lemma BurstCounts(cfg: Config, key: string, id: RequestId)
    requires !cfg.limits(key).TtlHarmless(cfg.ttlBuffer) && id.at == EvictionTime(cfg, key)
    ensures var lim, n := cfg.limits(key), cfg.limits(key).Capacity();
            InWindow(AllowedLog(cfg, Burst(key, n), key) + [id], lim.windowMs, id.at) == lim.maxRequests + 1
  {
    var lim, n, t := cfg.limits(key), cfg.limits(key).Capacity(), id.at;
    assert lim.maxRequests > 0 && t < lim.windowMs;
    BurstFills(cfg, key, n);
    var log := AllowedLog(cfg, Burst(key, n), key);
    CountAtZero(log, lim.windowMs, t);
    CountSnoc(log, id, t - lim.windowMs, t);
    hide Filled, Count, Burst, AllowedLog;
  }

  lemma OverflowIsAdmitted(cfg: Config, key: string)
    requires !cfg.limits(key).TtlHarmless(cfg.ttlBuffer)
    ensures var n, t := cfg.limits(key).Capacity(), EvictionTime(cfg, key);
            Admits(cfg, Run(cfg, Burst(key, n) + [Evict(key, t)]), Nth(key, t, n))
  {
    var lim, n, t := cfg.limits(key), cfg.limits(key).Capacity(), EvictionTime(cfg, key);
    var burst := Burst(key, n);
    assert (burst + [Evict(key, t)])[..|burst|] == burst;
    BurstFills(cfg, key, n);
    hide Filled, CheckKey, ZSet.Evict;
    EvictedKeyAdmits(cfg.policy, cfg.ttlBuffer, lim, Lookup(Run(cfg, burst).store, Plain(key)), n, t,
                     Nth(key, t, n).nonce);
  }

  lemma OverflowIsNotNaive(cfg: Config, key: string)
    requires !cfg.limits(key).TtlHarmless(cfg.ttlBuffer)
    ensures var n, t := cfg.limits(key).Capacity(), EvictionTime(cfg, key);
            !NaiveAdmits(cfg, NaiveRun(cfg, Burst(key, n) + [Evict(key, t)]), Nth(key, t, n))
  {
    var lim, n, t := cfg.limits(key), cfg.limits(key).Capacity(), EvictionTime(cfg, key);
    var burst := Burst(key, n);
    assert (burst + [Evict(key, t)])[..|burst|] == burst;
    NaiveBurstFills(cfg, key, n);
    CountAtZero(NaiveRun(cfg, burst).Log(key), lim.windowMs, t);
  }

  /** Over every run of atomic checks, with a fault possible at every command, resets, and
      evictions at any time a deadline allows, no window between resets holds more than
      maxRequests allowed calls: exactly when the TTL does its job. */
  lemma WindowSafeIffTtlHarmless(cfg: Config, key: string)
    ensures (forall es :: Timed(es) && Fresh(es)
               ==> Bounded(AllowedLog(cfg, es, key), cfg.limits(key).windowMs, cfg.limits(key).Capacity()))
            <==> cfg.limits(key).TtlHarmless(cfg.ttlBuffer)
  {
    if cfg.limits(key).TtlHarmless(cfg.ttlBuffer) {
      forall es | Timed(es) && Fresh(es)
        ensures Bounded(AllowedLog(cfg, es, key), cfg.limits(key).windowMs, cfg.limits(key).Capacity())
      {
        RunCovers(cfg, es, key);
      }
    } else {
      OverflowIsARun(cfg, key);
      OverflowOverfills(cfg, key);
    }
  }

  /** Fault-free runs make exactly the decisions and breaker transitions of the limiter that
      never forgets: exactly when the TTL is harmless on every key. */
  lemma RefinesNaiveIffTtlHarmless(cfg: Config)
    ensures (forall es :: Timed(es) && Fresh(es) && FaultFree(es) ==> Agree(cfg, es))
            <==> forall key :: cfg.limits(key).TtlHarmless(cfg.ttlBuffer)
  {
    if forall key :: cfg.limits(key).TtlHarmless(cfg.ttlBuffer) {
      forall es | Timed(es) && Fresh(es) && FaultFree(es) ensures Agree(cfg, es) { RefinesNaive(cfg, es); }
    } else {
      var key :| !cfg.limits(key).TtlHarmless(cfg.ttlBuffer);
      OverflowIsARun(cfg, key);
      OverflowOverfills(cfg, key);
    }
  }

  /** One call at a time, the breaker is never left half-open, and is open exactly from the
      threshold on. */
  lemma {:induction false} NeverHalfOpenBetweenCalls(cfg: Config, es: seq<Event>)
    requires cfg.policy.failureThreshold >= 1
    ensures !Run(cfg, es).breaker.mode.HalfOpen? && Run(cfg, es).breaker.Consistent(cfg.policy)
  {
    hide Apply, Breaker.Consistent;
    if es != [] {
      NeverHalfOpenBetweenCalls(cfg, es[..|es| - 1]);
      StepSettles(cfg, Run(cfg, es[..|es| - 1]), es[|es| - 1]);
    } else {
      StartsClosed(cfg.policy);
    }
  }

  lemma StartsClosed(p: Policy)
    requires p.failureThreshold >= 1
    ensures Initial().Consistent(p)
  {
  }

  lemma StepSettles(cfg: Config, s: State, e: Event)
    requires cfg.policy.failureThreshold >= 1 && !s.breaker.mode.HalfOpen? && s.breaker.Consistent(cfg.policy)
    ensures !Apply(cfg, s, e).breaker.mode.HalfOpen? && Apply(cfg, s, e).breaker.Consistent(cfg.policy)
  {
    hide ZSet.RemoveByScore, ZSet.Add, ZSet.Expire, ZSet.Card, TtlSeconds;
  }

  /** However many checks, on whatever keys, arrive while the breaker is open, they change
      nothing, and the first check at or after lastFailureTime + recoveryTimeout is decided
      by its window alone. */
  lemma OpenBreakerRecoversOnTime(cfg: Config, es: seq<Event>, turnedAway: seq<Event>, probe: Event)
    requires Run(cfg, es).breaker.mode.Open?
    requires var recovery := Run(cfg, es).breaker.lastFailureTime + cfg.policy.recoveryTimeout;
             (forall e :: e in turnedAway ==> e.Check? && e.now < recovery) && probe.Check? && recovery <= probe.now
    requires var all := es + turnedAway + [probe]; Timed(all) && Fresh(all) && FaultFree(all)
    requires cfg.limits(probe.key).TtlHarmless(cfg.ttlBuffer)
    ensures Run(cfg, es + turnedAway).breaker == Run(cfg, es).breaker
    ensures forall key :: AllowedLog(cfg, es + turnedAway, key) == AllowedLog(cfg, es, key)
    ensures var lim := cfg.limits(probe.key);
            Admits(cfg, Run(cfg, es + turnedAway), probe)
            <==> InWindow(AllowedLog(cfg, es, probe.key), lim.windowMs, probe.now) < lim.maxRequests
  {
    TurnedAwayChangesNothing(cfg, es, turnedAway);
    var before := es + turnedAway;
    var all := before + [probe];
    assert forall i :: 0 <= i < |before| ==> before[i] == all[i];
    assert all[|before|] == probe;
    assert probe in all;
    RunCovers(cfg, before, probe.key);
    LogComesFromChecks(cfg, before, probe.key);
    var s, log, lim := Run(cfg, before), AllowedLog(cfg, before, probe.key), cfg.limits(probe.key);
    hide Covers, Exact, InWindow, CheckKey;
    CheckIsExact(cfg.policy, cfg.ttlBuffer, lim, s.breaker, Lookup(s.store, Plain(probe.key)), log, Clock(before),
                 probe.now, probe.nonce, probe.io);
  }

  /** With faults anywhere before, and any replies now, the first check at or after the recovery
      time is not blocked: it is allowed exactly if none of its commands throws and the sorted
      set, once pruned, holds fewer than the limit. */
  lemma RecoveryReachesTheWindow(cfg: Config, es: seq<Event>, turnedAway: seq<Event>, probe: Event)
    requires Run(cfg, es).breaker.mode.Open?
    requires var recovery := Run(cfg, es).breaker.lastFailureTime + cfg.policy.recoveryTimeout;
             (forall e :: e in turnedAway ==> e.Check? && e.now < recovery) && probe.Check? && recovery <= probe.now
    ensures !Run(cfg, es + turnedAway).breaker.Blocks(cfg.policy, probe.now)
    ensures var lim, z := cfg.limits(probe.key), Lookup(Run(cfg, es).store, Plain(probe.key));
            Admits(cfg, Run(cfg, es + turnedAway), probe)
            <==> probe.io.FaultFree() && z.RemoveByScore(0, probe.now - lim.windowMs).Card() < lim.maxRequests
  {
    hide ZSet.RemoveByScore, ZSet.Add, ZSet.Expire, ZSet.Card, TtlSeconds, Run;
    TurnedAwayChangesNothing(cfg, es, turnedAway);
  }

  lemma {:induction false} TurnedAwayChangesNothing(cfg: Config, es: seq<Event>, turnedAway: seq<Event>)
    requires Run(cfg, es).breaker.mode.Open?
    requires forall e :: e in turnedAway ==>
               e.Check? && e.now < Run(cfg, es).breaker.lastFailureTime + cfg.policy.recoveryTimeout
    ensures Run(cfg, es + turnedAway).breaker == Run(cfg, es).breaker
    ensures forall key :: AllowedLog(cfg, es + turnedAway, key) == AllowedLog(cfg, es, key)
    ensures forall k :: Lookup(Run(cfg, es + turnedAway).store, k) == Lookup(Run(cfg, es).store, k)
  {
    if turnedAway == [] {
      assert es + turnedAway == es;
    } else {
      var rest, e := turnedAway[..|turnedAway| - 1], turnedAway[|turnedAway| - 1];
      TurnedAwayChangesNothing(cfg, es, rest);
      assert (es + turnedAway)[..|es + turnedAway| - 1] == es + rest;
      assert (es + turnedAway)[|es + turnedAway| - 1] == e;
      hide ZSet.RemoveByScore, ZSet.Add, ZSet.Expire, ZSet.Card, TtlSeconds;
    }
  }
}
