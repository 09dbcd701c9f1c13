/** A call whose entry is evicted before its EXPIRE is allowed and forgotten. With room for two
    requests and a window of two milliseconds, a run makes that overfill the window, even with
    one call at a time; and so the bound on paced calls holds exactly without such room. */
module InterleavingLostGrants {
  import opened Options
  import opened Redis
  import opened CircuitBreaker
  import opened WindowLog
  import opened RateLimitTypes
  import D = Distributed
  import opened DistributedInterleaving
  import opened InterleavingBounds
  import opened InterleavingBreaker
  import opened InterleavingRuns
  import opened InterleavingTightness
  import opened InterleavingEvictions

  /** The key was given its time to live once, by the first call, and is due then; since then
      each window's end brought one entry whose EXPIRE was never sent. The latest is instance
      k's, stored now. */
  ghost predicate Overdue(z: ZSet, t: nat, k: nat, due: nat) {
    && z.deadline == Some(due) && RequestId(t, Name(k)) in z.scores
    && forall m :: m in z.scores ==> z.scores[m] == m.at && (m == RequestId(t, Name(k)) || m.at < t)
  }

  ghost predicate Chained(sys: System, s: State, key: string, t: nat, k: nat, n: nat, due: nat) {
    && Reachable(sys, s) && s.clock == t && s.calls == map[] && UnusedFrom(s, key, k + 1, n)
    && Overdue(Lookup(s.store, Global(key)), t, k, due)
  }

  predicate RoomForTwo(sys: System, key: string) {
    sys.config.limits(key).maxRequests >= 2 && sys.config.limits(key).windowMs >= 2 && sys.cap >= 1
    && TtlSeconds(sys.config.limits(key).windowMs, sys.config.ttlBuffer) > 0
  }

  function Due(sys: System, key: string): int {
    Expiry(TtlSeconds(sys.config.limits(key).windowMs, sys.config.ttlBuffer), 0)
  }

  lemma FirstIsOverdue(seconds: int, id: RequestId)
    requires seconds > 0 && id == RequestId(0, Name(0))
    ensures Overdue(Empty().Add(0, id).Expire(seconds, 0), 0, 0, Expiry(seconds, 0))
  {
    assert id in Empty().Add(0, id).scores;
  }

  lemma FirstCall(sys: System, s: State, key: string, n: nat) returns (s': State)
    requires Between(sys, s, key, 0, 0, 0, n)
    requires Lookup(s.store, Global(key)) == Empty() && n >= 1 && RoomForTwo(sys, key)
    ensures Chained(sys, s', key, 0, 0, n, Due(sys, key))
  {
    var c, ttl := Begun(Name(0), key, 0).(phase := AddGlobal),
                  TtlSeconds(sys.config.limits(key).windowMs, sys.config.ttlBuffer);
    BetweenFacts(sys, s, key, 0, 0, 0, n);
    FirstIsOverdue(ttl, c.Id());
    assert Pruned(sys, s, key) == Empty();
    hide Holds, Reachable, Unused, Midway, ZSet.Add, ZSet.Expire;
    hide TtlSeconds, Overdue, Pruned, InFlight, Name, Otherwise;
    s' := HoldsPasses(sys, s, key, 0, 0, 0, 0);
    s' := RestOfCall(sys, s, s', 0, c, Empty());
    EndsUnused(s, s', key, 0, n, c, Empty().Add(0, c.Id()).Expire(ttl, 0), Empty().Add(0, c.Id()).Expire(ttl, 0),
               Initial(), true);
  }

  /** After a call of instance j the later instances are still unused. */
  lemma EndsUnused(s0: State, s: State, key: string, j: nat, n: nat, c: Call, g: ZSet, d: ZSet, b: Breaker,
                   allowed: bool)
    requires UnusedFrom(s0, key, j, n) && s0.calls == map[] && c.key == key
    requires c.instance == Name(j) && EndsAs(s0, s, j, c, g, d, b, allowed)
    ensures UnusedFrom(s, key, j + 1, n) && s.calls == map[] && s.clock == s0.clock && Lookup(s.store, Global(key)) == g
  {
    hide Unused, Name;
    StillFree(s0, s, j);
    forall i | j + 1 <= i < n ensures Unused(s, key, i) && !Taken(s, i) {
      OthersUnused(s0, s, c, g, d, b, key, j, i);
    }
  }

  lemma UnusedAnyTime(s: State, now: nat, key: string, k: nat, n: nat)
    requires UnusedFrom(s, key, k, n)
    ensures UnusedFrom(s.(clock := now), key, k, n)
  {
    hide Name;
    forall j: nat | k <= j < n ensures Unused(s.(clock := now), key, j) && !Taken(s.(clock := now), j) {
      assert Unused(s, key, j) && !Taken(s, j);
    }
  }

  /** One window later, less a millisecond, only the latest entry is left. */
  lemma PruneOverdue(z: ZSet, t: nat, k: nat, due: nat, windowMs: int, now: nat)
    requires Overdue(z, t, k, due) && windowMs >= 2 && now == t + windowMs - 1
    ensures var p := z.RemoveByScore(0, now - windowMs);
            && p.Card() == 1 && p.deadline == Some(due)
            && Overdue(p.Add(now, RequestId(now, Name(k + 1))), now, k + 1, due)
  {
    var p := z.RemoveByScore(0, now - windowMs);
    assert p.scores == map[RequestId(t, Name(k)) := t];
  }

  /** Instance k + 1 begins at that moment and passes. */
  lemma PassLater(sys: System, s: State, key: string, t: nat, k: nat, n: nat, due: nat) returns (s1: State, s': State)
    requires Chained(sys, s, key, t, k, n, due) && k + 1 < n && RoomForTwo(sys, key)
    ensures var now := t + sys.config.limits(key).windowMs - 1;
            && s1 == s.(clock := now) && Reachable(sys, s') && UnusedFrom(s1, key, k + 1, n) && !Taken(s1, k + 1)
            && Midway(s1, s', k + 1, Begun(Name(k + 1), key, now).(phase := AddGlobal), Pruned(sys, s1, key), Empty(),
                      Initial())
            && Pruned(sys, s1, key).deadline == Some(due)
            && Overdue(Pruned(sys, s1, key).Add(now, RequestId(now, Name(k + 1))), now, k + 1, due)
  {
    hide ZSet.RemoveByScore, ZSet.Add, ZSet.Card, Overdue, Reachable, Unused, UnusedFrom, Midway, InFlight, Name;
    var w := sys.config.limits(key).windowMs - 1;
    s1 := Step(sys, s, Tick(w));
    PruneOverdue(Lookup(s.store, Global(key)), t, k, due, w + 1, t + w);
    Reach(sys, s, Tick(w));
    UnusedAnyTime(s, t + w, key, k + 1, n);
    FirstUnused(s1, key, k + 1, n);
    NobodyInFlight(s1, key);
    s' := PassOne(sys, s1, k + 1, key);
  }

  lemma NobodyInFlight(s: State, key: string)
    requires s.calls == map[]
    ensures InFlight(s.calls, key) == {}
  {
  }

  lemma ChainNext(sys: System, s: State, key: string, t: nat, k: nat, n: nat, due: nat) returns (s': State)
    requires Chained(sys, s, key, t, k, n, due) && k + 1 < n && RoomForTwo(sys, key)
    ensures Chained(sys, s', key, t + sys.config.limits(key).windowMs - 1, k + 1, n, due)
  {
    var now := t + sys.config.limits(key).windowMs - 1;
    var c := Begun(Name(k + 1), key, now).(phase := AddGlobal);
    assert s.calls == map[];
    hide Reachable, Midway, ZSet.Add, Overdue, Pruned, Unused, Name, Chained, Otherwise;
    var s1;
    s1, s' := PassLater(sys, s, key, t, k, n, due);
    var g0 := Pruned(sys, s1, key);
    s' := AddLost(sys, s1, s', k + 1, c, g0, Empty());
    EndsUnused(s1, s', key, k + 1, n, c, g0.Add(now, c.Id()), Empty(), Initial().RecordFailure(sys.config.policy, now),
               false);
    NowChained(sys, s', key, now, k + 1, n, due);
  }

  lemma NowChained(sys: System, s: State, key: string, t: nat, k: nat, n: nat, due: nat)
    requires Reachable(sys, s) && s.clock == t && s.calls == map[] && UnusedFrom(s, key, k + 1, n)
    requires Overdue(Lookup(s.store, Global(key)), t, k, due)
    ensures Chained(sys, s, key, t, k, n, due)
  {
  }

  /** Further such calls, until the time to live ends within the next window. */
  lemma {:induction false} ChainUp(sys: System, s: State, key: string, t: nat, k: nat, n: nat, due: nat)
    returns (s': State, t': nat, k': nat)
    requires Chained(sys, s, key, t, k, n, due) && k <= t && due < n && RoomForTwo(sys, key)
    requires t + sys.config.limits(key).windowMs - 1 < due
    ensures Chained(sys, s', key, t', k', n, due) && k' <= t'
    ensures var w := sys.config.limits(key).windowMs - 1; t' + w < due <= t' + w + w
    decreases due - t
  {
    var w := sys.config.limits(key).windowMs - 1;
    hide Chained;
    if due <= t + w + w {
      s', t', k' := s, t, k;
    } else {
      s' := ChainNext(sys, s, key, t, k, n, due);
      s', t', k' := ChainUp(sys, s', key, t + w, k + 1, n, due);
    }
  }

  lemma TickAndEvict(sys: System, s0: State, s: State, key: string, id: nat, c: Call, g: ZSet, d: ZSet, due: nat)
    returns (s': State)
    requires Reachable(sys, s) && id !in s0.calls && s0.calls == map[] && s0.clock <= due && g.deadline == Some(due)
    requires Midway(s0, s, id, c, g, d, Initial()) && c.key == key && c.phase.ExpireGlobal? && !c.wiped
    ensures Reachable(sys, s') && Midway(s0.(clock := due), s', id, c.(evicted := true), Empty(), d, Initial())
  {
    var s1 := Step(sys, s, Tick(due - s0.clock));
    s' := Step(sys, s1, Evict(Global(key)));
    Reach(sys, s, Tick(due - s0.clock));
    Reach(sys, s1, Evict(Global(key)));
    assert Lookup(s1.store, Global(key)) == g && g.Evict(due) == Empty();
    assert g != Empty();
    hide Reachable;
    assert s'.calls == map[id := c.(evicted := true)];
  }

  /** The call that stores its entry just before, and is allowed just after the key was dropped. */
  lemma LostGrant(sys: System, s: State, key: string, t: nat, k: nat, n: nat, due: nat) returns (s': State)
    requires Chained(sys, s, key, t, k, n, due) && k + 1 < n && RoomForTwo(sys, key)
    requires var w := sys.config.limits(key).windowMs - 1; t + w < due <= t + w + w
    ensures Between(sys, s', key, due, k + 2, 0, n)
    ensures Granted(k + 1, key, RequestId(t + sys.config.limits(key).windowMs - 1, Name(k + 1)), true) in s'.granted
  {
    var now := t + sys.config.limits(key).windowMs - 1;
    var j, c := k + 1, Begun(Name(k + 1), key, now).(phase := AddGlobal);
    assert s.calls == map[];
    hide Reachable, Midway, ZSet.Expire, Overdue, Pruned, Unused, Name, Chained, Otherwise, TtlSeconds;
    var s1;
    s1, s' := PassLater(sys, s, key, t, k, n, due);
    var g0 := Pruned(sys, s1, key);
    s' := AddOne(sys, s1, s', j, c, g0, Empty());
    s' := AddOwn(sys, s1, s', j, c.(phase := AddLocal), g0.Add(now, c.Id()), Empty());
    s' := TickAndEvict(sys, s1, s', key, j, c.(phase := ExpireGlobal), g0.Add(now, c.Id()), Empty().Add(now, c.Id()),
                       due);
    var late, c', d := s1.(clock := due), c.(phase := ExpireGlobal, evicted := true), Empty().Add(now, c.Id());
    s' := FinishOne(sys, late, s', j, c', Empty(), d);
    var ttl := TtlSeconds(sys.config.limits(key).windowMs, sys.config.ttlBuffer);
    LostEnd(sys, s1, late, s', key, k, n, due, c', d.Expire(ttl, due), ttl);
  }

  lemma LostEnd(sys: System, s1: State, late: State, s': State, key: string, k: nat, n: nat, due: nat, c: Call, d: ZSet,
                ttl: int)
    requires Reachable(sys, s') && late == s1.(clock := due) && s1.calls == map[] && UnusedFrom(s1, key, k + 1, n)
    requires c.key == key && c.instance == Name(k + 1) && c.evicted
    requires EndsAs(late, s', k + 1, c, Empty().Expire(ttl, due), d, Initial(), true)
    ensures Between(sys, s', key, due, k + 2, 0, n) && Granted(k + 1, key, c.Id(), true) in s'.granted
  {
    assert Empty().Expire(ttl, due) == Empty() && Ids(due, k + 2, 0) == {};
    UnusedAnyTime(s1, due, key, k + 1, n);
    hide Reachable, Unused, UnusedFrom, Name, Otherwise;
    EndsUnused(late, s', key, k + 1, n, c, Empty(), d, Initial(), true);
  }

  /** For every limit of at least two, every window of at least two milliseconds and every C: a
      run in which every call has an instance of its own, and the window holds one granted call
      more than the bound. */
  lemma LostGrantOverfills(config: Config, cap: nat, key: string) returns (registries: D.Registries, ls: seq<Label>)
    requires config.limits(key).maxRequests >= 2 && config.limits(key).windowMs >= 2 && cap >= 1
    requires config.limits(key).TtlHarmless(config.ttlBuffer)
    ensures var s, lim := Run(System(config, cap, registries), ls), config.limits(key);
            Paced(s, key) && |LiveGranted(s, key, lim.windowMs, true)| > Ceiling(lim, cap)
  {
    var lim, most := config.limits(key), Ceiling(config.limits(key), cap);
    var due := Expiry(TtlSeconds(lim.windowMs, config.ttlBuffer), 0);
    var n := due + 2 + most;
    var sys := Lonely(config, cap, n);
    registries := sys.registries;
    assert sys == System(config, cap, registries);
    hide Lonely, Start, Between, Crowd, Chained, TtlSeconds, Grants, Reachable, Holds, Waiting, UnusedFrom, LiveGranted;
    var s, t, k := LostAndDue(sys, key, n, due);
    s := FillUp(sys, s, key, due, k + 2, n, true);
    ls := RunOf(sys, s, key);
    OneTooMany(s, key, lim.windowMs, due, k, most, RequestId(t + lim.windowMs - 1, Name(k + 1)));
  }

  /** The run up to the moment when the call is lost. */
  lemma LostAndDue(sys: System, key: string, n: nat, due: nat) returns (s: State, t: nat, k: nat)
    requires sys == Lonely(sys.config, sys.cap, n) && RoomForTwo(sys, key) && due == Due(sys, key) && due + 2 <= n
    requires sys.config.limits(key).TtlHarmless(sys.config.ttlBuffer)
    ensures var now := t + sys.config.limits(key).windowMs - 1;
            && k <= t && now < due <= now + sys.config.limits(key).windowMs - 1
            && Between(sys, s, key, due, k + 2, 0, n)
            && Granted(k + 1, key, RequestId(now, Name(k + 1)), true) in s.granted
  {
    StartsBetween(sys.config, sys.cap, n, key);
    assert Lookup(Start(sys).store, Global(key)) == Empty();
    hide Lonely, Start, Between, Chained, TtlSeconds;
    s := FirstCall(sys, Start(sys), key, n);
    s, t, k := ChainUp(sys, s, key, 0, 0, n, due);
    s := LostGrant(sys, s, key, t, k, n, due);
  }

  lemma RunOf(sys: System, s: State, key: string) returns (ls: seq<Label>)
    requires Reachable(sys, s)
    ensures Run(sys, ls) == s && Paced(s, key)
  {
    ls :| Run(sys, ls) == s && forall l :: l in ls ==> OwnName(l);
    OwnNamesPace(sys, ls, key);
  }

  lemma OneTooMany(s: State, key: string, windowMs: int, due: nat, k: nat, most: nat, lost: RequestId)
    requires s.clock == due && due - windowMs < lost.at && windowMs >= 1
    requires Granted(k + 1, key, lost, true) in s.granted && Grants(key, due, k + 2, most) <= s.granted
    ensures |LiveGranted(s, key, windowMs, true)| > most
  {
    hide Name;
    GrantsCard(key, due, k + 2, most);
    SubsetCard(Grants(key, due, k + 2, most) + {Granted(k + 1, key, lost, true)}, LiveGranted(s, key, windowMs, true));
  }

  /** If no instance begins two calls on the key in one millisecond: the calls granted in the
      current window, those about to store their entry included, stay within maxRequests + C - 1
      in all interleavings of all instances if and only if nobody calls, the limit is at most
      one, or the window is a single millisecond. */
  lemma PacedBoundIff(config: Config, cap: nat, key: string)
    requires config.limits(key).TtlHarmless(config.ttlBuffer)
    ensures (forall registries: D.Registries, ls :: Paced(Run(System(config, cap, registries), ls), key) ==>
               var s, lim := Run(System(config, cap, registries), ls), config.limits(key);
               |LiveGranted(s, key, lim.windowMs, true)| + |PassedCalls(s.calls, key)| <= Ceiling(lim, cap))
        <==> (cap < 1 || config.limits(key).maxRequests <= 1 || config.limits(key).windowMs <= 1)
  {
    hide Run, Limit.TtlHarmless, LiveGranted, PassedCalls, Paced;
    var lim := config.limits(key);
    if cap < 1 || Tolerant(lim) {
      forall registries: D.Registries, ls | Paced(Run(System(config, cap, registries), ls), key)
        ensures var s := Run(System(config, cap, registries), ls);
                |LiveGranted(s, key, lim.windowMs, true)| + |PassedCalls(s.calls, key)| <= Ceiling(lim, cap)
      {
        var sys := System(config, cap, registries);
        if Tolerant(lim) { GrantedWindowBound(sys, ls, key); } else { NoCalls(sys, ls, key); }
      }
    } else {
      var registries, ls := LostGrantOverfills(config, cap, key);
      var s := Run(System(config, cap, registries), ls);
      assert |LiveGranted(s, key, lim.windowMs, true)| + |PassedCalls(s.calls, key)| > Ceiling(lim, cap);
    }
  }
}
