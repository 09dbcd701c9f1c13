/** The overshoot bound is reached, for every limit and every number of calls in flight. */
module InterleavingTightness {
  import opened Options
  import opened Redis
  import opened CircuitBreaker
  import opened WindowLog
  import opened RateLimitTypes
  import D = Distributed
  import opened DistributedInterleaving
  import opened InterleavingBounds
  import opened InterleavingBreaker
  import opened InterleavingRuns

  /** The request ids that instances k to k + r - 1 draw at one moment. */
  function Ids(at: nat, k: nat, r: nat): set<RequestId> { set j | k <= j < k + r :: RequestId(at, Name(j)) }

  lemma IdsNext(at: nat, k: nat, r: nat)
    ensures Ids(at, k, r + 1) == Ids(at, k, r) + {RequestId(at, Name(k + r))}
    ensures RequestId(at, Name(k + r)) !in Ids(at, k, r)
  {
    forall j | k <= j < k + r ensures Name(j) != Name(k + r) { NamesDiffer(j, k + r); }
  }

  lemma {:induction false} IdsCard(at: nat, k: nat, r: nat)
    ensures |Ids(at, k, r)| == r
  {
    if r == 0 {
      assert Ids(at, k, 0) == {};
    } else {
      IdsCard(at, k, r - 1);
      IdsNext(at, k, r - 1);
    }
  }

  /** Their calls, allowed with the entry in the set. Instance j makes call j. */
  function Grants(key: string, at: nat, k: nat, r: nat): set<Granted> {
    set j | k <= j < k + r :: Granted(j, key, RequestId(at, Name(j)), false)
  }

  lemma GrantsNext(key: string, at: nat, k: nat, r: nat)
    ensures Grants(key, at, k, r + 1)
              == Grants(key, at, k, r) + {Granted(k + r, key, RequestId(at, Name(k + r)), false)}
  {
    hide Name;
  }

  lemma {:induction false} GrantsCard(key: string, at: nat, k: nat, r: nat)
    ensures |Grants(key, at, k, r)| == r
  {
    hide Name;
    if r > 0 {
      GrantsCard(key, at, k, r - 1);
      GrantsNext(key, at, k, r - 1);
    }
  }

  /** The set holds what r instances from number k on stored at the present moment. */
  ghost predicate Holds(z: ZSet, at: nat, k: nat, r: nat) {
    z.scores.Keys == Ids(at, k, r) && forall m :: m in z.scores ==> z.scores[m] == at
  }

  lemma PruneHolds(z: ZSet, at: nat, k: nat, r: nat, windowMs: int)
    requires Holds(z, at, k, r) && windowMs >= 1
    ensures var p := z.RemoveByScore(0, at - windowMs); Holds(p, at, k, r) && p.Card() == r
  {
    var p := z.RemoveByScore(0, at - windowMs);
    assert p.scores == z.scores;
    assert |p.scores.Keys| == |p.scores|;
    IdsCard(at, k, r);
  }

  lemma AddHolds(z: ZSet, at: nat, k: nat, r: nat, seconds: int)
    requires Holds(z, at, k, r)
    ensures var a := z.Add(at, RequestId(at, Name(k + r)));
            Holds(a, at, k, r + 1) && (seconds > 0 ==> Holds(a.Expire(seconds, at), at, k, r + 1))
  {
    IdsNext(at, k, r);
  }

  /** The state between two calls: nothing in flight, instances from k + r on not used. */
  ghost predicate Between(sys: System, s: State, key: string, at: nat, k: nat, r: nat, n: nat) {
    && Reachable(sys, s) && s.clock == at && s.calls == map[]
    && Holds(Lookup(s.store, Global(key)), at, k, r) && UnusedFrom(s, key, k + r, n)
  }

  /** Other instances stay unused while one call runs. */
  lemma OthersUnused(s0: State, s: State, c: Call, g: ZSet, d: ZSet, b: Breaker, key: string, j: nat, i: nat)
    requires Otherwise(s0, s, c, g, d, b) && c.instance == Name(j) && i != j && Unused(s0, key, i) && c.key == key
    ensures Unused(s, key, i)
  {
    NamesDiffer(i, j);
  }

  ghost predicate Room(sys: System, key: string, r: nat, whole: bool) {
    var lim := sys.config.limits(key);
    r < lim.maxRequests && lim.windowMs >= 1 && sys.cap >= 1
    && (whole ==> TtlSeconds(lim.windowMs, sys.config.ttlBuffer) > 0)
  }

  /** One more entry below the limit: by a call that is allowed, or by one that loses its reply. */
  lemma StoreOne(sys: System, s: State, key: string, at: nat, k: nat, r: nat, n: nat, whole: bool) returns (s': State)
    requires Between(sys, s, key, at, k, r, n) && k + r < n && Room(sys, key, r, whole)
    ensures Between(sys, s', key, at, k, r + 1, n)
    ensures s'.granted == s.granted + if whole then {Granted(k + r, key, RequestId(at, Name(k + r)), false)} else {}
  {
    var j, id, ttl := k + r, RequestId(at, Name(k + r)),
                      TtlSeconds(sys.config.limits(key).windowMs, sys.config.ttlBuffer);
    var c, g0 := Begun(Name(j), key, at).(phase := AddGlobal), Pruned(sys, s, key);
    BetweenFacts(sys, s, key, at, k, r, n);
    s' := HoldsPasses(sys, s, key, at, k, r, j);
    AddHolds(g0, at, k, r, ttl);
    hide Between, ZSet.Add, ZSet.Expire, TtlSeconds, Holds, Midway, EndsAs, Reachable, Name, Pruned;
    if whole {
      s' := RestOfCall(sys, s, s', j, c, g0);
      StoredOne(sys, s, s', key, at, k, r, n, c, g0.Add(at, id).Expire(ttl, at), Empty().Add(at, id).Expire(ttl, at),
                Initial(), true);
    } else {
      s' := AddLost(sys, s, s', j, c, g0, Empty());
      StoredOne(sys, s, s', key, at, k, r, n, c, g0.Add(at, id), Empty(),
                Initial().RecordFailure(sys.config.policy, at), false);
    }
  }

  function Pruned(sys: System, s: State, key: string): ZSet {
    Lookup(s.store, Global(key)).RemoveByScore(0, s.clock - sys.config.limits(key).windowMs)
  }

  /** An unused instance's call passes while the entries held are fewer than the limit. */
  lemma HoldsPasses(sys: System, s: State, key: string, at: nat, k: nat, r: nat, j: nat) returns (s': State)
    requires Reachable(sys, s) && s.clock == at
    requires Holds(Lookup(s.store, Global(key)), at, k, r) && Room(sys, key, r, false)
    requires Unused(s, key, j) && !Taken(s, j) && |InFlight(s.calls, key)| < sys.cap
    ensures Reachable(sys, s') && Holds(Pruned(sys, s, key), at, k, r)
    ensures Midway(s, s', j, Begun(Name(j), key, at).(phase := AddGlobal), Pruned(sys, s, key), Empty(), Initial())
  {
    PruneHolds(Lookup(s.store, Global(key)), at, k, r, sys.config.limits(key).windowMs);
    hide ZSet.RemoveByScore, ZSet.Card, Holds, Unused, Midway, Reachable, Name, InFlight;
    s' := PassOne(sys, s, j, key);
  }

  lemma BetweenFacts(sys: System, s: State, key: string, at: nat, k: nat, r: nat, n: nat)
    requires Between(sys, s, key, at, k, r, n) && k + r < n
    ensures Reachable(sys, s) && s.clock == at && Holds(Lookup(s.store, Global(key)), at, k, r)
    ensures Unused(s, key, k + r) && !Taken(s, k + r) && |InFlight(s.calls, key)| == 0
  {
    assert InFlight(s.calls, key) == {};
  }

  /** From the first ZADD to the end of a call that is allowed. */
  lemma RestOfCall(sys: System, s0: State, s: State, id: nat, c: Call, g: ZSet) returns (s': State)
    requires Reachable(sys, s) && id !in s0.calls
    requires Midway(s0, s, id, c, g, Empty(), Initial()) && c.phase.AddGlobal? && !c.wiped
    requires c.now == s0.clock
    ensures Reachable(sys, s')
    ensures var ttl := TtlSeconds(sys.config.limits(c.key).windowMs, sys.config.ttlBuffer);
            EndsAs(s0, s', id, c, g.Add(c.now, c.Id()).Expire(ttl, c.now),
                   Empty().Add(c.now, c.Id()).Expire(ttl, c.now), Initial(), true)
  {
    hide ZSet.Add, ZSet.Expire, TtlSeconds, Midway, Reachable, Otherwise;
    var g1, d1 := g.Add(c.now, c.Id()), Empty().Add(c.now, c.Id());
    s' := AddOne(sys, s0, s, id, c, g, Empty());
    s' := AddOwn(sys, s0, s', id, c.(phase := AddLocal), g1, Empty());
    s' := FinishOne(sys, s0, s', id, c.(phase := ExpireGlobal), g1, d1);
    var ttl := TtlSeconds(sys.config.limits(c.key).windowMs, sys.config.ttlBuffer);
    AnyPhase(s0, s', id, c);
  }

  lemma StoredOne(sys: System, s: State, s': State, key: string, at: nat, k: nat, r: nat, n: nat, c: Call, g: ZSet,
                  d: ZSet, b: Breaker, allowed: bool)
    requires Between(sys, s, key, at, k, r, n) && k + r < n && Reachable(sys, s')
    requires c.key == key && c.instance == Name(k + r) && c.now == at && !c.evicted
    requires EndsAs(s, s', k + r, c, g, d, b, allowed) && Holds(g, at, k, r + 1)
    ensures Between(sys, s', key, at, k, r + 1, n)
    ensures s'.granted == s.granted + if allowed then {Granted(k + r, key, RequestId(at, Name(k + r)), false)} else {}
  {
    hide Holds, Reachable, Name, Unused;
    StillFree(s, s', k + r);
    forall j | k + r + 1 <= j < n ensures Unused(s', key, j) && !Taken(s', j) {
      OthersUnused(s, s', c, g, d, b, key, k + r, j);
    }
  }

  lemma StillFree(s0: State, s: State, id: nat)
    requires s.begun - {id} == s0.begun - {id}
    ensures forall i :: i != id ==> (i in s.begun <==> i in s0.begun)
  {
    forall i | i != id ensures i in s.begun <==> i in s0.begun {
      assert i in s.begun <==> i in s.begun - {id};
      assert i in s0.begun <==> i in s0.begun - {id};
    }
  }

  lemma {:induction false} StoreMany(sys: System, s: State, key: string, at: nat, k: nat, r: nat, n: nat, whole: bool)
    returns (s': State)
    requires Between(sys, s, key, at, k, 0, n) && k + r <= n && (r > 0 ==> Room(sys, key, r - 1, whole))
    ensures Between(sys, s', key, at, k, r, n)
    ensures s'.granted == s.granted + if whole then Grants(key, at, k, r) else {}
  {
    if r == 0 {
      s' := s;
    } else {
      hide Between;
      s' := StoreMany(sys, s, key, at, k, r - 1, n, whole);
      GrantsNext(key, at, k, r - 1);
      s' := StoreOne(sys, s', key, at, k, r - 1, n, whole);
    }
  }

  /** A call of instance j that has passed and not stored its entry yet. */
  ghost predicate Waiting(s: State, key: string, at: nat, j: nat) {
    Unused(s, key, j) && j in s.calls && s.calls[j] == Begun(Name(j), key, at).(phase := AddGlobal)
  }

  /** Calls j with a <= j < b wait, no others are in flight on the key before that. */
  ghost predicate Crowd(sys: System, s: State, key: string, at: nat, k: nat, r: nat, a: nat, b: nat, n: nat) {
    && Reachable(sys, s) && s.clock == at && Holds(Lookup(s.store, Global(key)), at, k, r)
    && (forall j :: a <= j < b ==> Waiting(s, key, at, j)) && UnusedFrom(s, key, b, n)
  }

  function Numbers(a: nat, b: nat): (r: set<nat>)
    ensures forall j :: j in r <==> a <= j < b
    ensures a <= b ==> |r| == b - a
  {
    if a >= b then {} else Numbers(a, b - 1) + {b - 1}
  }

  /** q calls pass one after the other, all on the same r entries. */
  lemma {:induction false} PassMany(sys: System, s: State, key: string, at: nat, k: nat, r: nat, q: nat, n: nat)
    returns (s': State)
    requires Between(sys, s, key, at, k, r, n) && k + r + q <= n && q <= sys.cap && Room(sys, key, r, false)
    ensures Crowd(sys, s', key, at, k, r, k + r, k + r + q, n)
    ensures s'.calls.Keys == Numbers(k + r, k + r + q) && s'.granted == s.granted
  {
    hide Between, Crowd, Numbers, Room;
    if q == 0 {
      s' := s;
      BetweenIsCrowd(sys, s, key, at, k, r, n);
    } else {
      s' := PassMany(sys, s, key, at, k, r, q - 1, n);
      s' := PassNext(sys, s', key, at, k, r, q - 1, n);
    }
  }

  lemma BetweenIsCrowd(sys: System, s: State, key: string, at: nat, k: nat, r: nat, n: nat)
    requires Between(sys, s, key, at, k, r, n)
    ensures Crowd(sys, s, key, at, k, r, k + r, k + r, n) && s.calls.Keys == Numbers(k + r, k + r)
  {
    hide Holds, Reachable, UnusedFrom, Waiting;
  }

  lemma PassNext(sys: System, s: State, key: string, at: nat, k: nat, r: nat, q: nat, n: nat) returns (s': State)
    requires Crowd(sys, s, key, at, k, r, k + r, k + r + q, n) && s.calls.Keys == Numbers(k + r, k + r + q)
    requires k + r + q < n && q < sys.cap && Room(sys, key, r, false)
    ensures Crowd(sys, s', key, at, k, r, k + r, k + r + q + 1, n) && s'.calls.Keys == Numbers(k + r, k + r + q + 1)
    ensures s'.granted == s.granted
  {
    hide Crowd, Holds, Unused, Waiting, Reachable, Midway, Name, Pruned, InFlight, Begun, Numbers;
    CrowdFacts(sys, s, key, at, k, r, q, n);
    s' := HoldsPasses(sys, s, key, at, k, r, k + r + q);
    NumbersNext(k + r, q);
    CrowdGrows(sys, s, s', key, at, k, r, k + r, k + r + q, n, Pruned(sys, s, key));
  }

  lemma CrowdGrows(sys: System, s: State, s': State, key: string, at: nat, k: nat, r: nat, a: nat, j: nat, n: nat,
                   g: ZSet)
    requires Crowd(sys, s, key, at, k, r, a, j, n) && a <= j < n && Reachable(sys, s') && Holds(g, at, k, r)
    requires Midway(s, s', j, Begun(Name(j), key, at).(phase := AddGlobal), g, Empty(), Initial())
    ensures Crowd(sys, s', key, at, k, r, a, j + 1, n)
    ensures s'.granted == s.granted && s'.calls.Keys == s.calls.Keys + {j}
  {
    hide Holds, Reachable, Midway, Waiting, Unused, UnusedFrom, Name, Begun;
    FirstUnused(s, key, j, n);
    WaitersStay(s, s', key, at, a, j, g);
    UnusedStay(s, s', key, at, j, AddGlobal, g, n);
    MidwayFacts(s, s', key, at, j, AddGlobal, g);
  }

  lemma NumbersNext(a: nat, q: nat)
    ensures Numbers(a, a + q + 1) == Numbers(a, a + q) + {a + q}
  {
  }

  lemma FirstUnused(s: State, key: string, j: nat, n: nat)
    requires UnusedFrom(s, key, j, n) && j < n
    ensures Unused(s, key, j) && !Taken(s, j)
  {
  }

  lemma MidwayFacts(s0: State, s: State, key: string, at: nat, j: nat, phase: Phase, g: ZSet)
    requires Midway(s0, s, j, Begun(Name(j), key, at).(phase := phase), g, Empty(), Initial())
    ensures s.clock == s0.clock && s.granted == s0.granted && Lookup(s.store, Global(key)) == g
    ensures s.calls.Keys == s0.calls.Keys + {j}
  {
  }

  lemma WaitersStay(s0: State, s: State, key: string, at: nat, a: nat, j: nat, g: ZSet)
    requires Midway(s0, s, j, Begun(Name(j), key, at).(phase := AddGlobal), g, Empty(), Initial())
    requires Unused(s0, key, j) && forall i :: a <= i < j ==> Waiting(s0, key, at, i)
    ensures forall i :: a <= i <= j ==> Waiting(s, key, at, i)
  {
    var c := Begun(Name(j), key, at).(phase := AddGlobal);
    NowWaiting(s0, s, g, key, at, j);
    forall i | a <= i < j ensures Waiting(s, key, at, i) {
      assert Waiting(s0, key, at, i);
      assert i in s0.calls && s.calls[i] == s0.calls[i];
      hide Otherwise, Waiting, Unused, Begun, Name;
      WaitingStays(s0, s, c, g, Empty(), Initial(), key, at, j, i);
    }
  }

  lemma UnusedStay(s0: State, s: State, key: string, at: nat, j: nat, phase: Phase, g: ZSet, n: nat)
    requires Midway(s0, s, j, Begun(Name(j), key, at).(phase := phase), g, Empty(), Initial())
    requires UnusedFrom(s0, key, j, n)
    ensures UnusedFrom(s, key, j + 1, n)
  {
    hide Otherwise, Unused, Name;
    StillFree(s0, s, j);
    forall i | j < i < n ensures Unused(s, key, i) && !Taken(s, i) {
      OthersUnused(s0, s, Begun(Name(j), key, at).(phase := phase), g, Empty(), Initial(), key, j, i);
    }
  }

  lemma NowWaiting(s0: State, s: State, g: ZSet, key: string, at: nat, j: nat)
    requires Unused(s0, key, j)
    requires Midway(s0, s, j, Begun(Name(j), key, at).(phase := AddGlobal), g, Empty(), Initial())
    ensures Waiting(s, key, at, j)
  {
  }

  lemma WaitingStays(s0: State, s: State, c: Call, g: ZSet, d: ZSet, b: Breaker, key: string, at: nat, j: nat, i: nat)
    requires Otherwise(s0, s, c, g, d, b) && c.instance == Name(j) && c.key == key && i != j && Waiting(s0, key, at, i)
    requires i in s.calls && s.calls[i] == s0.calls[i]
    ensures Waiting(s, key, at, i)
  {
    OthersUnused(s0, s, c, g, d, b, key, j, i);
    hide Otherwise, Unused;
  }

  lemma CrowdFacts(sys: System, s: State, key: string, at: nat, k: nat, r: nat, q: nat, n: nat)
    requires Crowd(sys, s, key, at, k, r, k + r, k + r + q, n)
    requires s.calls.Keys == Numbers(k + r, k + r + q) && k + r + q < n
    ensures Reachable(sys, s) && s.clock == at && Holds(Lookup(s.store, Global(key)), at, k, r)
    ensures Unused(s, key, k + r + q) && !Taken(s, k + r + q) && |InFlight(s.calls, key)| <= q
  {
    hide Reachable, Holds, Unused, Waiting;
    SubsetCard(InFlight(s.calls, key), s.calls.Keys);
  }

  /** The next waiting call stores its entry, and is allowed in the end or left there. */
  lemma AddNext(sys: System, s: State, key: string, at: nat, k: nat, r: nat, b: nat, n: nat, whole: bool)
    returns (s': State)
    requires Crowd(sys, s, key, at, k, r, k + r, b, n) && k + r < b
    requires whole ==> TtlSeconds(sys.config.limits(key).windowMs, sys.config.ttlBuffer) > 0
    ensures Crowd(sys, s', key, at, k, r + 1, k + r + 1, b, n)
    ensures s'.calls.Keys == s.calls.Keys - if whole then {k + r} else {}
    ensures s'.granted == s.granted + if whole then {Granted(k + r, key, RequestId(at, Name(k + r)), false)} else {}
    ensures whole ==> Expires(sys, s', key, at)
  {
    var j, id, ttl := k + r, RequestId(at, Name(k + r)),
                      TtlSeconds(sys.config.limits(key).windowMs, sys.config.ttlBuffer);
    var c, g, s0 := Begun(Name(j), key, at).(phase := AddGlobal), Lookup(s.store, Global(key)),
                    s.(calls := s.calls - {j});
    WaitingFacts(sys, s, key, at, k, r, b, n);
    AddHolds(g, at, k, r, ttl);
    hide Crowd, Holds, Unused, Waiting, Reachable, Name, TtlSeconds, ZSet.Add, ZSet.Expire, Otherwise;
    if whole {
      s' := RestOfCall(sys, s0, s, j, c, g);
      NowExpires(sys, s0, s', key, at, c, g, Empty().Add(at, id).Expire(ttl, at));
      CrowdShrinks(sys, s, s0, s', key, at, k, r, b, n, c, g.Add(at, id).Expire(ttl, at),
                   Empty().Add(at, id).Expire(ttl, at));
    } else {
      s' := AddOne(sys, s0, s, j, c, g, Empty());
      SameSets(s0, s', c, AddLocal, g.Add(at, id), Empty());
      CrowdShrinks(sys, s, s0, s', key, at, k, r, b, n, c, g.Add(at, id), Empty());
    }
  }

  /** The set's life ends as its TTL says, counted from that moment. */
  ghost predicate Expires(sys: System, s: State, key: string, at: nat) {
    Lookup(s.store, Global(key)).deadline
      == Some(Expiry(TtlSeconds(sys.config.limits(key).windowMs, sys.config.ttlBuffer), at))
  }

  lemma NowExpires(sys: System, s0: State, s: State, key: string, at: nat, c: Call, g: ZSet, d: ZSet)
    requires var ttl := TtlSeconds(sys.config.limits(key).windowMs, sys.config.ttlBuffer);
             ttl > 0 && Otherwise(s0, s, c, g.Add(at, c.Id()).Expire(ttl, at), d, Initial())
    requires c.key == key
    ensures Expires(sys, s, key, at)
  {
    assert c.Id() in g.Add(at, c.Id()).scores;
    hide TtlSeconds;
  }

  lemma SameSets(s0: State, s: State, c: Call, phase: Phase, g: ZSet, d: ZSet)
    requires Otherwise(s0, s, c.(phase := phase), g, d, Initial())
    ensures Otherwise(s0, s, c, g, d, Initial())
  {
  }

  lemma WaitingFacts(sys: System, s: State, key: string, at: nat, k: nat, r: nat, b: nat, n: nat)
    requires Crowd(sys, s, key, at, k, r, k + r, b, n) && k + r < b
    ensures var c, g, s0 := Begun(Name(k + r), key, at).(phase := AddGlobal), Lookup(s.store, Global(key)),
                            s.(calls := s.calls - {k + r});
            Reachable(sys, s) && s.clock == at && Holds(g, at, k, r) && Midway(s0, s, k + r, c, g, Empty(), Initial())
            && k + r in s.calls
  {
    assert Waiting(s, key, at, k + r);
    hide Reachable, Holds;
  }

  lemma CrowdShrinks(sys: System, s: State, s0: State, s': State, key: string, at: nat, k: nat, r: nat, b: nat, n: nat,
                     c: Call, g: ZSet, d: ZSet)
    requires Crowd(sys, s, key, at, k, r, k + r, b, n) && k + r < b && Reachable(sys, s') && Holds(g, at, k, r + 1)
    requires s0 == s.(calls := s.calls - {k + r}) && c.key == key && c.instance == Name(k + r)
    requires Otherwise(s0, s', c, g, d, Initial()) && s'.begun - {k + r} == s.begun - {k + r}
    requires forall i ::
               i != k + r ==> (i in s'.calls <==> i in s.calls) && (i in s.calls ==> s'.calls[i] == s.calls[i])
    ensures Crowd(sys, s', key, at, k, r + 1, k + r + 1, b, n)
  {
    var j := k + r;
    StillFree(s, s', j);
    forall i | j < i < b ensures Waiting(s', key, at, i) {
      assert Waiting(s, key, at, i);
      assert Waiting(s0, key, at, i) by { SameButCalls(s, s0, key, i); }
      hide Otherwise;
      WaitingStays(s0, s', c, g, d, Initial(), key, at, j, i);
    }
    forall i | b <= i < n ensures Unused(s', key, i) && !Taken(s', i) {
      assert Unused(s, key, i);
      SameButCalls(s, s0, key, i);
      hide Otherwise;
      OthersUnused(s0, s', c, g, d, Initial(), key, j, i);
    }
    hide Waiting, Unused, Holds, Reachable;
  }

  lemma SameButCalls(s: State, s0: State, key: string, i: nat)
    requires s0 == s.(calls := s0.calls)
    ensures Unused(s0, key, i) == Unused(s, key, i)
  {
  }

  lemma {:induction false} AddMany(sys: System, s: State, key: string, at: nat, k: nat, r: nat, q: nat, n: nat,
                                   whole: bool)
    returns (s': State)
    requires Crowd(sys, s, key, at, k, r, k + r, k + r + q, n)
    requires whole ==> TtlSeconds(sys.config.limits(key).windowMs, sys.config.ttlBuffer) > 0
    ensures Crowd(sys, s', key, at, k, r + q, k + r + q, k + r + q, n)
    ensures s'.calls.Keys == s.calls.Keys - if whole then Numbers(k + r, k + r + q) else {}
    ensures s'.granted == s.granted + if whole then Grants(key, at, k + r, q) else {}
    ensures if q == 0 then s' == s else whole ==> Expires(sys, s', key, at)
    decreases q
  {
    hide Crowd, Ids, Grants, Numbers, TtlSeconds, Name, Expires;
    if q == 0 {
      NoneOfMany(key, at, k + r);
      s' := s;
    } else {
      s' := AddNext(sys, s, key, at, k, r, k + r + q, n, whole);
      s' := AddMany(sys, s', key, at, k, r + 1, q - 1, n, whole);
      FirstOfMany(key, at, k + r, q);
    }
  }

  lemma NoneOfMany(key: string, at: nat, k: nat)
    ensures Numbers(k, k) == {} && Grants(key, at, k, 0) == {}
  {
    assert Ids(at, k, 0) == {};
  }

  lemma FirstOfMany(key: string, at: nat, k: nat, q: nat)
    requires q > 0
    ensures Numbers(k, k + q) == {k} + Numbers(k + 1, k + q)
    ensures Grants(key, at, k, q)
              == {Granted(k, key, RequestId(at, Name(k)), false)} + Grants(key, at, k + 1, q - 1)
  {
    FirstNumber(k, k + q);
    FirstGrant(key, at, k, q);
    hide Numbers, Name, Grants;
  }

  lemma FirstGrant(key: string, at: nat, k: nat, q: nat)
    requires q > 0
    ensures Grants(key, at, k, q)
              == {Granted(k, key, RequestId(at, Name(k)), false)} + Grants(key, at, k + 1, q - 1)
  {
    hide Name;
  }

  lemma FirstNumber(a: nat, b: nat)
    requires a < b
    ensures Numbers(a, b) == {a} + Numbers(a + 1, b)
  {
    hide Numbers;
  }

  /** For every limit M >= 1 and every C >= 1: M + C - 1 instances that each know only themselves
      bring the set to M + C - 1 entries, with no more than C calls in flight. */
  lemma OvershootReached(config: Config, cap: nat, key: string) returns (ls: seq<Label>)
    requires config.limits(key).maxRequests >= 1 && config.limits(key).windowMs >= 1 && cap >= 1
    ensures var most := Ceiling(config.limits(key), cap);
            Lookup(Run(Lonely(config, cap, most), ls).store, Global(key)).Card() == most
  {
    var n := config.limits(key).maxRequests + cap - 1;
    var sys := Lonely(config, cap, n);
    StartsBetween(config, cap, n, key);
    hide Lonely, Start, Between, Crowd;
    var s := FillUp(sys, Start(sys), key, 0, 0, n, false);
    ls := CrowdIsRun(sys, s, key, n);
  }

  lemma StartsBetween(config: Config, cap: nat, n: nat, key: string)
    ensures var sys := Lonely(config, cap, n);
            Between(sys, Start(sys), key, 0, 0, 0, n) && sys.cap == cap && sys.config == config
  {
    StartUnused(config, cap, n, key);
    assert Ids(0, 0, 0) == {};
    hide Start, Reachable, Unused;
  }

  /** From a moment with an empty set: maxRequests - 1 entries, then C calls that all pass, then
      all of their entries. With `whole`, every one of these calls is allowed in the end. */
  lemma FillUp(sys: System, s: State, key: string, at: nat, k: nat, n: nat, whole: bool) returns (s': State)
    requires Between(sys, s, key, at, k, 0, n) && k + sys.config.limits(key).maxRequests + sys.cap - 1 <= n
    requires Room(sys, key, 0, whole)
    ensures var most := sys.config.limits(key).maxRequests + sys.cap - 1;
            && Crowd(sys, s', key, at, k, most, k + most, k + most, n)
            && (whole ==> s'.granted == s.granted + Grants(key, at, k, most) && s'.calls == map[])
            && (whole && sys.cap > 0 ==> Expires(sys, s', key, at))
  {
    hide Between, Crowd, TtlSeconds, Grants, Numbers, Expires, Room;
    var m, q := sys.config.limits(key).maxRequests, sys.cap;
    RoomBelow(sys, key, whole);
    var s1 := AllPassed(sys, s, key, at, k, n, whole);
    s' := AddMany(sys, s1, key, at, k, m - 1, q, n, whole);
    SplitGrants(key, at, k, m - 1, q);
  }

  lemma AllPassed(sys: System, s: State, key: string, at: nat, k: nat, n: nat, whole: bool) returns (s': State)
    requires Between(sys, s, key, at, k, 0, n) && k + sys.config.limits(key).maxRequests + sys.cap - 1 <= n
    requires Room(sys, key, 0, whole)
    ensures var m := sys.config.limits(key).maxRequests;
            && m >= 1 && Crowd(sys, s', key, at, k, m - 1, k + m - 1, k + m - 1 + sys.cap, n)
            && s'.calls.Keys == Numbers(k + m - 1, k + m - 1 + sys.cap)
            && s'.granted == s.granted + if whole then Grants(key, at, k, m - 1) else {}
  {
    hide Between, Crowd, TtlSeconds, Grants, Numbers, Room;
    var m := sys.config.limits(key).maxRequests;
    RoomBelow(sys, key, whole);
    var s1 := StoreMany(sys, s, key, at, k, m - 1, n, whole);
    s' := PassMany(sys, s1, key, at, k, m - 1, sys.cap, n);
  }

  lemma RoomBelow(sys: System, key: string, whole: bool)
    requires Room(sys, key, 0, whole)
    ensures var m := sys.config.limits(key).maxRequests;
            && m >= 1 && sys.cap >= 1 && (m >= 2 ==> Room(sys, key, m - 2, whole)) && Room(sys, key, m - 1, false)
            && (whole ==> TtlSeconds(sys.config.limits(key).windowMs, sys.config.ttlBuffer) > 0)
  {
    hide TtlSeconds;
  }

  lemma SplitGrants(key: string, at: nat, k: nat, r: nat, q: nat)
    ensures Grants(key, at, k, r + q) == Grants(key, at, k, r) + Grants(key, at, k + r, q)
  {
    hide Name;
  }

  lemma CrowdIsRun(sys: System, s: State, key: string, n: nat) returns (ls: seq<Label>)
    requires Crowd(sys, s, key, 0, 0, n, n, n, n)
    ensures Run(sys, ls) == s && Lookup(s.store, Global(key)).Card() == n
  {
    ls :| Run(sys, ls) == s;
    var z := Lookup(s.store, Global(key));
    IdsCard(0, 0, n);
    assert |z.scores.Keys| == |z.scores|;
  }

  /** The set of a key stays within the limit in all interleavings, whoever the instances are, if
      and only if calls do not overlap or none is ever allowed. */
  lemma WithinLimitIff(config: Config, cap: nat, key: string)
    requires config.limits(key).windowMs >= 1
    ensures (forall registries: D.Registries, ls ::
               Lookup(Run(System(config, cap, registries), ls).store, Global(key)).Card()
                 <= config.limits(key).Capacity())
        <==> (cap <= 1 || config.limits(key).maxRequests < 1)
  {
    var lim := config.limits(key);
    if cap <= 1 || lim.maxRequests < 1 {
      forall registries: D.Registries, ls
        ensures Lookup(Run(System(config, cap, registries), ls).store, Global(key)).Card() <= lim.Capacity()
      {
        OvershootBound(System(config, cap, registries), ls, key);
      }
    } else {
      var ls := OvershootReached(config, cap, key);
      var registries := Lonely(config, cap, Ceiling(lim, cap)).registries;
      assert Lookup(Run(System(config, cap, registries), ls).store, Global(key)).Card() > lim.Capacity();
    }
  }
}
