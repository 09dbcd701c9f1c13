/** Calls that begin before the life of the set ends and look at the set after that: all of them
    are granted, with the timestamp of their beginning. */
module InterleavingLateCalls {
  import opened Redis
  import opened CircuitBreaker
  import opened WindowLog
  import opened RateLimitTypes
  import D = Distributed
  import opened DistributedInterleaving
  import opened InterleavingBreaker
  import opened InterleavingRuns
  import opened InterleavingTightness

  /** Calls j with a <= j < b stand at one phase with the timestamp `at`, and nothing else has
      happened to their instances. */
  ghost predicate Team(s: State, key: string, at: nat, phase: Phase, a: nat, b: nat) {
    forall j :: a <= j < b ==>
      Unused(s, key, j) && j in s.calls && s.calls[j] == Begun(Name(j), key, at).(phase := phase)
  }

  lemma TeamGrows(s: State, key: string, at: nat, phase: Phase, a: nat, b: nat)
    requires a < b
    ensures Team(s, key, at, phase, a, b) <==> Team(s, key, at, phase, a, b - 1) && Team(s, key, at, phase, b - 1, b)
    ensures Team(s, key, at, phase, a, b) <==> Team(s, key, at, phase, a, a + 1) && Team(s, key, at, phase, a + 1, b)
  {
    hide Unused, Begun, Name;
  }

  /** What one call does leaves the others of a team where they are. */
  lemma TeamStays(s0: State, s: State, c: Call, g: ZSet, d: ZSet, key: string, j: nat, at: nat, phase: Phase, a: nat,
                  b: nat)
    requires Otherwise(s0, s, c, g, d, Initial()) && c.instance == Name(j) && c.key == key && !(a <= j < b)
    requires forall i :: i != j ==> (i in s.calls <==> i in s0.calls) && (i in s0.calls ==> s.calls[i] == s0.calls[i])
    requires Team(s0, key, at, phase, a, b)
    ensures Team(s, key, at, phase, a, b)
  {
    hide Otherwise, Unused, Begun, Name;
    forall i | i != j && Unused(s0, key, i) ensures Unused(s, key, i) {
      OthersUnused(s0, s, c, g, d, Initial(), key, j, i);
    }
  }

  /** One call that came as far as `phase`, for the first time or from an earlier phase. */
  lemma OneMoved(s0: State, s: State, key: string, at: nat, j: nat, phase: Phase, g: ZSet)
    requires Unused(s0, key, j)
    requires Midway(s0, s, j, Begun(Name(j), key, at).(phase := phase), g, Empty(), Initial())
    ensures Team(s, key, at, phase, j, j + 1) && Lookup(s.store, Global(key)) == g
    ensures s.clock == s0.clock && s.granted == s0.granted && s.calls.Keys == s0.calls.Keys + {j}
  {
    hide Name;
  }

  /** From s0 on, q calls have begun and nothing else has happened. */
  ghost predicate Started(sys: System, s0: State, s: State, key: string, a: nat, q: nat, n: nat) {
    && Reachable(sys, s) && s.clock == s0.clock && s.granted == s0.granted
    && Lookup(s.store, Global(key)) == Lookup(s0.store, Global(key))
    && Team(s, key, s0.clock, PruneGlobal, a, a + q) && UnusedFrom(s, key, a + q, n)
    && s.calls.Keys == Numbers(a, a + q)
  }

  lemma {:induction false} BeginMany(sys: System, s: State, key: string, a: nat, q: nat, n: nat) returns (s': State)
    requires Started(sys, s, s, key, a, 0, n) && a + q <= n && q <= sys.cap
    ensures Started(sys, s, s', key, a, q, n)
  {
    hide Started;
    s' := s;
    if q > 0 {
      var t := BeginMany(sys, s, key, a, q - 1, n);
      s' := BeginNext(sys, s, t, key, a, q - 1, n);
    }
  }

  lemma BeginNext(sys: System, s0: State, s: State, key: string, a: nat, q: nat, n: nat) returns (s': State)
    requires Started(sys, s0, s, key, a, q, n) && a + q < n && q < sys.cap
    ensures Started(sys, s0, s', key, a, q + 1, n)
  {
    hide Reachable, Unused, UnusedFrom, InFlight, Team, Midway, Numbers, Name, Begun, Step;
    var j := a + q;
    FewInFlight(s, key, a, q);
    FirstUnused(s, key, j, n);
    NumbersNext(a, q);
    s' := BeginThis(sys, s, key, j);
    TeamTakes(s, s', key, a, j, n);
  }

  /** One more call begins. */
  lemma BeginThis(sys: System, s: State, key: string, j: nat) returns (s': State)
    requires Reachable(sys, s) && Unused(s, key, j) && !Taken(s, j) && |InFlight(s.calls, key)| < sys.cap
    ensures Reachable(sys, s') && s'.clock == s.clock && s'.granted == s.granted
    ensures s'.calls.Keys == s.calls.Keys + {j} && Lookup(s'.store, Global(key)) == Lookup(s.store, Global(key))
    ensures Midway(s, s', j, Begun(Name(j), key, s.clock).(phase := PruneGlobal), Lookup(s.store, Global(key)),
                   Empty(), Initial())
    ensures Team(s', key, s.clock, PruneGlobal, j, j + 1)
  {
    hide Step, Reachable, Unused, InFlight, Team, Midway, Name, Begun;
    s' := Step(sys, s, Begin(j, Name(j), key));
    Reach(sys, s, Begin(j, Name(j), key));
    BeginOne(sys, s, j, key);
    BegunAtFirst(j, key, s.clock);
    OneMoved(s, s', key, s.clock, j, PruneGlobal, Lookup(s.store, Global(key)));
  }

  /** And the others stay where they are. */
  lemma TeamTakes(s: State, s': State, key: string, a: nat, j: nat, n: nat)
    requires Team(s, key, s.clock, PruneGlobal, a, j) && UnusedFrom(s, key, j, n) && a <= j
    requires Midway(s, s', j, Begun(Name(j), key, s.clock).(phase := PruneGlobal), Lookup(s.store, Global(key)),
                    Empty(), Initial())
    requires Team(s', key, s.clock, PruneGlobal, j, j + 1)
    ensures Team(s', key, s.clock, PruneGlobal, a, j + 1) && UnusedFrom(s', key, j + 1, n)
  {
    hide Team, UnusedFrom, Midway, Name, Begun;
    OthersStay(s, s', key, s.clock, j, PruneGlobal, Lookup(s.store, Global(key)), PruneGlobal, a, j);
    UnusedStay(s, s', key, s.clock, j, PruneGlobal, Lookup(s.store, Global(key)), n);
    TeamGrows(s', key, s.clock, PruneGlobal, a, j + 1);
  }

  lemma BegunAtFirst(j: nat, key: string, at: nat)
    ensures Begun(Name(j), key, at).(phase := PruneGlobal) == Begun(Name(j), key, at)
  {
  }

  lemma FewInFlight(s: State, key: string, a: nat, q: nat)
    requires s.calls.Keys == Numbers(a, a + q)
    ensures |InFlight(s.calls, key)| <= q
  {
    SubsetCard(InFlight(s.calls, key), s.calls.Keys);
  }

  lemma OthersStay(s0: State, s: State, key: string, at: nat, j: nat, phase: Phase, g: ZSet, other: Phase, a: nat,
                   b: nat)
    requires Midway(s0, s, j, Begun(Name(j), key, at).(phase := phase), g, Empty(), Initial()) && !(a <= j < b)
    requires Team(s0, key, at, other, a, b)
    ensures Team(s, key, at, other, a, b)
  {
    hide Otherwise, Team, Name;
    TeamStays(s0, s, Begun(Name(j), key, at).(phase := phase), g, Empty(), key, j, at, other, a, b);
  }

  /** The set is dropped while the team's calls have not looked at it yet. */
  lemma DropSet(sys: System, s: State, key: string, a: nat, b: nat) returns (s': State)
    requires Reachable(sys, s) && Expires(sys, s, key, s.clock) && Room(sys, key, 0, true)
    requires Team(s, key, s.clock, PruneGlobal, a, b) && s.calls.Keys == Numbers(a, b)
    ensures Reachable(sys, s') && Lookup(s'.store, Global(key)) == Empty() && s'.granted == s.granted
    ensures Team(s', key, s.clock, PruneGlobal, a, b)
  {
    var ms := 1000 * TtlSeconds(sys.config.limits(key).windowMs, sys.config.ttlBuffer) + 1;
    var s1 := Step(sys, s, Tick(ms));
    s' := Step(sys, s1, Evict(Global(key)));
    NoneStored(s, key, s.clock, a, b);
    hide Reachable, TtlSeconds, Team, Sweep;
    Reach(sys, s, Tick(ms));
    Reach(sys, s1, Evict(Global(key)));
    TeamUnaware(s, s', key, s.clock, a, b);
  }

  lemma NoneStored(s: State, key: string, at: nat, a: nat, b: nat)
    requires Team(s, key, at, PruneGlobal, a, b) && s.calls.Keys == Numbers(a, b)
    ensures Sweep(s.calls, key, false) == s.calls
  {
    hide Unused, Name;
  }

  lemma TeamUnaware(s: State, s': State, key: string, at: nat, a: nat, b: nat)
    requires s'.calls == s.calls && s'.instances == s.instances
    requires forall k :: k != Global(key) ==> Lookup(s'.store, k) == Lookup(s.store, k)
    requires Team(s, key, at, PruneGlobal, a, b)
    ensures Team(s', key, at, PruneGlobal, a, b)
  {
    hide Name, Begun;
  }

  /** The same state seen without one call of the team. */
  lemma Without(s: State, key: string, at: nat, phase: Phase, j: nat)
    requires Team(s, key, at, phase, j, j + 1)
    ensures var s0 := s.(calls := s.calls - {j});
            && Unused(s0, key, j) && s0.instances[Name(j)].registry == {Name(j)}
            && Midway(s0, s, j, Begun(Name(j), key, at).(phase := phase), Lookup(s.store, Global(key)), Empty(),
                      Initial())
  {
    assert Unused(s, key, j);
    hide Name;
  }

  lemma OthersWithout(s: State, key: string, at: nat, phase: Phase, j: nat, a: nat, b: nat)
    requires Team(s, key, at, phase, a, b) && !(a <= j < b)
    ensures Team(s.(calls := s.calls - {j}), key, at, phase, a, b)
  {
    hide Name, Begun;
  }

  /** Without any entry in the set all of them pass. */
  lemma {:induction false} PassAll(sys: System, s: State, key: string, at: nat, a: nat, m: nat, b: nat)
    returns (s': State)
    requires Reachable(sys, s) && Lookup(s.store, Global(key)) == Empty() && sys.config.limits(key).maxRequests >= 1
    requires a <= m <= b && Team(s, key, at, AddGlobal, a, m) && Team(s, key, at, PruneGlobal, m, b)
    ensures Reachable(sys, s') && s'.granted == s.granted && Team(s', key, at, AddGlobal, a, b)
    decreases b - m
  {
    hide Team, Reachable;
    if m == b {
      s' := s;
    } else {
      var t := PassThis(sys, s, key, at, a, m, b);
      s' := PassAll(sys, t, key, at, a, m + 1, b);
    }
  }

  lemma PassThis(sys: System, s: State, key: string, at: nat, a: nat, m: nat, b: nat) returns (s': State)
    requires Reachable(sys, s) && Lookup(s.store, Global(key)) == Empty() && sys.config.limits(key).maxRequests >= 1
    requires a <= m < b && Team(s, key, at, AddGlobal, a, m) && Team(s, key, at, PruneGlobal, m, b)
    ensures Reachable(sys, s') && s'.granted == s.granted && Lookup(s'.store, Global(key)) == Empty()
    ensures Team(s', key, at, AddGlobal, a, m + 1) && Team(s', key, at, PruneGlobal, m + 1, b)
  {
    hide Team, Reachable, Unused, Midway, Name, Begun;
    var s0 := s.(calls := s.calls - {m});
    TeamGrows(s, key, at, PruneGlobal, m, b);
    Without(s, key, at, PruneGlobal, m);
    OthersWithout(s, key, at, AddGlobal, m, a, m);
    OthersWithout(s, key, at, PruneGlobal, m, m + 1, b);
    s' := PassEmpty(sys, s0, s, key, at, m);
    OneMoved(s0, s', key, at, m, AddGlobal, Empty());
    OthersStay(s0, s', key, at, m, AddGlobal, Empty(), AddGlobal, a, m);
    OthersStay(s0, s', key, at, m, AddGlobal, Empty(), PruneGlobal, m + 1, b);
    TeamGrows(s', key, at, AddGlobal, a, m + 1);
  }

  lemma PassEmpty(sys: System, s0: State, s: State, key: string, at: nat, j: nat) returns (s': State)
    requires Reachable(sys, s) && j !in s0.calls && sys.config.limits(key).maxRequests >= 1
    requires Midway(s0, s, j, Begun(Name(j), key, at).(phase := PruneGlobal), Empty(), Empty(), Initial())
    requires s0.instances[Name(j)].registry == {Name(j)}
    ensures Reachable(sys, s')
    ensures Midway(s0, s', j, Begun(Name(j), key, at).(phase := AddGlobal), Empty(), Empty(), Initial())
  {
    var c, lim := Begun(Name(j), key, at), sys.config.limits(key);
    assert |s0.instances[c.instance].registry| == 1;
    assert Empty().RemoveByScore(0, at - lim.windowMs) == Empty() && Empty().Card() == 0;
    CountsPass(lim, sys.config.ttlBuffer, s0.clock, c, Empty());
    hide Reachable, Midway, Perform, Name, ZSet.RemoveByScore, ZSet.Card;
    s' := GoesOn(sys, s0, s, j, c, Empty(), Empty(), Empty(), Empty(), CountGlobal);
    s' := GoesOn(sys, s0, s', j, c.(phase := CountGlobal), Empty(), Empty(), Empty(), Empty(), PruneLocal);
    s' := PassLocal(sys, s0, s', j, c.(phase := PruneLocal), Empty());
  }

  /** Then all of them store their entry and are allowed. */
  lemma {:induction false} GrantAll(sys: System, s: State, key: string, at: nat, m: nat, b: nat) returns (s': State)
    requires Reachable(sys, s) && m <= b && Team(s, key, at, AddGlobal, m, b)
    ensures Reachable(sys, s') && s'.granted == s.granted + Grants(key, at, m, b - m)
    decreases b - m
  {
    hide Team, Reachable, Grants;
    if m == b {
      s' := s;
      NoneOfMany(key, at, m);
    } else {
      var t := GrantThis(sys, s, key, at, m, b);
      s' := GrantAll(sys, t, key, at, m + 1, b);
      FirstOfMany(key, at, m, b - m);
    }
  }

  lemma GrantThis(sys: System, s: State, key: string, at: nat, m: nat, b: nat) returns (s': State)
    requires Reachable(sys, s) && m < b && Team(s, key, at, AddGlobal, m, b)
    ensures Reachable(sys, s') && s'.granted == s.granted + {Granted(m, key, RequestId(at, Name(m)), false)}
    ensures Team(s', key, at, AddGlobal, m + 1, b)
  {
    hide Team, Reachable, Unused, Midway, Otherwise, Name, ZSet.Add, ZSet.Expire, TtlSeconds;
    var s0, c, g := s.(calls := s.calls - {m}), Begun(Name(m), key, at), Lookup(s.store, Global(key));
    var g1, d1 := g.Add(at, c.Id()), Empty().Add(at, c.Id());
    TeamGrows(s, key, at, AddGlobal, m, b);
    Without(s, key, at, AddGlobal, m);
    OthersWithout(s, key, at, AddGlobal, m, m + 1, b);
    s' := AddOne(sys, s0, s, m, c.(phase := AddGlobal), g, Empty());
    s' := AddOwn(sys, s0, s', m, c.(phase := AddLocal), g1, Empty());
    s' := FinishOne(sys, s0, s', m, c.(phase := ExpireGlobal), g1, d1);
    var ttl := TtlSeconds(sys.config.limits(key).windowMs, sys.config.ttlBuffer);
    TeamStays(s0, s', c.(phase := ExpireGlobal), g1.Expire(ttl, s0.clock), d1.Expire(ttl, s0.clock), key, m, at,
              AddGlobal, m + 1, b);
  }

  /** From a moment with an empty set: M + C - 1 calls are granted. */
  lemma FirstCrowd(sys: System, s: State, key: string, at: nat, k: nat, most: nat, n: nat) returns (s': State)
    requires Between(sys, s, key, at, k, 0, n) && k + most <= n && sys.cap >= 1
    requires most == Ceiling(sys.config.limits(key), sys.cap) && Room(sys, key, 0, true)
    ensures Started(sys, s', s', key, k + most, 0, n) && Expires(sys, s', key, at) && s'.clock == at
    ensures s'.granted == s.granted + Grants(key, at, k, most)
  {
    hide Between, Crowd, TtlSeconds, Grants, Expires, Started, Limit.TtlHarmless;
    s' := FillUp(sys, s, key, at, k, n, true);
    CrowdIsIdle(sys, s', key, at, k, most, n);
  }

  lemma CrowdIsIdle(sys: System, s: State, key: string, at: nat, k: nat, most: nat, n: nat)
    requires Crowd(sys, s, key, at, k, most, k + most, k + most, n) && s.calls == map[]
    ensures Started(sys, s, s, key, k + most, 0, n) && s.clock == at
  {
    NoneOfTeam(s, key, at, PruneGlobal, k + most);
    hide Reachable, Holds, Waiting, UnusedFrom, Team, Numbers;
  }

  /** And then C more, all with the same timestamp. */
  lemma BothCrowds(sys: System, s: State, key: string, at: nat, k: nat, most: nat, n: nat) returns (s': State)
    requires Between(sys, s, key, at, k, 0, n) && k + most + sys.cap <= n && sys.cap >= 1
    requires most == Ceiling(sys.config.limits(key), sys.cap) && Room(sys, key, 0, true)
    ensures Reachable(sys, s') && s'.granted == s.granted + Grants(key, at, k, most + sys.cap)
  {
    hide Between, Reachable, Started, Expires, Grants, Room, Ceiling;
    s' := FirstCrowd(sys, s, key, at, k, most, n);
    s' := LateCalls(sys, s', key, k + most, sys.cap, n);
    SplitGrants(key, at, k, most, sys.cap);
  }

  /** Calls that begin before the set's life ends and look at it afterwards are all granted. */
  lemma LateCalls(sys: System, s: State, key: string, a: nat, q: nat, n: nat) returns (s': State)
    requires Started(sys, s, s, key, a, 0, n) && a + q <= n && q <= sys.cap
    requires Expires(sys, s, key, s.clock) && Room(sys, key, 0, true)
    ensures Reachable(sys, s') && s'.granted == s.granted + Grants(key, s.clock, a, q)
  {
    hide TtlSeconds, Grants, Team, Reachable, UnusedFrom, Numbers;
    s' := BeginMany(sys, s, key, a, q, n);
    s' := DropSet(sys, s', key, a, a + q);
    NoneOfTeam(s', key, s.clock, AddGlobal, a);
    hide Started, Expires;
    s' := PassAll(sys, s', key, s.clock, a, a, a + q);
    s' := GrantAll(sys, s', key, s.clock, a, a + q);
  }

  lemma NoneOfTeam(s: State, key: string, at: nat, phase: Phase, a: nat)
    ensures Team(s, key, at, phase, a, a) && Numbers(a, a) == {}
  {
  }
}
