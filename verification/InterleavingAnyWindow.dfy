/** Windows that end at any moment, not at the present one: a call takes its timestamp when it
    begins and may be granted after its window has passed, so such a window can hold C more. */
module InterleavingAnyWindow {
  import opened Redis
  import opened WindowLog
  import opened RateLimitTypes
  import D = Distributed
  import opened DistributedInterleaving
  import opened InterleavingHistory
  import opened InterleavingBounds
  import opened InterleavingEvictions
  import opened InterleavingCollisions
  import opened InterleavingRuns
  import opened InterleavingTightness
  import opened InterleavingLostGrants
  import opened InterleavingLateCalls

  /** The calls with a timestamp in (until - windowMs, until] that were granted; without `all`,
      only those whose entry was still in the set then. */
  function GrantedIn(s: State, key: string, windowMs: int, until: int, all: bool): set<Granted> {
    set x | x in s.granted && x.key == key && until - windowMs < x.id.at <= until && (all || !x.evicted)
  }

  /** The numbers of the calls in flight that may still be granted with such a timestamp. */
  function Open(s: State, key: string, until: int): set<nat> {
    set c | c in s.calls && s.calls[c].key == key && s.calls[c].now <= until
  }

  /** All these calls. */
  function Within(s: State, key: string, windowMs: int, until: int, all: bool): set<nat> {
    CallsOf(GrantedIn(s, key, windowMs, until, all)) + Open(s, key, until)
  }

  lemma WithinSplits(s: State, key: string, windowMs: int, until: int, all: bool)
    requires Recorded(s)
    ensures |Within(s, key, windowMs, until, all)| == |GrantedIn(s, key, windowMs, until, all)| + |Open(s, key, until)|
  {
    AsManyNumbers(s, GrantedIn(s, key, windowMs, until, all));
  }

  lemma ReplyJoinsNothing(s: State, s': State, id: nat, out: Outcome, key: string, windowMs: int, until: int, all: bool)
    requires id in s.calls && s'.calls == Moved(s.calls, id, s.calls[id], out)
    requires var c := s.calls[id];
             || s'.granted == s.granted
             || (s'.granted == s.granted + {Granted(id, c.key, c.Id(), c.evicted)} && out.Grant?)
    ensures Within(s', key, windowMs, until, all) <= Within(s, key, windowMs, until, all)
  {
  }

  lemma OthersJoinNothing(s: State, s': State, key: string, windowMs: int, until: int, all: bool)
    requires Undisturbed(s, s', key) || Overtaken(s, s', key, false) || Overtaken(s, s', key, true)
    requires until < s.clock
    ensures Within(s', key, windowMs, until, all) <= Within(s, key, windowMs, until, all)
  {
    hide ZSet.Evict;
  }

  /** Once the clock has left the window, nothing joins it any more. */
  lemma NothingJoins(sys: System, s: State, l: Label, key: string, windowMs: int, until: int, all: bool)
    requires until < Step(sys, s, l).clock
    ensures Within(Step(sys, s, l), key, windowMs, until, all) <= Within(s, key, windowMs, until, all)
  {
    hide OnReply, Within, Moved, PerformIn;
    if l.Command? {
      if l.call in s.calls {
        ReplyShape(sys, s, l.call, l.reply);
        ReplyJoinsNothing(s, Step(sys, s, l), l.call, PerformIn(sys, s, s.calls[l.call], l.reply).outcome, key,
                          windowMs, until, all);
      }
    } else if l.Tick? {
      TickJoinsNothing(s, l.ms, key, windowMs, until, all);
    } else {
      hide Step, Undisturbed, Overtaken;
      OtherSteps(sys, s, l, key);
      OthersJoinNothing(s, Step(sys, s, l), key, windowMs, until, all);
    }
  }

  lemma TickJoinsNothing(s: State, ms: nat, key: string, windowMs: int, until: int, all: bool)
    ensures Within(s.(clock := s.clock + ms), key, windowMs, until, all) == Within(s, key, windowMs, until, all)
  {
  }

  /** When the bound holds: whatever the callers do, or if they pace their calls. */
  ghost predicate Fits(lim: Limit, s: State, key: string, all: bool) {
    Calm(lim) || (Paced(s, key) && (all ==> Tolerant(lim)))
  }

  lemma FitsBefore(sys: System, s: State, l: Label, key: string, all: bool)
    requires Fits(sys.config.limits(key), Step(sys, s, l), key, all)
    ensures Fits(sys.config.limits(key), s, key, all)
  {
    BegunGrows(sys, s, l);
    hide Step;
    if Paced(Step(sys, s, l), key) {
      forall a, b | a in s.begun && b in s.begun && a != b && s.begun[a] == s.begun[b] ensures s.begun[a].key != key {
        assert a in Step(sys, s, l).begun && b in Step(sys, s, l).begun;
      }
    }
  }

  lemma BegunGrows(sys: System, s: State, l: Label)
    ensures forall id :: id in s.begun ==> id in Step(sys, s, l).begun && Step(sys, s, l).begun[id] == s.begun[id]
  {
    hide PerformIn, Operate, InFlight, Sweep, ZSet.Evict;
  }

  /** Every window of timestamps, wherever it ends: at most maxRequests + 2 * C - 1 calls of it are
      ever granted, those in flight included. */
  lemma AnyWindowBound(sys: System, ls: seq<Label>, key: string, until: nat, all: bool)
    requires var lim := sys.config.limits(key);
             lim.TtlHarmless(sys.config.ttlBuffer) && Fits(lim, Run(sys, ls), key, all)
    ensures var s, lim := Run(sys, ls), sys.config.limits(key);
            |GrantedIn(s, key, lim.windowMs, until, all)| + |Open(s, key, until)| <= Ceiling(lim, sys.cap) + sys.cap
  {
    hide Run, GrantedIn, Open, Within, Limit.TtlHarmless, Ceiling, Recorded, Fits;
    RunRecorded(sys, ls);
    WithinSplits(Run(sys, ls), key, sys.config.limits(key).windowMs, until, all);
    WithinBound(sys, ls, key, until, all);
  }

  lemma {:induction false} WithinBound(sys: System, ls: seq<Label>, key: string, until: nat, all: bool)
    requires var lim := sys.config.limits(key);
             lim.TtlHarmless(sys.config.ttlBuffer) && Fits(lim, Run(sys, ls), key, all)
    ensures var s, lim := Run(sys, ls), sys.config.limits(key);
            |Within(s, key, lim.windowMs, until, all)| <= Ceiling(lim, sys.cap) + sys.cap
  {
    RunSteps(sys, ls);
    hide Run, Step, Start, Within, Limit.TtlHarmless, Fits, Ceiling;
    if Run(sys, ls).clock <= until {
      PresentWindow(sys, ls, key, until, all);
    } else {
      var before, w := ls[..|ls| - 1], sys.config.limits(key).windowMs;
      FitsBefore(sys, Run(sys, before), ls[|ls| - 1], key, all);
      WithinBound(sys, before, key, until, all);
      NothingJoins(sys, Run(sys, before), ls[|ls| - 1], key, w, until, all);
      SubsetCard(Within(Run(sys, ls), key, w, until, all), Within(Run(sys, before), key, w, until, all));
    }
  }

  lemma RunSteps(sys: System, ls: seq<Label>)
    ensures if ls == [] then Run(sys, ls).clock == 0
            else Run(sys, ls) == Step(sys, Run(sys, ls[..|ls| - 1]), ls[|ls| - 1])
  {
    hide Step;
  }

  /** As long as the window has not passed it lies in the present one. */
  lemma PresentWindow(sys: System, ls: seq<Label>, key: string, until: nat, all: bool)
    requires var lim := sys.config.limits(key);
             lim.TtlHarmless(sys.config.ttlBuffer) && Fits(lim, Run(sys, ls), key, all)
    requires Run(sys, ls).clock <= until
    ensures var s, lim := Run(sys, ls), sys.config.limits(key);
            |Within(s, key, lim.windowMs, until, all)| <= Ceiling(lim, sys.cap) + sys.cap
  {
    hide Run, GrantedIn, Open, LiveGranted, InFlight, Limit.TtlHarmless, Tolerant, Calm, Paced, Recorded, Ceiling;
    hide PassedCalls, Within;
    var s, lim := Run(sys, ls), sys.config.limits(key);
    RunRecorded(sys, ls);
    WithinSplits(s, key, lim.windowMs, until, all);
    GrantedInPresent(s, key, lim.windowMs, until, all);
    FewerCounted(s, key, lim.windowMs, all);
    if Calm(lim) {
      CalmWindowBound(sys, ls, key);
    } else if all {
      GrantedWindowBound(sys, ls, key);
    } else {
      CountedWindowBound(sys, ls, key);
    }
    OvershootBound(sys, ls, key);
  }

  lemma GrantedInPresent(s: State, key: string, windowMs: int, until: nat, all: bool)
    requires s.clock <= until
    ensures |GrantedIn(s, key, windowMs, until, all)| <= |LiveGranted(s, key, windowMs, all)|
    ensures |Open(s, key, until)| <= |InFlight(s.calls, key)|
  {
    SubsetCard(GrantedIn(s, key, windowMs, until, all), LiveGranted(s, key, windowMs, all));
    SubsetCard(Open(s, key, until), InFlight(s.calls, key));
  }

  /** That many are reached by paced calls, for every limit M >= 1, every C >= 1 and every window:
      M + C - 1 calls are granted, C more begin in the same millisecond and look only after the
      set's life has ended. */
  lemma AnyWindowBoundReached(config: Config, cap: nat, key: string) returns (registries: D.Registries, ls: seq<Label>)
    requires config.limits(key).maxRequests >= 1 && config.limits(key).windowMs >= 1 && cap >= 1
    requires config.limits(key).TtlHarmless(config.ttlBuffer)
    ensures var s, lim := Run(System(config, cap, registries), ls), config.limits(key);
            Paced(s, key) && |GrantedIn(s, key, lim.windowMs, 0, false)| == Ceiling(lim, cap) + cap
  {
    var lim, most := config.limits(key), Ceiling(config.limits(key), cap);
    var sys := Lonely(config, cap, most + cap);
    registries := sys.registries;
    assert sys == System(config, cap, registries);
    hide Lonely, Reachable, GrantedIn, Grants, Run, Paced, TtlSeconds;
    var s := CrowdsFromStart(sys, key, most);
    ls := RunOf(sys, s, key);
    GrantsAreIn(s, key, lim.windowMs, 0, 0, most + cap);
    GrantsCard(key, 0, 0, most + cap);
  }

  lemma CrowdsFromStart(sys: System, key: string, most: nat) returns (s: State)
    requires sys == Lonely(sys.config, sys.cap, most + sys.cap) && sys.cap >= 1
    requires most == Ceiling(sys.config.limits(key), sys.cap) && Room(sys, key, 0, true)
    ensures Reachable(sys, s) && s.granted == Grants(key, 0, 0, most + sys.cap)
  {
    hide Lonely, Between, Reachable, Grants, Room;
    StartsBetween(sys.config, sys.cap, most + sys.cap, key);
    assert Start(sys).granted == {};
    hide Start;
    s := BothCrowds(sys, Start(sys), key, 0, 0, most, most + sys.cap);
  }

  lemma GrantsAreIn(s: State, key: string, windowMs: int, at: nat, k: nat, r: nat)
    requires Grants(key, at, k, r) <= s.granted && windowMs >= 1
    ensures Grants(key, at, k, r) <= GrantedIn(s, key, windowMs, at, false)
    ensures s.granted == Grants(key, at, k, r) ==> GrantedIn(s, key, windowMs, at, false) == Grants(key, at, k, r)
  {
    hide Name;
  }

  /** However the instances call: this bound holds of all windows in all interleavings if and only
      if nobody calls, the limit is at most one, or there is no window; whether or not calls are
      counted whose entry was evicted. */
  lemma AnyWindowBoundIff(config: Config, cap: nat, key: string, all: bool)
    requires config.limits(key).TtlHarmless(config.ttlBuffer)
    ensures (forall registries: D.Registries, ls, until: nat ::
               var s, lim := Run(System(config, cap, registries), ls), config.limits(key);
               |GrantedIn(s, key, lim.windowMs, until, all)| + |Open(s, key, until)| <= Ceiling(lim, cap) + cap)
        <==> (cap < 1 || Calm(config.limits(key)))
  {
    hide Run, Limit.TtlHarmless, GrantedIn, Open, Ceiling, Paced;
    var lim := config.limits(key);
    if cap < 1 || Calm(lim) {
      forall registries: D.Registries, ls, until: nat
        ensures var s := Run(System(config, cap, registries), ls);
                |GrantedIn(s, key, lim.windowMs, until, all)| + |Open(s, key, until)| <= Ceiling(lim, cap) + cap
      {
        var sys := System(config, cap, registries);
        if Calm(lim) { AnyWindowBound(sys, ls, key, until, all); } else { NobodyIsIn(sys, ls, key, until, all); }
      }
    } else {
      var registries, ls := AnyNumberIsGranted(config, cap, key, Ceiling(lim, cap) + cap + 1);
      var s := Run(System(config, cap, registries), ls);
      AllAreIn(s, key, lim.windowMs, all);
      assert |GrantedIn(s, key, lim.windowMs, 0, all)| + |Open(s, key, 0)| > Ceiling(lim, cap) + cap;
    }
  }

  lemma AllAreIn(s: State, key: string, windowMs: int, all: bool)
    requires windowMs >= 1 && forall x :: x in s.granted ==> x.key == key && x.id.at == 0 && !x.evicted
    ensures GrantedIn(s, key, windowMs, 0, all) == s.granted
  {
  }

  lemma NobodyIsIn(sys: System, ls: seq<Label>, key: string, until: nat, all: bool)
    requires sys.cap == 0
    ensures |GrantedIn(Run(sys, ls), key, sys.config.limits(key).windowMs, until, all)| == 0
    ensures |Open(Run(sys, ls), key, until)| == 0
  {
    NoCalls(sys, ls, key);
    hide Run;
    assert GrantedIn(Run(sys, ls), key, sys.config.limits(key).windowMs, until, all) == {};
    assert Open(Run(sys, ls), key, until) == {};
  }

  /** If no instance begins two calls on the key in one millisecond it always holds of the calls
      whose entry was still in the set; and of all of them if and only if, besides, evictions
      are tolerated or nobody calls. */
  lemma PacedAnyWindowIff(config: Config, cap: nat, key: string, all: bool)
    requires config.limits(key).TtlHarmless(config.ttlBuffer)
    ensures (forall registries: D.Registries, ls, until: nat :: Paced(Run(System(config, cap, registries), ls), key) ==>
               var s, lim := Run(System(config, cap, registries), ls), config.limits(key);
               |GrantedIn(s, key, lim.windowMs, until, all)| + |Open(s, key, until)| <= Ceiling(lim, cap) + cap)
        <==> (!all || cap < 1 || Tolerant(config.limits(key)))
  {
    hide Run, Limit.TtlHarmless, GrantedIn, Open, Ceiling, Paced;
    var lim := config.limits(key);
    if !all || cap < 1 || Tolerant(lim) {
      forall registries: D.Registries, ls, until: nat | Paced(Run(System(config, cap, registries), ls), key)
        ensures var s := Run(System(config, cap, registries), ls);
                |GrantedIn(s, key, lim.windowMs, until, all)| + |Open(s, key, until)| <= Ceiling(lim, cap) + cap
      {
        var sys := System(config, cap, registries);
        if cap < 1 { NobodyIsIn(sys, ls, key, until, all); } else { AnyWindowBound(sys, ls, key, until, all); }
      }
    } else {
      var registries, ls, until := LostAndLate(config, cap, key);
      var s := Run(System(config, cap, registries), ls);
      assert |GrantedIn(s, key, lim.windowMs, until, true)| + |Open(s, key, until)| > Ceiling(lim, cap) + cap;
    }
  }

  /** One lost call, then both crowds at the moment of the eviction. */
  lemma LostAndLate(config: Config, cap: nat, key: string)
    returns (registries: D.Registries, ls: seq<Label>, until: nat)
    requires config.limits(key).maxRequests >= 2 && config.limits(key).windowMs >= 2 && cap >= 1
    requires config.limits(key).TtlHarmless(config.ttlBuffer)
    ensures var s, lim := Run(System(config, cap, registries), ls), config.limits(key);
            Paced(s, key) && |GrantedIn(s, key, lim.windowMs, until, true)| > Ceiling(lim, cap) + cap
  {
    var lim, most := config.limits(key), Ceiling(config.limits(key), cap);
    until := Expiry(TtlSeconds(lim.windowMs, config.ttlBuffer), 0);
    var n := until + 2 + most + cap;
    var sys := Lonely(config, cap, n);
    registries := sys.registries;
    assert sys == System(config, cap, registries);
    hide Lonely, Between, Reachable, TtlSeconds, Grants, GrantedIn, Run, Paced;
    var s, t, k := LostAndDue(sys, key, n, until);
    s := BothCrowds(sys, s, key, until, k + 2, most, n);
    ls := RunOf(sys, s, key);
    OneTooManyIn(s, key, lim.windowMs, until, k, most + cap, RequestId(t + lim.windowMs - 1, Name(k + 1)));
  }

  lemma OneTooManyIn(s: State, key: string, windowMs: int, due: nat, k: nat, most: nat, lost: RequestId)
    requires due - windowMs < lost.at <= due && windowMs >= 1
    requires Granted(k + 1, key, lost, true) in s.granted && Grants(key, due, k + 2, most) <= s.granted
    ensures |GrantedIn(s, key, windowMs, due, true)| > most
  {
    hide Name;
    GrantsCard(key, due, k + 2, most);
    SubsetCard(Grants(key, due, k + 2, most) + {Granted(k + 1, key, lost, true)},
               GrantedIn(s, key, windowMs, due, true));
  }
}
