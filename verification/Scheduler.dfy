/** libs/utils/src/Scheduler.ts: keyed timers on top of the host's timers. The host is part of
    the state: which of its timers are live, and for which kind and key each was created. */
module Scheduler {
  import opened Options

  datatype Kind = Interval | Timeout

  datatype Timer = Timer(kind: Kind, id: nat)

  datatype HostTimer = HostTimer(kind: Kind, key: string)

  /** `firing` is the key of the timeout whose callback is running. */
  datatype State = State(timers: map<string, Timer>, live: map<nat, HostTimer>, next: nat, firing: Option<string>)

  function Initial(): State { State(map[], map[], 0, None) }

  /** `clearInterval` or `clearTimeout` of one key: only a tracked timer of that kind. */
  function Cleared(s: State, kind: Kind, key: string): State {
    if key in s.timers && s.timers[key].kind == kind
    then s.(live := s.live - {s.timers[key].id}, timers := s.timers - {key})
    else s
  }

  /** A new host timer, tracked under its key in place of whatever was tracked there. */
  function Armed(s: State, kind: Kind, key: string): State {
    s.(live := s.live[s.next := HostTimer(kind, key)], timers := s.timers[key := Timer(kind, s.next)],
       next := s.next + 1)
  }

  function TrackedIds(timers: map<string, Timer>): set<nat> { set key | key in timers :: timers[key].id }

  datatype Label =
    | SetTimer(kind: Kind, key: string)
    | ClearKey(key: string)
    | ClearEvery
    | TimeoutFires(id: nat)
    | CallbackReturns

  /** Firings of what is not a live timeout, or while a callback runs, do not happen. An
      interval's firing only runs its callback, whose calls are labels of their own. */
  function Step(s: State, l: Label): State {
    match l
    case SetTimer(kind, key) => Armed(Cleared(s, kind, key), kind, key)
    case ClearKey(key) => Cleared(Cleared(s, Interval, key), Timeout, key)
    case ClearEvery => s.(live := s.live - TrackedIds(s.timers), timers := map[])
    case TimeoutFires(id) =>
      if s.firing.None? && id in s.live && s.live[id].kind.Timeout?
      then s.(live := s.live - {id}, firing := Some(s.live[id].key)) else s
    case CallbackReturns =>
      if s.firing.Some? then s.(timers := s.timers - {s.firing.value}, firing := None) else s
  }

  class Scheduler {
    var timers: map<string, Timer>
    var live: map<nat, HostTimer>
    var next: nat
    var firing: Option<string>

    function View(): State
      reads this
    {
      State(timers, live, next, firing)
    }

    constructor ()
      ensures View() == Initial()
    {
      timers, live, next, firing := map[], map[], 0, None;
    }

    method ClearKind(kind: Kind, key: string)
      modifies this
      ensures View() == Cleared(old(View()), kind, key)
    {
      if key in timers && timers[key].kind == kind {
        live := live - {timers[key].id};
        timers := timers - {key};
      }
    }

    method Arm(kind: Kind, key: string)
      modifies this
      ensures View() == Armed(old(View()), kind, key)
    {
      var id := next;
      next := next + 1;
      live := live[id := HostTimer(kind, key)];
      timers := timers[key := Timer(kind, id)];
    }

    method SetInterval(key: string)
      modifies this
      ensures View() == Step(old(View()), SetTimer(Interval, key))
      ensures timers == old(timers)[key := Timer(Interval, old(next))]
      ensures live == (if key in old(timers) && old(timers)[key].kind.Interval?
                       then old(live) - {old(timers)[key].id} else old(live))[old(next) := HostTimer(Interval, key)]
      ensures next == old(next) + 1 && firing == old(firing)
    {
      ClearKind(Interval, key);
      Arm(Interval, key);
    }

    method SetTimeout(key: string)
      modifies this
      ensures View() == Step(old(View()), SetTimer(Timeout, key))
      ensures timers == old(timers)[key := Timer(Timeout, old(next))]
      ensures live == (if key in old(timers) && old(timers)[key].kind.Timeout?
                       then old(live) - {old(timers)[key].id} else old(live))[old(next) := HostTimer(Timeout, key)]
      ensures next == old(next) + 1 && firing == old(firing)
    {
      ClearKind(Timeout, key);
      Arm(Timeout, key);
    }

    /** Whatever is tracked under the key, of either kind, is stopped and forgotten; nothing else is. */
    method Clear(key: string)
      modifies this
      ensures View() == Step(old(View()), ClearKey(key))
      ensures timers == old(timers) - {key} && next == old(next) && firing == old(firing)
      ensures live == if key in old(timers) then old(live) - {old(timers)[key].id} else old(live)
    {
      ClearKind(Interval, key);
      ClearKind(Timeout, key);
    }

    method ClearAll()
      modifies this
      ensures View() == Step(old(View()), ClearEvery)
      ensures timers == map[] && next == old(next) && firing == old(firing)
      ensures forall id :: id in live <==>
                id in old(live) && forall key :: key in old(timers) ==> old(timers)[key].id != id
      ensures forall id :: id in live ==> live[id] == old(live)[id]
    {
      ghost var gone: set<nat> := {};
      while timers != map[]
        invariant timers.Keys <= old(timers).Keys && forall key :: key in timers ==> timers[key] == old(timers)[key]
        invariant forall key :: key in old(timers) && key !in timers ==> old(timers)[key].id in gone
        invariant gone <= TrackedIds(old(timers)) && live == old(live) - gone
        invariant next == old(next) && firing == old(firing)
        decreases timers.Keys
      {
        var key :| key in timers;
        gone := gone + {timers[key].id};
        live := live - {timers[key].id};
        timers := timers - {key};
      }
      assert gone == TrackedIds(old(timers));
    }

    /** The closure given to the host, up to the callback and after it. */
    method FireTimeout(id: nat)
      modifies this
      ensures View() == Step(old(View()), TimeoutFires(id))
      ensures timers == old(timers) && next == old(next)
      ensures if old(firing).None? && id in old(live) && old(live)[id].kind.Timeout?
              then live == old(live) - {id} && firing == Some(old(live)[id].key)
              else live == old(live) && firing == old(firing)
    {
      if firing.None? && id in live && live[id].kind.Timeout? {
        firing := Some(live[id].key);
        live := live - {id};
      }
    }

    method ReturnFromCallback()
      modifies this
      ensures View() == Step(old(View()), CallbackReturns)
      ensures firing == None && live == old(live) && next == old(next)
      ensures timers == if old(firing).Some? then old(timers) - {old(firing).value} else old(timers)
    {
      if firing.Some? {
        timers := timers - {firing.value};
        firing := None;
      }
    }
  }

  predicate IsLive(s: State, key: string) { key in s.timers && s.timers[key].id in s.live }

  /** The tracked timers are exactly the live ones; only a timeout whose callback is running is
      still tracked after it has gone. */
  ghost predicate Exact(s: State) {
    && (forall id :: id in s.live ==> id < s.next && s.live[id].key in s.timers
                                      && s.timers[s.live[id].key] == Timer(s.live[id].kind, id))
    && (forall key :: key in s.timers ==>
          s.timers[key].id < s.next
          && (if s.timers[key].id in s.live then s.live[s.timers[key].id] == HostTimer(s.timers[key].kind, key)
              else s.firing == Some(key)))
  }

  /** A key is not switched to the other kind while its timer is live, and no callback leaves
      its own key armed. */
  predicate Guarded(s: State, l: Label) {
    match l
    case SetTimer(kind, key) => !(IsLive(s, key) && s.timers[key].kind != kind)
    case CallbackReturns => s.firing.Some? ==> !IsLive(s, s.firing.value)
    case _ => true
  }

  lemma ClearingStaysExact(s: State, kind: Kind, key: string)
    requires Exact(s)
    ensures var s' := Cleared(s, kind, key);
            Exact(s') && (IsLive(s', key) <==> IsLive(s, key) && s.timers[key].kind != kind)
  {
  }

  lemma ArmingExactIff(s: State, kind: Kind, key: string)
    requires Exact(s)
    ensures Exact(Armed(s, kind, key)) <==> !IsLive(s, key)
  {
    if IsLive(s, key) { assert s.timers[key].id in Armed(s, kind, key).live; }
  }

  lemma StepExactIff(s: State, l: Label)
    requires Exact(s)
    ensures Exact(Step(s, l)) <==> Guarded(s, l)
  {
    match l {
      case SetTimer(kind, key) =>
        ClearingStaysExact(s, kind, key);
        ArmingExactIff(Cleared(s, kind, key), kind, key);
        hide Exact, Cleared, Armed;
      case ClearKey(key) =>
        ClearingStaysExact(s, Interval, key);
        ClearingStaysExact(Cleared(s, Interval, key), Timeout, key);
        hide Exact, Cleared;
      case ClearEvery =>
        ClearingAllStaysExact(s);
      case TimeoutFires(id) =>
        FiringStaysExact(s, id);
      case CallbackReturns =>
        ReturningExactIff(s);
    }
  }

  /** As long as the tracking is exact, no timer of a key survives clearing the key, and every other
      timer does. */
  lemma ClearedKeyHasNoTimer(s: State, key: string, id: nat)
    requires Exact(s)
    ensures var s' := Step(s, ClearKey(key));
            && key !in s'.timers
            && (id in s'.live <==> id in s.live && s.live[id].key != key)
            && (id in s'.live ==> s'.live[id] == s.live[id])
  {
  }

  /** And setting one, if the step is guarded, leaves exactly one timer of the key: the new one. */
  lemma SetKeyHasOneTimer(s: State, kind: Kind, key: string, id: nat)
    requires Exact(s) && Guarded(s, SetTimer(kind, key))
    ensures var s' := Step(s, SetTimer(kind, key));
            && (id in s'.live && s'.live[id].key == key <==> id == s.next)
            && s'.live[s.next].kind == kind
            && (id != s.next ==> (id in s'.live <==> id in s.live && s.live[id].key != key))
  {
  }

  lemma ClearingAllStaysExact(s: State)
    requires Exact(s)
    ensures Exact(Step(s, ClearEvery)) && Step(s, ClearEvery).live == map[]
  {
    forall id | id in s.live ensures id in TrackedIds(s.timers) { assert s.live[id].key in s.timers; }
  }

  lemma FiringStaysExact(s: State, id: nat)
    requires Exact(s)
    ensures Exact(Step(s, TimeoutFires(id)))
  {
  }

  lemma ReturningExactIff(s: State)
    requires Exact(s)
    ensures Exact(Step(s, CallbackReturns)) <==> Guarded(s, CallbackReturns)
  {
    if !Guarded(s, CallbackReturns) { assert s.timers[s.firing.value].id in Step(s, CallbackReturns).live; }
  }

  function Run(ls: seq<Label>): State {
    if ls == [] then Initial() else Step(Run(ls[..|ls| - 1]), ls[|ls| - 1])
  }

  ghost predicate AlwaysExact(ls: seq<Label>) {
    Exact(Run(ls)) && (ls == [] || AlwaysExact(ls[..|ls| - 1]))
  }

  predicate AlwaysGuarded(ls: seq<Label>) {
    ls == [] || (AlwaysGuarded(ls[..|ls| - 1]) && Guarded(Run(ls[..|ls| - 1]), ls[|ls| - 1]))
  }

  /** Throughout a run the tracked timers are the live ones if and only if every step of it is
      guarded. */
  lemma {:induction false} TrackedIsLiveIff(ls: seq<Label>)
    ensures AlwaysExact(ls) <==> AlwaysGuarded(ls)
  {
    assert Exact(Initial());
    hide Exact, Guarded, Step;
    if ls != [] {
      var before := ls[..|ls| - 1];
      TrackedIsLiveIff(before);
      if Exact(Run(before)) { StepExactIff(Run(before), ls[|ls| - 1]); }
    }
  }

  /** After a guarded run and any one further step, clearing everything leaves nothing running if
      and only if that step was guarded as well. */
  lemma ClearAllStopsIff(ls: seq<Label>, l: Label)
    requires AlwaysGuarded(ls)
    ensures Step(Step(Run(ls), l), ClearEvery).live == map[] <==> Guarded(Run(ls), l)
  {
    TrackedIsLiveIff(ls);
    var s := Run(ls);
    StepExactIff(s, l);
    if Guarded(s, l) {
      ClearingAllStaysExact(Step(s, l));
    } else {
      LeakedTimerStays(s, l);
    }
  }

  lemma LeakedTimerStays(s: State, l: Label)
    requires Exact(s) && !Guarded(s, l)
    ensures var key := if l.SetTimer? then l.key else s.firing.value;
            key in s.timers && s.timers[key].id in Step(Step(s, l), ClearEvery).live
  {
    var key := if l.SetTimer? then l.key else s.firing.value;
    var id, s' := s.timers[key].id, Step(s, l);
    assert id in s'.live && s.live[id].key == key;
    assert forall k :: k in s'.timers ==> s'.timers[k].id != id;
  }

  /** Re-arming a timeout from its own callback leaves a timer that nothing can clear by key. */
  lemma RearmedTimeoutLeaks(key: string)
    ensures var s := Run([SetTimer(Timeout, key), TimeoutFires(0), SetTimer(Timeout, key), CallbackReturns,
                          ClearEvery]);
            1 in s.live && s.timers == map[]
  {
    var ls := [SetTimer(Timeout, key), TimeoutFires(0), SetTimer(Timeout, key), CallbackReturns, ClearEvery];
    assert ls[..4][..3] == ls[..3] && ls[..3][..2] == ls[..2] && ls[..2][..1] == ls[..1] && ls[..1][..0] == [];
    var s1 := Step(Initial(), ls[0]);
    var s2 := Step(s1, ls[1]);
    var s3 := Step(s2, ls[2]);
    var s4 := Step(s3, ls[3]);
    assert Run(ls[..1]) == s1;
    assert Run(ls[..2]) == s2;
    assert Run(ls[..3]) == s3;
    assert Run(ls[..4]) == s4;
    assert s4.live == map[1 := HostTimer(Timeout, key)];
  }
}
