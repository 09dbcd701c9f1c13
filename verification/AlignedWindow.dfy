/** apps/data-intelligence/src/middleware/rateLimit.middleware.ts: one Redis counter per key and
    aligned window. Handlers do not throw and Redis does not fail here. */
module AlignedWindow {
  import opened Options
  import opened Redis

  datatype Counter = Counter(value: nat, deadline: Option<int>)

  datatype Limit = Limit(windowMs: int, maxRequests: int, skipSuccessful: bool, skipFailed: bool) {
    predicate Valid() { windowMs >= 1 }

    /** How long a counter lives once EXPIRE has been sent: the window in whole seconds, and ten more. */
    function Lifetime(): int { Expiry(CeilDiv(windowMs, 1000) + 10, 0) }

    /** What the window leaves of that for a slow answer to GET: ten seconds at least. */
    function Slack(): (ms: int)
      requires Valid()
      ensures ms >= 10_000
    {
      Lifetime() - windowMs
    }

    predicate CountsAll() { !skipSuccessful && !skipFailed }

    function Window(at: int): int
      requires Valid()
    {
      at / windowMs
    }

    function Capacity(): nat { if maxRequests < 0 then 0 else maxRequests }
  }

  predicate ShouldCount(successful: bool, statusCode: int, skipSuccessful: bool, skipFailed: bool) {
    !(skipSuccessful && successful && statusCode < 400) && !(skipFailed && (!successful || statusCode >= 400))
  }

  /** Which answers of a handler that returns normally count, by the two flags. */
  lemma CountsByStatus(statusCode: int)
    ensures ShouldCount(true, statusCode, false, false) && !ShouldCount(true, statusCode, true, true)
    ensures ShouldCount(true, statusCode, true, false) <==> statusCode >= 400
    ensures ShouldCount(true, statusCode, false, true) <==> statusCode < 400
  {
  }

  /** A counter lives for the window in whole seconds and ten more, and one millisecond in which Redis
      still has it. */
  lemma LifetimeIs(c: Limit)
    ensures c.Lifetime() % 1000 == 1 && c.windowMs + 10_001 <= c.Lifetime() < c.windowMs + 11_001
  {
  }

  /** GET, with a missing key read as 0. */
  function Read<K>(counters: map<K, Counter>, key: K): nat {
    if key in counters then counters[key].value else 0
  }

  /** INCR keeps the deadline of an existing key. */
  function Incr<K>(counters: map<K, Counter>, key: K): map<K, Counter> {
    counters[key := Counter(Read(counters, key) + 1, if key in counters then counters[key].deadline else None)]
  }

  function Expire<K>(counters: map<K, Counter>, key: K, deadline: int): map<K, Counter> {
    if key in counters then counters[key := counters[key].(deadline := Some(deadline))] else counters
  }

  /** Calls of one key, each in a slot of its own; between two of their commands anything may
      happen. `admitted` and `waived` are the moments of the calls let through, and of those let
      through that the skip flags kept from being counted. */
  datatype Slot = Idle | Asking(at: int) | Running(at: int) | Expiring(window: int)

  datatype State = State(clock: int, counters: map<int, Counter>, slots: seq<Slot>, admitted: seq<int>,
                         waived: seq<int>)

  datatype Label =
    | Tick(ms: nat)
    | Begin(slot: nat)
    | Reply(slot: nat)
    | Finish(slot: nat, statusCode: int)
    | SendExpire(slot: nat)
    | Evict(window: int)

  function Holds(s: State, i: nat): Slot { if i < |s.slots| then s.slots[i] else Idle }

  function Put(s: State, i: nat, slot: Slot): State { if i < |s.slots| then s.(slots := s.slots[i := slot]) else s }

  /** `latency` bounds how long GET takes to answer. */
  function Step(c: Limit, latency: int, s: State, l: Label): State
    requires c.Valid()
  {
    match l
    case Tick(ms) => s.(clock := s.clock + ms)
    case Begin(i) => if Holds(s, i).Idle? then Put(s, i, Asking(s.clock)) else s
    case Reply(i) =>
      if !Holds(s, i).Asking? || s.clock - Holds(s, i).at > latency then s
      else if Read(s.counters, c.Window(Holds(s, i).at)) >= c.maxRequests then Put(s, i, Idle)
      else Put(s, i, Running(Holds(s, i).at)).(admitted := s.admitted + [Holds(s, i).at])
    case Finish(i, statusCode) =>
      if !Holds(s, i).Running? then s
      else
        var at := Holds(s, i).at;
        if !ShouldCount(true, statusCode, c.skipSuccessful, c.skipFailed)
        then Put(s, i, Idle).(waived := s.waived + [at])
        else
          var counters := Incr(s.counters, c.Window(at));
          Put(s, i, if Read(counters, c.Window(at)) == 1 then Expiring(c.Window(at)) else Idle).(counters := counters)
    case SendExpire(i) =>
      if !Holds(s, i).Expiring? then s
      else Put(s, i, Idle).(counters := Expire(s.counters, Holds(s, i).window, s.clock + c.Lifetime()))
    case Evict(w) =>
      if w in s.counters && s.counters[w].deadline.Some? && s.counters[w].deadline.value <= s.clock
      then s.(counters := s.counters - {w}) else s
  }

  function Start(calls: nat): State { State(0, map[], seq(calls, _ => Idle), [], []) }

  function Follow(c: Limit, latency: int, s: State, ls: seq<Label>): State
    requires c.Valid()
  {
    if ls == [] then s else Step(c, latency, Follow(c, latency, s, ls[..|ls| - 1]), ls[|ls| - 1])
  }

  /** How many of the moments fall into an aligned window, and into [from, from + windowMs). */
  function InWindow(c: Limit, xs: seq<int>, w: int): nat
    requires c.Valid()
  {
    if xs == [] then 0
    else InWindow(c, xs[..|xs| - 1], w) + if c.Window(xs[|xs| - 1]) == w then 1 else 0
  }

  function InInterval(c: Limit, xs: seq<int>, from: int): nat {
    if xs == [] then 0
    else InInterval(c, xs[..|xs| - 1], from) + if from <= xs[|xs| - 1] < from + c.windowMs then 1 else 0
  }

  predicate RunsIn(c: Limit, slot: Slot, w: int)
    requires c.Valid()
  {
    slot.Running? && c.Window(slot.at) == w
  }

  /** Handlers in progress whose call belongs to the window. */
  function Pending(c: Limit, slots: seq<Slot>, w: int): (n: nat)
    requires c.Valid()
    ensures n <= |slots|
  {
    if slots == [] then 0 else Pending(c, slots[..|slots| - 1], w) + if RunsIn(c, slots[|slots| - 1], w) then 1 else 0
  }

  lemma {:induction false} PendingPut(c: Limit, slots: seq<Slot>, i: nat, slot: Slot, w: int)
    requires c.Valid() && i < |slots|
    ensures Pending(c, slots[i := slot], w) + (if RunsIn(c, slots[i], w) then 1 else 0)
         == Pending(c, slots, w) + (if RunsIn(c, slot, w) then 1 else 0)
  {
    var n := |slots| - 1;
    if i == n {
      assert slots[i := slot][..n] == slots[..n];
    } else {
      assert slots[i := slot][..n] == slots[..n][i := slot];
      PendingPut(c, slots[..n], i, slot, w);
    }
  }

  lemma InWindowSnoc(c: Limit, xs: seq<int>, x: int, w: int)
    requires c.Valid()
    ensures InWindow(c, xs + [x], w) == InWindow(c, xs, w) + if c.Window(x) == w then 1 else 0
  {
    assert (xs + [x])[..|xs|] == xs;
  }

  /** Let through and not waived. */
  function Tally(c: Limit, s: State, w: int): int
    requires c.Valid()
  {
    InWindow(c, s.admitted, w) - InWindow(c, s.waived, w)
  }

  /** While an answer about the window can still arrive, its counter holds every finished call. */
  ghost predicate Accounted(c: Limit, latency: int, s: State, w: int)
    requires c.Valid()
  {
    s.clock < (w + 1) * c.windowMs + latency ==> Read(s.counters, w) + Pending(c, s.slots, w) == Tally(c, s, w)
  }

  ghost predicate Within(c: Limit, s: State, w: int)
    requires c.Valid()
  {
    |s.slots| > 0 ==> Tally(c, s, w) <= c.Capacity() + |s.slots| - 1
  }

  predicate SlotSane(c: Limit, clock: int, slot: Slot) {
    match slot
    case Idle => true
    case Asking(at) => at <= clock
    case Running(at) => at <= clock
    case Expiring(w) => w * c.windowMs <= clock
  }

  predicate SlotsSane(c: Limit, s: State) { forall i :: 0 <= i < |s.slots| ==> SlotSane(c, s.clock, s.slots[i]) }

  /** No counter's deadline comes before its window's start plus a full lifetime. */
  predicate DeadlinesLate(c: Limit, s: State) {
    forall w ::
      w in s.counters && s.counters[w].deadline.Some? ==> s.counters[w].deadline.value >= w * c.windowMs + c.Lifetime()
  }

  lemma WindowBounds(c: Limit, at: int)
    requires c.Valid()
    ensures c.Window(at) * c.windowMs <= at < (c.Window(at) + 1) * c.windowMs
  {
  }

  lemma WindowIs(c: Limit, at: int, w: int)
    requires c.Valid() && w * c.windowMs <= at < (w + 1) * c.windowMs
    ensures c.Window(at) == w
  {
    WindowBounds(c, at);
    var v, m := c.Window(at), c.windowMs;
    if v > w {
      TimesMonotone(w + 1, v, m);
    } else if v < w {
      TimesMonotone(v + 1, w, m);
    }
  }

  lemma TimesMonotone(a: int, b: int, m: int)
    requires a <= b && m >= 0
    ensures a * m <= b * m
  {
    assert (b - a) * m >= 0;
  }

  ghost predicate Kept(c: Limit, latency: int, s: State)
    requires c.Valid()
  {
    && SlotsSane(c, s)
    && DeadlinesLate(c, s)
    && forall w :: Accounted(c, latency, s, w) && Within(c, s, w)
  }

  lemma SlotsStay(c: Limit, latency: int, s: State, l: Label)
    requires c.Valid() && SlotsSane(c, s)
    ensures SlotsSane(c, Step(c, latency, s, l)) && |Step(c, latency, s, l).slots| == |s.slots|
  {
    if l.Finish? && Holds(s, l.slot).Running? { WindowBounds(c, Holds(s, l.slot).at); }
  }

  lemma DeadlinesStay(c: Limit, latency: int, s: State, l: Label)
    requires c.Valid() && SlotsSane(c, s) && DeadlinesLate(c, s)
    ensures DeadlinesLate(c, Step(c, latency, s, l))
  {
  }

  lemma ReplyKeeps(c: Limit, latency: int, s: State, i: nat, w: int)
    requires c.Valid() && Kept(c, latency, s)
    ensures Accounted(c, latency, Step(c, latency, s, Reply(i)), w) && Within(c, Step(c, latency, s, Reply(i)), w)
  {
    var s' := Step(c, latency, s, Reply(i));
    assert Accounted(c, latency, s, w) && Within(c, s, w);
    if Holds(s, i).Asking? {
      var at := s.slots[i].at;
      PendingPut(c, s.slots, i, Idle, w);
      PendingPut(c, s.slots, i, Running(at), w);
      InWindowSnoc(c, s.admitted, at, w);
      WindowBounds(c, at);
      hide InWindow, Pending;
    }
  }

  lemma FinishKeeps(c: Limit, latency: int, s: State, i: nat, statusCode: int, w: int)
    requires c.Valid() && Kept(c, latency, s)
    ensures Accounted(c, latency, Step(c, latency, s, Finish(i, statusCode)), w)
    ensures Within(c, Step(c, latency, s, Finish(i, statusCode)), w)
  {
    hide InWindow, Pending;
    assert Accounted(c, latency, s, w) && Within(c, s, w);
    if Holds(s, i).Running? {
      var at := s.slots[i].at;
      PendingPut(c, s.slots, i, Idle, w);
      PendingPut(c, s.slots, i, Expiring(c.Window(at)), w);
      InWindowSnoc(c, s.waived, at, w);
    }
  }

  lemma EvictKeeps(c: Limit, latency: int, s: State, v: int, w: int)
    requires c.Valid() && latency <= c.Slack() && Kept(c, latency, s)
    ensures Accounted(c, latency, Step(c, latency, s, Evict(v)), w) && Within(c, Step(c, latency, s, Evict(v)), w)
  {
    assert Accounted(c, latency, s, w) && Within(c, s, w);
    hide InWindow, Pending;
    assert (v + 1) * c.windowMs == v * c.windowMs + c.windowMs;
  }

  lemma OthersKeep(c: Limit, latency: int, s: State, l: Label, w: int)
    requires c.Valid() && Kept(c, latency, s) && (l.Tick? || l.Begin? || l.SendExpire?)
    ensures Accounted(c, latency, Step(c, latency, s, l), w) && Within(c, Step(c, latency, s, l), w)
  {
    assert Accounted(c, latency, s, w) && Within(c, s, w);
    if l.Begin? && Holds(s, l.slot).Idle? && l.slot < |s.slots| {
      PendingPut(c, s.slots, l.slot, Asking(s.clock), w);
    } else if l.SendExpire? && Holds(s, l.slot).Expiring? {
      PendingPut(c, s.slots, l.slot, Idle, w);
    }
    hide InWindow, Pending;
  }

  lemma StepKeeps(c: Limit, latency: int, s: State, l: Label)
    requires c.Valid() && latency <= c.Slack() && Kept(c, latency, s)
    ensures Kept(c, latency, Step(c, latency, s, l)) && |Step(c, latency, s, l).slots| == |s.slots|
  {
    SlotsStay(c, latency, s, l);
    DeadlinesStay(c, latency, s, l);
    forall w ensures Accounted(c, latency, Step(c, latency, s, l), w) && Within(c, Step(c, latency, s, l), w) {
      match l {
        case Reply(i) => ReplyKeeps(c, latency, s, i, w);
        case Finish(i, statusCode) => FinishKeeps(c, latency, s, i, statusCode, w);
        case Evict(v) => EvictKeeps(c, latency, s, v, w);
        case _ => OthersKeep(c, latency, s, l, w);
      }
    }
  }

  lemma {:induction false} NonePending(c: Limit, n: nat, w: int)
    requires c.Valid()
    ensures Pending(c, seq(n, _ => Idle), w) == 0
  {
    if n > 0 {
      assert seq(n, _ => Idle)[..n - 1] == seq(n - 1, _ => Idle);
      NonePending(c, n - 1, w);
    }
  }

  lemma {:induction false} FollowKeeps(c: Limit, latency: int, calls: nat, ls: seq<Label>)
    requires c.Valid() && latency <= c.Slack()
    ensures Kept(c, latency, Follow(c, latency, Start(calls), ls))
    ensures |Follow(c, latency, Start(calls), ls).slots| == calls
  {
    if ls == [] {
      forall w ensures Accounted(c, latency, Start(calls), w) && Within(c, Start(calls), w) {
        NonePending(c, calls, w);
      }
    } else {
      FollowKeeps(c, latency, calls, ls[..|ls| - 1]);
      StepKeeps(c, latency, Follow(c, latency, Start(calls), ls[..|ls| - 1]), ls[|ls| - 1]);
    }
  }

  /** The time to live never takes a counter away while a GET about it can still be answered. */
  lemma AskedCountersLast(c: Limit, latency: int, calls: nat, ls: seq<Label>, i: nat)
    requires c.Valid() && latency <= c.Slack()
    ensures var s := Follow(c, latency, Start(calls), ls);
            Holds(s, i).Asking? && s.clock - Holds(s, i).at <= latency ==>
              Step(c, latency, s, Evict(c.Window(Holds(s, i).at))) == s
  {
    FollowKeeps(c, latency, calls, ls);
    var s := Follow(c, latency, Start(calls), ls);
    if Holds(s, i).Asking? { WindowBounds(c, Holds(s, i).at); }
    hide Follow, InWindow, Pending, Limit.Window;
  }

  lemma {:induction false} NothingWaived(c: Limit, latency: int, s: State, ls: seq<Label>)
    requires c.Valid() && c.CountsAll() && s.waived == []
    ensures Follow(c, latency, s, ls).waived == []
  {
    if ls != [] { NothingWaived(c, latency, s, ls[..|ls| - 1]); }
  }

  lemma {:induction false} IntervalMeetsTwoWindows(c: Limit, xs: seq<int>, from: int)
    requires c.Valid()
    ensures InInterval(c, xs, from) <= InWindow(c, xs, c.Window(from)) + InWindow(c, xs, c.Window(from) + 1)
  {
    if xs != [] {
      var x, w := xs[|xs| - 1], c.Window(from);
      IntervalMeetsTwoWindows(c, xs[..|xs| - 1], from);
      if from <= x < from + c.windowMs {
        WindowBounds(c, from);
        if x < (w + 1) * c.windowMs { WindowIs(c, x, w); } else { WindowIs(c, x, w + 1); }
      }
    }
  }

  /** With at most `calls` requests of a key in flight and GET answered in time, every aligned
      window counts at most maxRequests + calls - 1 of them. */
  lemma WindowHolds(c: Limit, latency: int, calls: nat, ls: seq<Label>, w: int)
    requires c.Valid() && calls >= 1 && latency <= c.Slack()
    ensures Tally(c, Follow(c, latency, Start(calls), ls), w) <= c.Capacity() + calls - 1
  {
    FollowKeeps(c, latency, calls, ls);
    assert Within(c, Follow(c, latency, Start(calls), ls), w);
  }

  /** Any half-open interval of one window's length then holds at most twice that, wherever it
      starts: 2 * maxRequests for requests made one at a time. */
  lemma IntervalHolds(c: Limit, latency: int, calls: nat, ls: seq<Label>, from: int)
    requires c.Valid() && c.CountsAll() && calls >= 1 && latency <= c.Slack()
    ensures InInterval(c, Follow(c, latency, Start(calls), ls).admitted, from) <= 2 * (c.Capacity() + calls - 1)
  {
    var s := Follow(c, latency, Start(calls), ls);
    IntervalMeetsTwoWindows(c, s.admitted, from);
    NothingWaived(c, latency, Start(calls), ls);
    WindowHolds(c, latency, calls, ls, c.Window(from));
    WindowHolds(c, latency, calls, ls, c.Window(from) + 1);
    assert forall w :: InWindow(c, [], w) == 0;
  }

  /** One whole request that nothing else comes between. */
  function Request(): seq<Label> { [Begin(0), Reply(0), Finish(0, 200), SendExpire(0)] }

  function Requests(n: nat): seq<Label> { if n == 0 then [] else Requests(n - 1) + Request() }

  function Times(at: int, n: nat): seq<int> { if n == 0 then [] else Times(at, n - 1) + [at] }

  /** A lone slot after n requests at one moment, none of its window counted before. */
  function Filled(c: Limit, s: State, n: nat): State
    requires c.Valid()
  {
    if n == 0 then s
    else s.(counters := s.counters[c.Window(s.clock) := Counter(n, Some(s.clock + c.Lifetime()))],
            admitted := s.admitted + Times(s.clock, n))
  }

  lemma {:induction false} FollowAppend(c: Limit, latency: int, s: State, a: seq<Label>, b: seq<Label>)
    requires c.Valid()
    ensures Follow(c, latency, s, a + b) == Follow(c, latency, Follow(c, latency, s, a), b)
  {
    if b == [] {
      assert a + b == a;
    } else {
      assert (a + b)[..|a + b| - 1] == a + b[..|b| - 1];
      FollowAppend(c, latency, s, a, b[..|b| - 1]);
    }
  }

  lemma FollowOne(c: Limit, latency: int, s: State, l: Label)
    requires c.Valid()
    ensures Follow(c, latency, s, [l]) == Step(c, latency, s, l)
  {
    assert [l][..0] == [];
  }

  lemma OneRequest(c: Limit, latency: int, s: State, n: nat)
    requires c.Valid() && c.CountsAll() && latency >= 0 && s.slots == [Idle] && n < c.maxRequests
    requires c.Window(s.clock) !in s.counters
    ensures Follow(c, latency, Filled(c, s, n), Request()) == Filled(c, s, n + 1)
  {
    var r, t := Request(), Filled(c, s, n);
    var t1 := Step(c, latency, t, r[0]);
    var t2 := Step(c, latency, t1, r[1]);
    var t3 := Step(c, latency, t2, r[2]);
    assert r == ((([r[0]] + [r[1]]) + [r[2]]) + [r[3]]);
    FollowOne(c, latency, t, r[0]);
    FollowOne(c, latency, t1, r[1]);
    FollowOne(c, latency, t2, r[2]);
    FollowOne(c, latency, t3, r[3]);
    FollowAppend(c, latency, t, [r[0]], [r[1]]);
    FollowAppend(c, latency, t, [r[0]] + [r[1]], [r[2]]);
    FollowAppend(c, latency, t, [r[0]] + [r[1]] + [r[2]], [r[3]]);
    assert t.admitted + [s.clock] == s.admitted + Times(s.clock, n + 1);
    assert t3.slots == [if n == 0 then Expiring(c.Window(s.clock)) else Idle];
  }

  lemma {:induction false} Fill(c: Limit, latency: int, s: State, n: nat)
    requires c.Valid() && c.CountsAll() && latency >= 0 && s.slots == [Idle] && n <= c.maxRequests
    requires c.Window(s.clock) !in s.counters
    ensures Follow(c, latency, s, Requests(n)) == Filled(c, s, n)
  {
    if n > 0 {
      hide Requests, Step, Follow, Filled, Limit.Window, Limit.Lifetime;
      Fill(c, latency, s, n - 1);
      FillOnce(c, latency, s, n - 1);
    }
  }

  lemma FillOnce(c: Limit, latency: int, s: State, n: nat)
    requires c.Valid() && c.CountsAll() && latency >= 0 && s.slots == [Idle] && n < c.maxRequests
    requires c.Window(s.clock) !in s.counters && Follow(c, latency, s, Requests(n)) == Filled(c, s, n)
    ensures Follow(c, latency, s, Requests(n + 1)) == Filled(c, s, n + 1)
  {
    assert Requests(n + 1) == Requests(n) + Request();
    hide Requests, Request, Step, Follow, Filled, Limit.Window, Limit.Lifetime;
    FollowAppend(c, latency, s, Requests(n), Request());
    OneRequest(c, latency, s, n);
  }

  lemma {:induction false} TimesCounted(c: Limit, xs: seq<int>, at: int, n: nat, w: int, from: int)
    requires c.Valid()
    ensures InWindow(c, xs + Times(at, n), w) == InWindow(c, xs, w) + if c.Window(at) == w then n else 0
    ensures InInterval(c, xs + Times(at, n), from)
              == InInterval(c, xs, from) + if from <= at < from + c.windowMs then n else 0
  {
    if n == 0 {
      assert xs + Times(at, 0) == xs;
    } else {
      var ys := xs + Times(at, n);
      assert ys[..|ys| - 1] == xs + Times(at, n - 1) && ys[|ys| - 1] == at;
      TimesCounted(c, xs, at, n - 1, w, from);
    }
  }

  /** The limit filled at the start of a window, and one more request at its end whose GET is
      answered after the counter has gone. */
  function SlowAnswer(c: Limit): seq<Label>
    requires c.Valid()
  {
    Requests(c.Capacity()) + [Tick(c.windowMs - 1)] + [Begin(0)] + [Tick(c.Slack() + 1)] + [Evict(0)] + [Reply(0)]
  }

  lemma SlowAnswerOverfills(c: Limit, latency: int)
    requires c.Valid() && c.CountsAll() && c.maxRequests >= 1 && latency > c.Slack()
    ensures Tally(c, Follow(c, latency, Start(1), SlowAnswer(c)), 0) == c.Capacity() + 1
  {
    var s0, n := Start(1), c.Capacity();
    var s1 := Filled(c, s0, n);
    var s2 := Step(c, latency, s1, Tick(c.windowMs - 1));
    var s3 := Step(c, latency, s2, Begin(0));
    var s4 := Step(c, latency, s3, Tick(c.Slack() + 1));
    var s5 := Step(c, latency, s4, Evict(0));
    var s6 := Step(c, latency, s5, Reply(0));
    WindowIs(c, 0, 0);
    WindowIs(c, c.windowMs - 1, 0);
    Fill(c, latency, s0, n);
    var r := Requests(n);
    Next(c, latency, s0, r, Tick(c.windowMs - 1));
    r := r + [Tick(c.windowMs - 1)];
    Next(c, latency, s0, r, Begin(0));
    r := r + [Begin(0)];
    Next(c, latency, s0, r, Tick(c.Slack() + 1));
    r := r + [Tick(c.Slack() + 1)];
    Next(c, latency, s0, r, Evict(0));
    r := r + [Evict(0)];
    Next(c, latency, s0, r, Reply(0));
    assert s6.admitted == ([] + Times(0, n)) + [c.windowMs - 1];
    TimesCounted(c, [], 0, n, 0, 0);
    InWindowSnoc(c, [] + Times(0, n), c.windowMs - 1, 0);
  }

  lemma Next(c: Limit, latency: int, s: State, ls: seq<Label>, l: Label)
    requires c.Valid()
    ensures Follow(c, latency, s, ls + [l]) == Step(c, latency, Follow(c, latency, s, ls), l)
  {
    assert (ls + [l])[..|ls|] == ls;
  }

  /** One request at a time: no aligned window ever lets through more than the limit, if and
      only if GET answers within what the counter's lifetime leaves beyond the window. */
  lemma WindowSafeIffAnswersInTime(c: Limit, latency: int)
    requires c.Valid() && c.CountsAll()
    ensures (forall ls, w :: InWindow(c, Follow(c, latency, Start(1), ls).admitted, w) <= c.Capacity())
        <==> (c.maxRequests <= 0 || latency <= c.Slack())
  {
    if latency <= c.Slack() {
      forall ls, w ensures InWindow(c, Follow(c, latency, Start(1), ls).admitted, w) <= c.Capacity() {
        WindowHolds(c, latency, 1, ls, w);
        NothingWaived(c, latency, Start(1), ls);
      }
    } else if c.maxRequests <= 0 {
      forall ls, w ensures InWindow(c, Follow(c, latency, Start(1), ls).admitted, w) <= c.Capacity() {
        NothingAdmitted(c, latency, Start(1), ls);
      }
    } else {
      SlowAnswerOverfills(c, latency);
      NothingWaived(c, latency, Start(1), SlowAnswer(c));
      assert InWindow(c, Follow(c, latency, Start(1), SlowAnswer(c)).admitted, 0) == c.Capacity() + 1;
    }
  }

  lemma {:induction false} NothingAdmitted(c: Limit, latency: int, s: State, ls: seq<Label>)
    requires c.Valid() && c.maxRequests <= 0 && s.admitted == []
    ensures Follow(c, latency, s, ls).admitted == []
  {
    if ls != [] { NothingAdmitted(c, latency, s, ls[..|ls| - 1]); }
  }

  /** The limit used up at the last moment of one window and again at the first of the next. */
  function AcrossTheEdge(c: Limit): seq<Label>
    requires c.Valid()
  {
    [Tick(c.windowMs - 1)] + Requests(c.Capacity()) + [Tick(1)] + Requests(c.Capacity())
  }

  /** Twice the limit inside one window's length does happen, so the bound cannot be lowered. */
  lemma TwiceTheLimitHappens(c: Limit, latency: nat)
    requires c.Valid() && c.CountsAll() && c.windowMs >= 2
    ensures InInterval(c, Follow(c, latency, Start(1), AcrossTheEdge(c)).admitted, c.windowMs - 1) == 2 * c.Capacity()
  {
    var n, end := c.Capacity(), c.windowMs - 1;
    if n == 0 {
      NothingAdmitted(c, latency, Start(1), AcrossTheEdge(c));
    } else {
      EdgeRun(c, latency);
      assert [] + Times(end, n) == Times(end, n);
      TimesCounted(c, [], end, n, 0, end);
      TimesCounted(c, Times(end, n), end + 1, n, 0, end);
    }
  }

  lemma EdgeLabels(c: Limit)
    requires c.Valid() && c.maxRequests >= 1
    ensures AcrossTheEdge(c) == ([Tick(c.windowMs - 1)] + Requests(c.maxRequests) + [Tick(1)]) + Requests(c.maxRequests)
  {
  }

  lemma EdgeRun(c: Limit, latency: nat)
    requires c.Valid() && c.CountsAll() && c.windowMs >= 2 && c.maxRequests >= 1
    ensures Follow(c, latency, Start(1), AcrossTheEdge(c)).admitted
         == Times(c.windowMs - 1, c.maxRequests) + Times(c.windowMs, c.maxRequests)
  {
    var n, end := c.maxRequests, c.windowMs - 1;
    var s0, s1 := Start(1), Step(c, latency, Start(1), Tick(end));
    var s2 := Filled(c, s1, n);
    var s3 := Step(c, latency, s2, Tick(1));
    WindowIs(c, end, 0);
    WindowIs(c, end + 1, 1);
    FollowOne(c, latency, s0, Tick(end));
    Fill(c, latency, s1, n);
    Fill(c, latency, s3, n);
    assert [] + Times(end, n) == Times(end, n);
    assert Filled(c, s3, n).admitted == Times(end, n) + Times(end + 1, n);
    hide Follow, Step, Requests, Times, Filled, Start, Limit.Window, Limit.Lifetime, Limit.Capacity;
    assert AcrossTheEdge(c) == ([Tick(end)] + Requests(n) + [Tick(1)]) + Requests(n) by { EdgeLabels(c); }
    hide AcrossTheEdge;
    FollowAppend(c, latency, s0, [Tick(end)], Requests(n));
    Next(c, latency, s0, [Tick(end)] + Requests(n), Tick(1));
    FollowAppend(c, latency, s0, [Tick(end)] + Requests(n) + [Tick(1)], Requests(n));
  }
}
