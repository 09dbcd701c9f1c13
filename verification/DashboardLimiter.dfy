/** apps/dashboard/src/middleware/rateLimit.middleware.ts: windows held in memory, one record a
    key, and the periodic collection of records that have expired. */
module DashboardLimiter {
  datatype Record = Record(count: int, resetTime: int, windowStart: int)

  datatype Info = Info(limit: int, remaining: int, resetTime: int, windowStart: int)

  /** The record a check leaves behind: one more in a window still open, or a new window. */
  function Renewed(store: map<string, Record>, key: string, windowMs: int, now: int): Record {
    if key in store && store[key].windowStart >= now - windowMs
    then store[key].(count := store[key].count + 1)
    else Record(1, now + windowMs, now)
  }

  function Described(r: Record, maxRequests: int): Info {
    Info(maxRequests, if maxRequests - r.count < 0 then 0 else maxRequests - r.count, r.resetTime, r.windowStart)
  }

  function Swept(store: map<string, Record>, now: int): map<string, Record> {
    map k | k in store && store[k].resetTime >= now :: store[k]
  }

  class RateLimitMiddleware {
    var store: map<string, Record>

    constructor ()
      ensures store == map[]
    {
      store := map[];
    }

    method CheckRateLimit(key: string, windowMs: int, maxRequests: int, now: int) returns (info: Info)
      modifies this
      ensures store == old(store)[key := Renewed(old(store), key, windowMs, now)]
      ensures store[key] == if key in old(store) && now <= old(store)[key].windowStart + windowMs
                            then old(store)[key].(count := old(store)[key].count + 1)
                            else Record(1, now + windowMs, now)
      ensures info == Described(store[key], maxRequests) && info.remaining >= 0
      ensures info.limit == maxRequests && info.resetTime == store[key].resetTime
      ensures info.windowStart == store[key].windowStart
      ensures if store[key].count <= maxRequests then info.remaining + store[key].count == maxRequests
              else info.remaining == 0
    {
      var windowStart := now - windowMs;
      var record;
      if key !in store || store[key].windowStart < windowStart {
        record := Record(1, now + windowMs, now);
        store := store[key := record];
      } else {
        record := store[key].(count := store[key].count + 1);
        store := store[key := record];
      }
      info := Info(maxRequests, if maxRequests - record.count < 0 then 0 else maxRequests - record.count,
                   record.resetTime, record.windowStart);
    }

    method Cleanup(now: int) returns (cleanedCount: nat)
      modifies this
      ensures store == Swept(old(store), now)
      ensures forall k :: k in store <==> k in old(store) && now <= old(store)[k].resetTime
      ensures forall k :: k in store ==> store[k] == old(store)[k]
      ensures cleanedCount == |old(store)| - |store|
    {
      cleanedCount := 0;
      var keys := store.Keys;
      ghost var all := store;
      while keys != {}
        invariant keys <= store.Keys <= all.Keys
        invariant forall k :: k in store ==> store[k] == all[k]
        invariant forall k :: k in all && k !in keys ==> (k in store <==> all[k].resetTime >= now)
        invariant cleanedCount + |store.Keys| == |all.Keys|
        decreases |keys|
      {
        var key :| key in keys;
        keys := keys - {key};
        label L:
        if store[key].resetTime < now {
          store := store - {key};
          assert store.Keys == old@L(store.Keys) - {key};
          cleanedCount := cleanedCount + 1;
        }
      }
    }
  }

  datatype Event = Check(key: string, windowMs: int, maxRequests: int, at: int) | Cleanup(at: int)

  function Apply(store: map<string, Record>, e: Event): map<string, Record> {
    match e
    case Check(key, windowMs, _, at) => store[key := Renewed(store, key, windowMs, at)]
    case Cleanup(at) => Swept(store, at)
  }

  function Run(events: seq<Event>): map<string, Record> {
    if events == [] then map[] else Apply(Run(events[..|events| - 1]), events[|events| - 1])
  }

  /** What the checks of a run return, in order. */
  function Answers(events: seq<Event>): seq<Info> {
    if events == [] then []
    else
      var before, e := events[..|events| - 1], events[|events| - 1];
      Answers(before)
        + if e.Check? then [Described(Renewed(Run(before), e.key, e.windowMs, e.at), e.maxRequests)] else []
  }

  /** The same run without any collection. */
  function ChecksOnly(events: seq<Event>): seq<Event> {
    if events == [] then []
    else ChecksOnly(events[..|events| - 1]) + if events[|events| - 1].Check? then [events[|events| - 1]] else []
  }

  /** A nondecreasing clock, and only windows allowed for their key. */
  ghost predicate Admissible(allowed: (string, int) -> bool, events: seq<Event>) {
    && (forall i, j :: 0 <= i < j < |events| ==> events[i].at <= events[j].at)
    && (forall i :: 0 <= i < |events| && events[i].Check? ==> allowed(events[i].key, events[i].windowMs))
  }

  /** No key is checked with two windows of which the longer can span any time at all. */
  ghost predicate OneWindowPerKey(allowed: (string, int) -> bool) {
    forall key, a, b :: allowed(key, a) && allowed(key, b) && a < b ==> b < 0
  }

  ghost predicate Related(allowed: (string, int) -> bool, swept: map<string, Record>, full: map<string, Record>,
                          clock: int) {
    && (forall k :: k in swept ==> k in full && swept[k] == full[k])
    && (forall k :: k in full ==> full[k].windowStart <= clock && allowed(k, full[k].resetTime - full[k].windowStart))
    && (forall k, w :: k in full && k !in swept && allowed(k, w) ==> full[k].windowStart < clock - w)
  }

  lemma SweepStaysRelated(allowed: (string, int) -> bool, swept: map<string, Record>, full: map<string, Record>,
                          clock: int, now: int)
    requires OneWindowPerKey(allowed) && Related(allowed, swept, full, clock) && clock <= now
    ensures Related(allowed, Swept(swept, now), full, now)
  {
    forall k, w | k in full && k !in Swept(swept, now) && allowed(k, w) ensures full[k].windowStart < now - w {
      if k in swept {
        var own := full[k].resetTime - full[k].windowStart;
        assert allowed(k, own) && allowed(k, w);
      }
    }
  }

  lemma CheckStaysRelated(allowed: (string, int) -> bool, swept: map<string, Record>, full: map<string, Record>,
                          clock: int, key: string, w: int, now: int)
    requires Related(allowed, swept, full, clock) && clock <= now && allowed(key, w)
    ensures Renewed(swept, key, w, now) == Renewed(full, key, w, now)
    ensures Related(allowed, swept[key := Renewed(swept, key, w, now)], full[key := Renewed(full, key, w, now)], now)
  {
  }

  lemma {:induction false} CollectionInvisible(allowed: (string, int) -> bool, events: seq<Event>)
    requires OneWindowPerKey(allowed) && Admissible(allowed, events)
    ensures Answers(events) == Answers(ChecksOnly(events))
    ensures events != [] ==> Related(allowed, Run(events), Run(ChecksOnly(events)), events[|events| - 1].at)
    ensures events == [] ==> Run(ChecksOnly(events)) == map[]
  {
    if events != [] {
      var before, e := events[..|events| - 1], events[|events| - 1];
      CollectionInvisible(allowed, before);
      var kept := ChecksOnly(before);
      var clock := if before == [] then e.at else before[|before| - 1].at;
      assert Related(allowed, Run(before), Run(kept), clock);
      if e.Check? {
        assert (kept + [e])[..|kept|] == kept;
        CheckStaysRelated(allowed, Run(before), Run(kept), clock, e.key, e.windowMs, e.at);
      } else {
        SweepStaysRelated(allowed, Run(before), Run(kept), clock, e.at);
        assert kept + [] == kept && Answers(before) + [] == Answers(before);
      }
    }
  }

  /** A record collected under its short window would still have been open under the long one. */
  function TwoWindows(key: string, a: int, b: int): seq<Event> {
    [Check(key, a, 0, 0), Cleanup(if a < 0 then 0 else a + 1), Check(key, b, 0, if a < 0 then 0 else a + 1)]
  }

  lemma TwoWindowsTell(key: string, a: int, b: int)
    requires a < b && b >= 0
    ensures Answers(TwoWindows(key, a, b)) != Answers(ChecksOnly(TwoWindows(key, a, b)))
  {
    var ls, at := TwoWindows(key, a, b), if a < 0 then 0 else a + 1;
    TwoWindowsRun(key, a, b);
    assert ls[..1] == [ls[0]] && ls[..2][..1] == ls[..1] && ls[..1][..0] == [];
    var kept := [ls[0], ls[2]];
    assert kept[..1] == [ls[0]];
    assert ChecksOnly(ls[..1]) == [] + [ls[0]];
    assert ChecksOnly(ls[..2]) == [ls[0]] + [];
    assert ChecksOnly(ls) == [ls[0]] + [ls[2]];
    hide Run, Renewed, ChecksOnly;
    assert Answers(ls[..1]) == [] + [Described(Record(1, a, 0), 0)];
    assert Answers(ls[..2]) == Answers(ls[..1]) + [];
    assert Answers(ls) == Answers(ls[..2]) + [Described(Record(1, at + b, at), 0)];
    assert Answers(kept) == Answers(kept[..1]) + [Described(Record(2, a, 0), 0)];
    assert Answers(ls)[1].resetTime == at + b && Answers(kept)[1].resetTime == a;
  }

  lemma TwoWindowsRun(key: string, a: int, b: int)
    requires a < b && b >= 0
    ensures var ls, at := TwoWindows(key, a, b), if a < 0 then 0 else a + 1;
            && Run([]) == map[] && Renewed(map[], key, a, 0) == Record(1, a, 0)
            && Run(ls[..1]) == map[key := Record(1, a, 0)] && Run(ls[..2]) == map[]
            && Renewed(map[], key, b, at) == Record(1, at + b, at)
            && Renewed(map[key := Record(1, a, 0)], key, b, at) == Record(2, a, 0)
  {
    var ls := TwoWindows(key, a, b);
    assert ls[..2][..1] == ls[..1] && ls[..1][..0] == [];
    assert Run(ls[..1]) == Apply(map[], ls[0]);
    assert Run(ls[..2]) == Apply(Run(ls[..1]), ls[1]) == map[];
  }

  /** Collections, wherever they are inserted, change no answer of any run: if and only if no
      key is checked with two different windows (the longer one not negative). */
  lemma CollectionInvisibleIff(allowed: (string, int) -> bool)
    ensures (forall events :: Admissible(allowed, events) ==> Answers(events) == Answers(ChecksOnly(events)))
        <==> OneWindowPerKey(allowed)
  {
    if OneWindowPerKey(allowed) {
      forall events | Admissible(allowed, events) ensures Answers(events) == Answers(ChecksOnly(events)) {
        CollectionInvisible(allowed, events);
      }
    } else {
      var key, a, b :| allowed(key, a) && allowed(key, b) && a < b && b >= 0;
      TwoWindowsTell(key, a, b);
      assert Admissible(allowed, TwoWindows(key, a, b));
    }
  }

  function Checks(events: seq<Event>, key: string): nat {
    if events == [] then 0
    else Checks(events[..|events| - 1], key)
           + if events[|events| - 1].Check? && events[|events| - 1].key == key then 1 else 0
  }

  /** The position of the check that began the current window of a key. */
  function Opened(events: seq<Event>, key: string): (n: nat)
    ensures n <= |events|
  {
    if events == [] then 0
    else
      var before, e := events[..|events| - 1], events[|events| - 1];
      if e.Check? && e.key == key && !OpenAt(Run(before), key, e.windowMs, e.at) then |before| else Opened(before, key)
  }

  /** In every run, whatever windows the checks ask for and wherever collections come: the count
      of a record is the number of checks of its key from the one that began its window on. */
  lemma {:induction false} CountsSinceOpened(key: string, events: seq<Event>)
    requires key in Run(events)
    ensures var r, n := Run(events)[key], Opened(events, key);
            && n < |events| && events[n].Check? && events[n].key == key && r.windowStart == events[n].at
            && r.resetTime == events[n].at + events[n].windowMs && r.count == Checks(events[n..], key)
  {
    var before, e := events[..|events| - 1], events[|events| - 1];
    var n := Opened(events, key);
    assert events[n..][..|events[n..]| - 1] == before[n..];
    if n < |before| { CountsSinceOpened(key, before); } else { assert before[n..] == []; }
  }

  /** So a check is told what its limit leaves beyond the checks of its key from that one on, itself
      included, and never less than nothing. */
  lemma AnswersTellWhatIsLeft(events: seq<Event>)
    requires events != [] && events[|events| - 1].Check?
    ensures var e := events[|events| - 1];
            var made := Checks(events[Opened(events, e.key)..], e.key);
            && |Answers(events)| == |Answers(events[..|events| - 1])| + 1
            && var info := Answers(events)[|Answers(events)| - 1];
               && info.limit == e.maxRequests && info.remaining >= 0
               && (if made <= e.maxRequests then info.remaining + made == e.maxRequests else info.remaining == 0)
               && info.windowStart == events[Opened(events, e.key)].at
  {
    CountsSinceOpened(events[|events| - 1].key, events);
  }

  /** Checks of a key made at or after a moment. */
  function ChecksSince(events: seq<Event>, key: string, since: int): nat {
    if events == [] then 0
    else
      var e := events[|events| - 1];
      ChecksSince(events[..|events| - 1], key, since) + if e.Check? && e.key == key && e.at >= since then 1 else 0
  }

  /** After a check its window is open: a later event of the same moment leaves it so. */
  predicate OpenAt(store: map<string, Record>, key: string, w: int, at: int) {
    key in store && store[key].windowStart >= at - w
  }

  lemma {:induction false} NoneSince(events: seq<Event>, key: string, since: int)
    requires forall i :: 0 <= i < |events| && events[i].Check? && events[i].key == key ==> events[i].at < since
    ensures ChecksSince(events, key, since) == 0
  {
    if events != [] { NoneSince(events[..|events| - 1], key, since); }
  }

  /** In every run, with collections anywhere, the count of a record is the number of checks of
      its key since the record's window began. */
  lemma {:induction false} CountsChecksSince(w: int, key: string, events: seq<Event>)
    requires w >= 0
    requires forall i, j :: 0 <= i < j < |events| ==> events[i].at <= events[j].at
    requires forall i :: 0 <= i < |events| && events[i].Check? && events[i].key == key ==> events[i].windowMs == w
    ensures key in Run(events) ==>
              var r := Run(events)[key];
              r.count == ChecksSince(events, key, r.windowStart) && r.resetTime == r.windowStart + w && r.count >= 1
              && events != [] && r.windowStart <= events[|events| - 1].at
    ensures forall i ::
              0 <= i < |events| && events[i].Check? && events[i].key == key && events[i].at == events[|events| - 1].at
              ==> OpenAt(Run(events), key, w, events[i].at)
  {
    if events != [] {
      var before, e := events[..|events| - 1], events[|events| - 1];
      CountsChecksSince(w, key, before);
      var store := Run(before);
      if e.Check? && e.key == key && !OpenAt(store, key, w, e.at) {
        NoneSince(before, key, e.at);
      }
    }
  }
}
