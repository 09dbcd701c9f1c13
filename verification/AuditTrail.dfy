/** apps/ai-engine/src/middleware/audit.middleware.ts: the ring buffer of audit events, measured
    against the list of all events ever stored. */
module AuditTrail {
  import opened Options

  datatype AuditEvent = AuditEvent(eventId: string, timestamp: string, userId: Option<string>, action: string,
                                   resource: string, success: bool)

  datatype Filters = Filters(userId: Option<string>, action: Option<string>, resource: Option<string>,
                             startTime: Option<string>, endTime: Option<string>, success: Option<bool>,
                             limit: Option<int>)

  /** The order `<=` puts on strings. */
  predicate AtMost(a: string, b: string) {
    a == [] || (b != [] && (a[0] < b[0] || (a[0] == b[0] && AtMost(a[1..], b[1..]))))
  }

  /** The strings agree before position i and differ there, a having the smaller character. */
  ghost predicate SmallerAt(a: string, b: string, i: nat) {
    i < |a| && i < |b| && a[..i] == b[..i] && a[i] < b[i]
  }

  lemma SmallerFurtherOn(a: string, b: string, i: nat)
    requires a != [] && b != [] && a[0] == b[0]
    ensures SmallerAt(a, b, i + 1) <==> SmallerAt(a[1..], b[1..], i)
    ensures !SmallerAt(a, b, 0) && (a <= b <==> a[1..] <= b[1..])
  {
    assert a == [a[0]] + a[1..] && b == [b[0]] + b[1..];
    if i < |a[1..]| && i < |b[1..]| {
      assert a[..i + 1] == [a[0]] + a[1..][..i] && b[..i + 1] == [b[0]] + b[1..][..i];
      assert a[..i + 1][1..] == a[1..][..i] && b[..i + 1][1..] == b[1..][..i];
    }
  }

  lemma SmallerAtFirst(a: string, b: string, i: nat)
    requires a != [] && b != [] && a[0] != b[0]
    ensures SmallerAt(a, b, i) <==> i == 0 && a[0] < b[0]
  {
    if 0 < i < |a| && i < |b| { assert a[..i][0] != b[..i][0]; }
  }

  /** It holds exactly if the first string is a prefix of the second, or has the smaller character at
      the first position where they differ. */
  lemma {:induction false} AtMostIff(a: string, b: string)
    ensures AtMost(a, b) <==> a <= b || exists i: nat :: SmallerAt(a, b, i)
  {
    hide SmallerAt;
    if a != [] && b != [] && a[0] == b[0] {
      AtMostIff(a[1..], b[1..]);
      SmallerFurtherOn(a, b, 0);
      if i: nat :| SmallerAt(a[1..], b[1..], i) { SmallerFurtherOn(a, b, i); }
      if i: nat :| SmallerAt(a, b, i) { SmallerFurtherOn(a, b, if i > 0 then i - 1 else 0); }
    } else if a != [] && b != [] {
      forall i: nat ensures SmallerAt(a, b, i) <==> i == 0 && a[0] < b[0] { SmallerAtFirst(a, b, i); }
      assert SmallerAt(a, b, 0) <==> a[0] < b[0];
    } else {
      forall i: nat ensures !SmallerAt(a, b, i) { NoneIsSmaller(a, b, i); }
    }
  }

  lemma NoneIsSmaller(a: string, b: string, i: nat)
    requires a == [] || b == []
    ensures !SmallerAt(a, b, i)
  {
  }

  /** A missing or empty criterion asks for nothing. */
  predicate Asks(criterion: Option<string>) { criterion.Some? && criterion.value != "" }

  predicate Matches(e: AuditEvent, f: Filters) {
    && (Asks(f.userId) ==> e.userId == f.userId)
    && (Asks(f.action) ==> e.action == f.action.value)
    && (Asks(f.resource) ==> e.resource == f.resource.value)
    && (f.success.Some? ==> e.success == f.success.value)
    && (Asks(f.startTime) ==> AtMost(f.startTime.value, e.timestamp))
    && (Asks(f.endTime) ==> AtMost(e.timestamp, f.endTime.value))
  }

  function Matching(events: seq<AuditEvent>, f: Filters): seq<AuditEvent> {
    if events == [] then []
    else Matching(events[..|events| - 1], f) + if Matches(events[|events| - 1], f) then [events[|events| - 1]] else []
  }

  function Min(a: int, b: int): int { if a < b then a else b }

  function Max(a: int, b: int): int { if a < b then b else a }

  function Take<T>(s: seq<T>, n: int): seq<T> { s[..Max(0, Min(n, |s|))] }

  /** The last n events, the newest first. */
  function NewestFirst(history: seq<AuditEvent>, n: nat): (r: seq<AuditEvent>)
    ensures |r| == Min(n, |history|)
    ensures forall k :: 0 <= k < |r| ==> r[k] == history[|history| - 1 - k]
  {
    if n == 0 || history == [] then []
    else [history[|history| - 1]] + NewestFirst(history[..|history| - 1], n - 1)
  }

  function MaxLimit(f: Filters): int { if f.limit.Some? && f.limit.value > 0 then f.limit.value else 100 }

  /** The slot of the k-th newest event. */
  function Slot(index: int, capacity: int, k: int): (i: int)
    ensures 0 <= index < capacity && 1 <= k <= capacity ==> 0 <= i < capacity
  {
    if k <= index then index - k else index - k + capacity
  }

  /** One step back around the ring. */
  function Previous(idx: int, capacity: int): int
    requires capacity > 0
  {
    (idx - 1 + capacity) % capacity
  }

  /** The k-th newest event, if that many were ever stored. */
  function Nth(history: seq<AuditEvent>, k: int): Option<AuditEvent> {
    if 1 <= k <= |history| then Some(history[|history| - k]) else None
  }

  lemma PreviousSlot(index: int, capacity: int, k: int)
    requires 0 <= index < capacity && 0 <= k < capacity
    ensures Previous(if k == 0 then index else Slot(index, capacity, k), capacity) == Slot(index, capacity, k + 1)
  {
    ModOnce((if k == 0 then index else Slot(index, capacity, k)) - 1 + capacity, capacity);
  }

  lemma ModOnce(x: int, capacity: int)
    requires 0 <= x < 2 * capacity
    ensures x % capacity == if x < capacity then x else x - capacity
  {
    if x >= capacity { assert x % capacity == (x - capacity) % capacity; }
  }

  lemma NewestSnoc(history: seq<AuditEvent>, k: nat)
    requires k < |history|
    ensures NewestFirst(history, k) + [history[|history| - 1 - k]] == NewestFirst(history, k + 1)
  {
  }

  lemma NewestSaturates(history: seq<AuditEvent>, k: nat, n: nat)
    requires |history| <= k && |history| <= n
    ensures NewestFirst(history, k) == NewestFirst(history, n)
  {
  }

  lemma NewestStep(history: seq<AuditEvent>, k: nat)
    ensures NewestFirst(history, k + 1)
         == NewestFirst(history, k) + match Nth(history, k + 1) { case Some(e) => [e] case None => [] }
  {
    if k < |history| { NewestSnoc(history, k); } else { NewestSaturates(history, k, k + 1); }
  }

  class AuditMiddleware {
    const auditTrail: array<Option<AuditEvent>>
    var auditTrailIndex: int
    ghost var history: seq<AuditEvent>

    ghost predicate Valid()
      reads this, auditTrail
    {
      && 0 <= auditTrailIndex < auditTrail.Length
      && forall k :: 1 <= k <= auditTrail.Length ==>
           auditTrail[Slot(auditTrailIndex, auditTrail.Length, k)] == Nth(history, k)
    }

    constructor (maxEventHistory: int)
      requires maxEventHistory >= 1
      ensures Valid() && fresh(auditTrail) && auditTrail.Length == maxEventHistory && history == []
    {
      auditTrail := new Option<AuditEvent>[maxEventHistory](_ => None);
      auditTrailIndex := 0;
      history := [];
    }

    method StoreAuditEvent(auditEvent: AuditEvent)
      requires Valid()
      modifies this, auditTrail
      ensures Valid() && history == old(history) + [auditEvent]
    {
      auditTrail[auditTrailIndex] := Some(auditEvent);
      ModOnce(auditTrailIndex + 1, auditTrail.Length);
      auditTrailIndex := (auditTrailIndex + 1) % auditTrail.Length;
      history := history + [auditEvent];
      forall k | 1 <= k <= auditTrail.Length
        ensures auditTrail[Slot(auditTrailIndex, auditTrail.Length, k)] == Nth(history, k)
      {
        if k > 1 {
          assert Slot(auditTrailIndex, auditTrail.Length, k) == Slot(old(auditTrailIndex), auditTrail.Length, k - 1);
          assert Nth(history, k) == Nth(old(history), k - 1);
        }
      }
    }

    /** Walking back from the write position meets the newest events in order; a limit below one
        still returns one event. */
    method GetAuditTrail(limit: int) returns (events: seq<AuditEvent>)
      requires Valid()
      ensures events == NewestFirst(history, Min(Max(1, limit), auditTrail.Length))
    {
      assert NewestFirst(history, 0) == [];
      events := [];
      var count := 0;
      PreviousSlot(auditTrailIndex, auditTrail.Length, 0);
      var idx := Previous(auditTrailIndex, auditTrail.Length);
      hide Previous, NewestFirst, Slot;
      while count < auditTrail.Length
        invariant 0 <= count <= auditTrail.Length && (count > 0 ==> count < limit)
        invariant count < auditTrail.Length ==> idx == Slot(auditTrailIndex, auditTrail.Length, count + 1)
        invariant events == NewestFirst(history, count)
      {
        var event := auditTrail[idx];
        assert event == Nth(history, count + 1);
        NewestStep(history, count);
        if event.Some? {
          events := events + [event.value];
        }
        count := count + 1;
        if count >= limit {
          break;
        }
        if count < auditTrail.Length { PreviousSlot(auditTrailIndex, auditTrail.Length, count); }
        idx := Previous(idx, auditTrail.Length);
      }
    }

    /** The first matches, newest first, among the events the buffer still holds. */
    method SearchAuditEvents(filters: Filters) returns (results: seq<AuditEvent>)
      requires Valid()
      ensures results == Take(Matching(NewestFirst(history, auditTrail.Length), filters), MaxLimit(filters))
      ensures AllMeet(results, filters)
      ensures Complete(NewestFirst(history, auditTrail.Length), filters, results)
    {
      hide Matches, Matching, NewestFirst, Slot, Take, AllMeet, Complete;
      NothingYet(history, filters);
      SearchTells(NewestFirst(history, auditTrail.Length), filters);
      results := [];
      var maxLimit := MaxLimit(filters);
      var count, found := 0, 0;
      PreviousSlot(auditTrailIndex, auditTrail.Length, 0);
      var idx := Previous(auditTrailIndex, auditTrail.Length);
      while count < auditTrail.Length && found < maxLimit
        invariant 0 <= count <= auditTrail.Length && found == |results| <= maxLimit
        invariant count < auditTrail.Length ==> idx == Slot(auditTrailIndex, auditTrail.Length, count + 1)
        invariant results == Matching(NewestFirst(history, count), filters)
        decreases auditTrail.Length - count
      {
        var event := auditTrail[idx];
        assert event == Nth(history, count + 1);
        MatchingStep(history, count, filters);
        if event.Some? {
          if Matches(event.value, filters) {
            results := results + [event.value];
            found := found + 1;
          }
        }
        count := count + 1;
        if count < auditTrail.Length { PreviousSlot(auditTrailIndex, auditTrail.Length, count); }
        idx := Previous(idx, auditTrail.Length);
      }
      SearchEnds(history, count, auditTrail.Length, filters, results);
    }

    /** All figures are about the events the buffer still holds. */
    method GetAuditStatistics() returns (s: Statistics)
      requires Valid()
      ensures var held := NewestFirst(history, auditTrail.Length);
              && s.totalEvents == |held| == Min(|history|, auditTrail.Length)
              && s.successfulRequests == |Succeeding(held)|
              && s.successfulRequests + s.failedRequests == s.totalEvents
              && s.successRate * (s.totalEvents as real) == (s.successfulRequests as real) * 100.0
              && (s.totalEvents == 0 ==> s.successRate == 0.0)
              && (forall a :: (if a in s.actionBreakdown then s.actionBreakdown[a] else 0) == |Acting(held, a)|)
              && (forall r :: (if r in s.resourceBreakdown then s.resourceBreakdown[r] else 0) == |Touching(held, r)|)
      ensures (forall a :: a in s.actionBreakdown ==> s.actionBreakdown[a] > 0)
      ensures (forall r :: r in s.resourceBreakdown ==> s.resourceBreakdown[r] > 0)
    {
      hide Occurrences, Successes, NewestFirst, Succeeding, Acting, Touching;
      var events := GetAuditTrail(auditTrail.Length);
      var total := |events|;
      var successful := Successes(events);
      var failed := total - successful;
      var actionCounts := CountBy(events, ActionOf);
      var resourceCounts := CountBy(events, ResourceOf);
      s := Statistics(total, successful, failed, SuccessRate(successful, total), actionCounts, resourceCounts);
      SucceedingCount(events);
      forall a ensures Occurrences(events, ActionOf, a) == |Acting(events, a)| { ActingCount(events, a); }
      forall r ensures Occurrences(events, ResourceOf, r) == |Touching(events, r)| { TouchingCount(events, r); }
    }
  }

  datatype Statistics = Statistics(totalEvents: int, successfulRequests: int, failedRequests: int, successRate: real,
                                   actionBreakdown: map<string, nat>, resourceBreakdown: map<string, nat>)

  function Successes(events: seq<AuditEvent>): (n: nat)
    ensures n <= |events|
  {
    if events == [] then 0 else Successes(events[..|events| - 1]) + if events[|events| - 1].success then 1 else 0
  }

  function Occurrences(events: seq<AuditEvent>, name: AuditEvent -> string, k: string): nat {
    if events == [] then 0
    else Occurrences(events[..|events| - 1], name, k) + if name(events[|events| - 1]) == k then 1 else 0
  }

  /** Each name that occurs is listed with how often it occurs, and no other. */
  ghost predicate Tallies(counts: map<string, nat>, events: seq<AuditEvent>, name: AuditEvent -> string) {
    forall k :: Occurrences(events, name, k) == if k in counts then counts[k] else 0
  }

  /** The `reduce` over the events. */
  method CountBy(events: seq<AuditEvent>, name: AuditEvent -> string) returns (acc: map<string, nat>)
    ensures Tallies(acc, events, name)
    ensures forall k :: k in acc ==> acc[k] > 0
  {
    acc := map[];
    for i := 0 to |events|
      invariant Tallies(acc, events[..i], name)
      invariant forall k :: k in acc ==> acc[k] > 0
    {
      assert events[..i + 1][..i] == events[..i];
      var k := name(events[i]);
      acc := acc[k := (if k in acc then acc[k] else 0) + 1];
    }
    assert events[..|events|] == events;
  }

  /** Where in a list the successful events are, and those of an action or a resource. */
  function Succeeding(events: seq<AuditEvent>): set<nat> { set i | 0 <= i < |events| && events[i].success }

  function Acting(events: seq<AuditEvent>, a: string): set<nat> { set i | 0 <= i < |events| && events[i].action == a }

  function Touching(events: seq<AuditEvent>, r: string): set<nat> {
    set i | 0 <= i < |events| && events[i].resource == r
  }

  lemma SucceedingSnoc(before: seq<AuditEvent>, e: AuditEvent)
    ensures Succeeding([]) == {} && |before| !in Succeeding(before)
    ensures Succeeding(before + [e]) == Succeeding(before) + (if e.success then {|before|} else {})
  {
  }

  lemma {:induction false} SucceedingCount(events: seq<AuditEvent>)
    ensures Successes(events) == |Succeeding(events)|
  {
    hide Succeeding;
    if events == [] {
      SucceedingSnoc(events, AuditEvent("", "", None, "", "", false));
    } else {
      var before, e := events[..|events| - 1], events[|events| - 1];
      SucceedingCount(before);
      SucceedingSnoc(before, e);
      assert events == before + [e];
    }
  }

  lemma ActingSnoc(before: seq<AuditEvent>, e: AuditEvent, a: string)
    ensures Acting([], a) == {} && |before| !in Acting(before, a)
    ensures Acting(before + [e], a) == Acting(before, a) + (if e.action == a then {|before|} else {})
  {
  }

  lemma {:induction false} ActingCount(events: seq<AuditEvent>, a: string)
    ensures Occurrences(events, ActionOf, a) == |Acting(events, a)|
  {
    hide Acting;
    if events == [] {
      ActingSnoc(events, AuditEvent("", "", None, "", "", false), a);
    } else {
      var before, e := events[..|events| - 1], events[|events| - 1];
      ActingCount(before, a);
      ActingSnoc(before, e, a);
      assert events == before + [e];
    }
  }

  lemma TouchingSnoc(before: seq<AuditEvent>, e: AuditEvent, r: string)
    ensures Touching([], r) == {} && |before| !in Touching(before, r)
    ensures Touching(before + [e], r) == Touching(before, r) + (if e.resource == r then {|before|} else {})
  {
  }

  lemma {:induction false} TouchingCount(events: seq<AuditEvent>, r: string)
    ensures Occurrences(events, ResourceOf, r) == |Touching(events, r)|
  {
    hide Touching;
    if events == [] {
      TouchingSnoc(events, AuditEvent("", "", None, "", "", false), r);
    } else {
      var before, e := events[..|events| - 1], events[|events| - 1];
      TouchingCount(before, r);
      TouchingSnoc(before, e, r);
      assert events == before + [e];
    }
  }

  function ActionOf(e: AuditEvent): string { e.action }

  function ResourceOf(e: AuditEvent): string { e.resource }

  /** In percent. */
  function SuccessRate(part: nat, total: nat): (rate: real)
    requires part <= total
    ensures 0.0 <= rate <= 100.0 && rate * (total as real) == (part as real) * 100.0
    ensures total == 0 ==> rate == 0.0
  {
    if total > 0 then
      var q := (part as real) / (total as real);
      assert q * (total as real) == part as real;
      assert 0.0 <= q <= 1.0;
      q * 100.0
    else 0.0
  }

  lemma MatchingSnoc(events: seq<AuditEvent>, e: AuditEvent, f: Filters)
    ensures Matching(events + [e], f) == Matching(events, f) + if Matches(e, f) then [e] else []
  {
    assert (events + [e])[..|events|] == events;
  }

  lemma MatchingStep(history: seq<AuditEvent>, k: nat, f: Filters)
    ensures Matching(NewestFirst(history, k + 1), f)
         == Matching(NewestFirst(history, k), f)
            + match Nth(history, k + 1) { case Some(e) => if Matches(e, f) then [e] else [] case None => [] }
  {
    NewestStep(history, k);
    assert NewestFirst(history, k) + [] == NewestFirst(history, k);
    if k < |history| { MatchingSnoc(NewestFirst(history, k), history[|history| - 1 - k], f); }
  }

  /** Looking further back only appends matches. */
  lemma {:induction false} MatchingOfLonger(history: seq<AuditEvent>, n: nat, m: nat, f: Filters)
    requires n <= m
    ensures Matching(NewestFirst(history, n), f) <= Matching(NewestFirst(history, m), f)
  {
    hide Matching, NewestFirst;
    if n < m {
      MatchingOfLonger(history, n, m - 1, f);
      MatchingStep(history, m - 1, f);
    }
  }

  /** Positions, in order, of what was picked from a list. */
  ghost predicate Picks(positions: seq<nat>, events: seq<AuditEvent>, picked: seq<AuditEvent>) {
    && |positions| == |picked|
    && (forall i, j :: 0 <= i < j < |positions| ==> positions[i] < positions[j])
    && forall i :: 0 <= i < |positions| ==> positions[i] < |events| && picked[i] == events[positions[i]]
  }

  /** The positions are those of the matching events. */
  ghost predicate Marks(positions: seq<nat>, events: seq<AuditEvent>, f: Filters) {
    forall k :: 0 <= k < |events| ==> (k in positions <==> Matches(events[k], f))
  }

  lemma {:induction false} MatchingPicks(events: seq<AuditEvent>, f: Filters) returns (positions: seq<nat>)
    ensures Picks(positions, events, Matching(events, f)) && Marks(positions, events, f)
  {
    hide Matches, Picks, Marks, Matching;
    if events == [] {
      positions := [];
      PicksNothing(events, f);
    } else {
      var before, e := events[..|events| - 1], events[|events| - 1];
      positions := MatchingPicks(before, f);
      assert events == before + [e];
      MatchingSnoc(before, e, f);
      PicksOneMore(positions, before, Matching(before, f), e, f);
      if Matches(e, f) {
        positions := positions + [|before|];
      } else {
        assert Matching(before, f) + [] == Matching(before, f);
      }
    }
  }

  lemma PicksNothing(events: seq<AuditEvent>, f: Filters)
    requires events == []
    ensures Picks([], events, Matching(events, f)) && Marks([], events, f)
  {
  }

  lemma PicksOneMore(positions: seq<nat>, events: seq<AuditEvent>, picked: seq<AuditEvent>, e: AuditEvent, f: Filters)
    requires Picks(positions, events, picked) && Marks(positions, events, f)
    ensures Picks(positions, events + [e], picked) && Picks(positions + [|events|], events + [e], picked + [e])
    ensures if Matches(e, f) then Marks(positions + [|events|], events + [e], f) else Marks(positions, events + [e], f)
  {
    hide Matches;
    assert |events| !in positions;
  }

  /** The event fails a criterion that the filters give. */
  predicate Fails(e: AuditEvent, f: Filters) {
    || (f.userId.Some? && f.userId.value != "" && e.userId != Some(f.userId.value))
    || (f.action.Some? && f.action.value != "" && f.action.value != e.action)
    || (f.resource.Some? && f.resource.value != "" && f.resource.value != e.resource)
    || f.success == Some(!e.success)
    || (f.startTime.Some? && f.startTime.value != "" && !AtMost(f.startTime.value, e.timestamp))
    || (f.endTime.Some? && f.endTime.value != "" && !AtMost(e.timestamp, f.endTime.value))
  }

  lemma MatchesUnlessFails(e: AuditEvent, f: Filters)
    ensures Matches(e, f) <==> !Fails(e, f)
  {
    hide AtMost;
  }

  /** What a search returns: events of the list, in its order, none of which fails a criterion; and
      any other event fails one, or comes after as many as the limit asks for. */
  lemma SearchPicks(events: seq<AuditEvent>, f: Filters) returns (positions: seq<nat>)
    ensures var results := Take(Matching(events, f), MaxLimit(f));
            var limit := if f.limit.Some? && f.limit.value > 0 then f.limit.value else 100;
            && Picks(positions, events, results) && |results| <= limit
            && (forall k :: k in positions ==> !Fails(events[k], f))
            && forall k :: 0 <= k < |events| && k !in positions ==>
                 Fails(events[k], f) || (|results| == limit && forall j :: j in positions ==> j < k)
  {
    hide Matches, Fails, Matching;
    var all := MatchingPicks(events, f);
    positions := Take(all, MaxLimit(f));
    forall e ensures Matches(e, f) <==> !Fails(e, f) { MatchesUnlessFails(e, f); }
    forall k | 0 <= k < |events| && k !in positions && !Fails(events[k], f)
      ensures |positions| == MaxLimit(f) && forall j :: j in positions ==> j < k
    {
      var i :| 0 <= i < |all| && all[i] == k;
      assert i >= |positions|;
    }
  }

  /** Every result meets every criterion that the filters give. */
  predicate AllMeet(results: seq<AuditEvent>, f: Filters) {
    && (f.userId.Some? && f.userId.value != "" ==> forall e :: e in results ==> e.userId == f.userId)
    && (f.action.Some? && f.action.value != "" ==> forall e :: e in results ==> e.action == f.action.value)
    && (f.resource.Some? && f.resource.value != "" ==> forall e :: e in results ==> e.resource == f.resource.value)
    && (f.success.Some? ==> forall e :: e in results ==> e.success == f.success.value)
    && (f.startTime.Some? && f.startTime.value != "" ==>
          forall e :: e in results ==> AtMost(f.startTime.value, e.timestamp))
    && (f.endTime.Some? && f.endTime.value != "" ==>
          forall e :: e in results ==> AtMost(e.timestamp, f.endTime.value))
  }

  /** The results are events of the list in its order, and any other event fails a criterion or comes
      after as many results as the limit asks for. */
  ghost predicate Complete(events: seq<AuditEvent>, f: Filters, results: seq<AuditEvent>) {
    var limit := if f.limit.Some? && f.limit.value > 0 then f.limit.value else 100;
    exists positions ::
      && Picks(positions, events, results)
      && forall k :: 0 <= k < |events| && k !in positions ==>
           Fails(events[k], f) || (|results| == limit && forall j :: j in positions ==> j < k)
  }

  lemma SearchTells(events: seq<AuditEvent>, f: Filters)
    ensures var results := Take(Matching(events, f), MaxLimit(f));
            AllMeet(results, f) && Complete(events, f, results)
  {
    var positions := SearchPicks(events, f);
    NoneFails(Take(Matching(events, f), MaxLimit(f)), f) by {
      hide Matching, Fails, Take;
      assert forall e :: e in Take(Matching(events, f), MaxLimit(f)) ==> !Fails(e, f);
    }
    hide Matching, Fails, Take, AllMeet;
  }

  lemma NoneFails(results: seq<AuditEvent>, f: Filters)
    requires forall e :: e in results ==> !Fails(e, f)
    ensures AllMeet(results, f)
  {
    hide AtMost;
  }

  lemma NothingYet(history: seq<AuditEvent>, f: Filters)
    ensures Matching(NewestFirst(history, 0), f) == []
  {
  }

  lemma SearchEnds(history: seq<AuditEvent>, count: nat, capacity: nat, f: Filters, results: seq<AuditEvent>)
    requires count <= capacity && results == Matching(NewestFirst(history, count), f) && |results| <= MaxLimit(f)
    requires count == capacity || |results| == MaxLimit(f)
    ensures results == Take(Matching(NewestFirst(history, capacity), f), MaxLimit(f))
  {
    MatchingOfLonger(history, count, capacity, f);
  }
}
