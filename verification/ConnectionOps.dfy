/** libs/utils/src/executeWithRetry.ts, lines 373-392 and 590-593: the per-connection set of
    operations in progress that caps how many may run at once. */
module ConnectionOps {
  /** A call is accepted while fewer operations than the cap are tracked, and then tracked. */
  predicate Accepts(ops: set<string>, cap: int) { |ops| < cap }

  function Entered(ops: set<string>, operationId: string, cap: int): set<string> {
    if Accepts(ops, cap) then ops + {operationId} else ops
  }

  function Left(ops: set<string>, operationId: string): set<string> { ops - {operationId} }

  class Connection {
    var concurrentOps: set<string>

    constructor ()
      ensures concurrentOps == {}
    {
      concurrentOps := {};
    }

    /** A call over the cap is rejected before it is tracked, and so never cleans up either. */
    method Enter(operationId: string, maxConcurrentOperations: int) returns (accepted: bool)
      modifies this
      ensures accepted == Accepts(old(concurrentOps), maxConcurrentOperations)
      ensures concurrentOps == Entered(old(concurrentOps), operationId, maxConcurrentOperations)
      ensures accepted <==> |old(concurrentOps)| < maxConcurrentOperations
      ensures concurrentOps == if accepted then old(concurrentOps) + {operationId} else old(concurrentOps)
    {
      if |concurrentOps| >= maxConcurrentOperations {
        return false;
      }
      concurrentOps := concurrentOps + {operationId};
      accepted := true;
    }

    /** The `finally` block of an accepted call, however it ended. */
    method Leave(operationId: string)
      modifies this
      ensures concurrentOps == Left(old(concurrentOps), operationId)
      ensures forall id :: id in concurrentOps <==> id in old(concurrentOps) && id != operationId
    {
      concurrentOps := concurrentOps - {operationId};
    }
  }

  /** The connection's set next to the calls that are really in progress. Calls are numbered;
      `ids` gives the operation id each of them draws. */
  datatype State = State(tracked: set<string>, running: set<nat>)

  datatype Label = Starts(call: nat) | Ends(call: nat)

  datatype Setup = Setup(cap: int, ids: nat -> string) {
    ghost predicate DistinctIds() { forall a, b :: ids(a) == ids(b) ==> a == b }
  }

  /** A start is `Connection.Enter` and an end `Connection.Leave`, each with the call's own id.
      Starts of a call in progress and ends of one that is not do not happen. */
  function Step(u: Setup, s: State, l: Label): State {
    match l
    case Starts(n) =>
      if n in s.running then s
      else State(Entered(s.tracked, u.ids(n), u.cap), if Accepts(s.tracked, u.cap) then s.running + {n} else s.running)
    case Ends(n) =>
      if n !in s.running then s else State(Left(s.tracked, u.ids(n)), s.running - {n})
  }

  function Run(u: Setup, ls: seq<Label>): State {
    if ls == [] then State({}, {}) else Step(u, Run(u, ls[..|ls| - 1]), ls[|ls| - 1])
  }

  function IdsOf(u: Setup, running: set<nat>): set<string> { set n | n in running :: u.ids(n) }

  /** The set is exactly the ids of the calls in progress. */
  ghost predicate Faithful(u: Setup, s: State) { s.tracked == IdsOf(u, s.running) }

  function Cap(u: Setup): (c: nat)
    ensures c >= u.cap && (c == 0 || c == u.cap)
  {
    if u.cap < 0 then 0 else u.cap
  }

  lemma {:induction false} RunFaithful(u: Setup, ls: seq<Label>)
    requires u.cap <= 1 || u.DistinctIds()
    ensures Faithful(u, Run(u, ls)) && |Run(u, ls).running| == |Run(u, ls).tracked| <= Cap(u)
  {
    if ls != [] {
      var s, l := Run(u, ls[..|ls| - 1]), ls[|ls| - 1];
      RunFaithful(u, ls[..|ls| - 1]);
      StepFaithful(u, s, l);
    }
  }

  lemma StepFaithful(u: Setup, s: State, l: Label)
    requires u.cap <= 1 || u.DistinctIds()
    requires Faithful(u, s) && |s.running| == |s.tracked| <= Cap(u)
    ensures var s' := Step(u, s, l); Faithful(u, s') && |s'.running| == |s'.tracked| <= Cap(u)
  {
    var n := l.call;
    assert forall m :: m in s.running && m != n && n in s.running ==> u.ids(m) != u.ids(n) by {
      if u.cap <= 1 { AtMostOne(s.running, n); }
    }
    if l.Starts? && n !in s.running && |s.tracked| < u.cap {
      IdsAdd(u, s.running, n);
      assert u.ids(n) !in s.tracked;
    } else if l.Ends? && n in s.running {
      IdsRemove(u, s.running, n);
    }
  }

  lemma IdsAdd(u: Setup, running: set<nat>, n: nat)
    ensures IdsOf(u, running + {n}) == IdsOf(u, running) + {u.ids(n)}
  {
  }

  lemma IdsRemove(u: Setup, running: set<nat>, n: nat)
    requires n in running && forall m :: m in running && m != n ==> u.ids(m) != u.ids(n)
    ensures IdsOf(u, running - {n}) == IdsOf(u, running) - {u.ids(n)} && u.ids(n) in IdsOf(u, running)
  {
  }

  lemma AtMostOne(xs: set<nat>, n: nat)
    requires |xs| <= 1
    ensures n in xs ==> xs == {n}
  {
    if n in xs { assert |xs - {n}| == 0; }
  }

  /** In every interleaving of starts, successes, failures and timeouts the connection's set is
      exactly the calls in progress, and so empty when there are none: if and only if no two
      calls draw the same id, or at most one may run anyway. */
  lemma FaithfulIff(u: Setup)
    ensures (forall ls :: Faithful(u, Run(u, ls))) <==> (u.cap <= 1 || u.DistinctIds())
  {
    if u.cap <= 1 || u.DistinctIds() {
      forall ls ensures Faithful(u, Run(u, ls)) { RunFaithful(u, ls); }
    } else {
      var a, b :| u.ids(a) == u.ids(b) && a != b;
      SharedIdBreaks(u, a, b);
    }
  }

  lemma SharedIdBreaks(u: Setup, a: nat, b: nat)
    requires u.ids(a) == u.ids(b) && a != b && u.cap > 1
    ensures var s := Run(u, [Starts(a), Starts(b), Ends(a)]); !Faithful(u, s) && s == State({}, {b})
  {
    var l1, l2, l3 := [Starts(a)], [Starts(a), Starts(b)], [Starts(a), Starts(b), Ends(a)];
    assert l2[..1] == l1 && l3[..2] == l2;
    assert Run(u, l1) == State({u.ids(a)}, {a});
    assert {u.ids(a)} + {u.ids(b)} == {u.ids(a)} && {a} + {b} == {a, b};
    assert Run(u, l2) == State({u.ids(a)}, {a, b});
    assert Run(u, l3) == State({}, {a, b} - {a}) && {a, b} - {a} == {b};
    assert u.ids(b) in IdsOf(u, {b});
  }

  /** Starts of the q calls from number a on. */
  function StartAll(a: nat, q: nat): seq<Label> { if q == 0 then [] else StartAll(a, q - 1) + [Starts(a + q - 1)] }

  lemma RunSnoc(u: Setup, ls: seq<Label>, l: Label)
    ensures Run(u, ls + [l]) == Step(u, Run(u, ls), l)
  {
    assert (ls + [l])[..|ls|] == ls;
  }

  /** When the set has lost a running call, as many more calls as the cap are accepted. */
  lemma {:induction false} RefillsTheCap(u: Setup, before: seq<Label>, a: nat, q: nat)
    requires Run(u, before).tracked == {} && q <= u.cap && forall n :: n in Run(u, before).running ==> n < a
    ensures var s := Run(u, before + StartAll(a, q));
            && |s.tracked| <= q && |s.running| == |Run(u, before).running| + q
               && forall n :: n in s.running ==> n < a + q
  {
    hide Run, Step;
    if q == 0 {
      assert before + StartAll(a, 0) == before;
    } else {
      RefillsTheCap(u, before, a, q - 1);
      assert before + StartAll(a, q) == (before + StartAll(a, q - 1)) + [Starts(a + q - 1)];
      hide StartAll;
      RunSnoc(u, before + StartAll(a, q - 1), Starts(a + q - 1));
      OneMoreStarts(u, Run(u, before + StartAll(a, q - 1)), a + q - 1);
    }
  }

  lemma OneMoreStarts(u: Setup, s: State, n: nat)
    requires n !in s.running && |s.tracked| < u.cap
    ensures var s' := Step(u, s, Starts(n));
            |s'.tracked| <= |s.tracked| + 1 && s'.running == s.running + {n} && |s'.running| == |s.running| + 1
  {
  }

  lemma SharedIdOverfills(u: Setup, a: nat, b: nat) returns (ls: seq<Label>)
    requires u.ids(a) == u.ids(b) && a != b && u.cap > 1
    ensures |Run(u, ls).running| == u.cap + 1
  {
    var before := [Starts(a), Starts(b), Ends(a)];
    SharedIdBreaks(u, a, b);
    ls := before + StartAll(a + b + 1, u.cap);
    RefillsTheCap(u, before, a + b + 1, u.cap);
  }

  /** Never more operations in progress than the cap allows, in any interleaving: again if and
      only if no two calls draw the same id, or at most one may run anyway. */
  lemma CapHoldsIff(u: Setup)
    ensures (forall ls :: |Run(u, ls).running| <= Cap(u)) <==> (u.cap <= 1 || u.DistinctIds())
  {
    if u.cap <= 1 || u.DistinctIds() {
      forall ls ensures |Run(u, ls).running| <= Cap(u) { RunFaithful(u, ls); }
    } else {
      var a, b :| u.ids(a) == u.ids(b) && a != b;
      var ls := SharedIdOverfills(u, a, b);
      assert |Run(u, ls).running| > Cap(u);
    }
  }
}
