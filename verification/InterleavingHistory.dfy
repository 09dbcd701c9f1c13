/** What the history of a run says: every allowed call is one element of `granted`, and when no
    instance begins two calls in one millisecond, calls are as many as request ids. */
module InterleavingHistory {
  import opened Redis
  import opened WindowLog
  import opened DistributedInterleaving

  /** Calls in flight and calls granted are different numbers, each begun once. */
  ghost predicate Recorded(s: State) {
    && (forall id :: id in s.calls ==> id in s.begun && s.begun[id] == Request(s.calls[id].key, s.calls[id].Id()))
    && (forall x :: x in s.granted ==>
          x.call in s.begun && s.begun[x.call] == Request(x.key, x.id) && x.call !in s.calls)
    && forall x, y :: x in s.granted && y in s.granted && x.call == y.call ==> x == y
  }

  function Moved(calls: map<nat, Call>, id: nat, c: Call, out: Outcome): map<nat, Call> {
    if out.Continue? then calls[id := c.(phase := out.next)]
    else if out.Deny? then calls[id := c.(phase := Publish)]
    else calls - {id}
  }

  /** What the reply to a command changes. */
  lemma ReplyShape(sys: System, s: State, id: nat, reply: Reply)
    requires id in s.calls
    ensures var c, s' := s.calls[id], OnReply(sys, s, id, reply);
            var p := PerformIn(sys, s, c, reply);
            && s'.clock == s.clock && s'.begun == s.begun && s'.calls == Moved(s.calls, id, c, p.outcome)
            && s'.granted == (if p.outcome.Grant? && !c.wiped
                              then s.granted + {Granted(id, c.key, c.Id(), c.evicted)} else s.granted)
            && Lookup(s'.store, Global(c.key)) == p.global
            && Lookup(s'.store, PerInstance(c.instance, c.key)) == p.local
            && forall k :: k != Global(c.key) && k != PerInstance(c.instance, c.key) ==>
                 Lookup(s'.store, k) == Lookup(s.store, k)
  {
    hide PerformIn, Operate, BreakerOps;
  }

  lemma MovedKeepsRecorded(s: State, s': State, id: nat, out: Outcome, wiped: bool)
    requires Recorded(s) && id in s.calls && s'.begun == s.begun && s'.calls == Moved(s.calls, id, s.calls[id], out)
    requires var c := s.calls[id];
             s'.granted == if out.Grant? && !wiped then s.granted + {Granted(id, c.key, c.Id(), c.evicted)}
                           else s.granted
    ensures Recorded(s')
  {
  }

  lemma BeginKeepsRecorded(sys: System, s: State, l: Label)
    requires Recorded(s) && l.Begin?
    ensures Recorded(Step(sys, s, l))
  {
    hide Operate, InFlight;
  }

  lemma OtherKeepsRecorded(sys: System, s: State, l: Label)
    requires Recorded(s) && !l.Command? && !l.Begin?
    ensures Recorded(Step(sys, s, l))
  {
    hide Swept, ZSet.Evict;
  }

  lemma StepKeepsRecorded(sys: System, s: State, l: Label)
    requires Recorded(s)
    ensures Recorded(Step(sys, s, l))
  {
    hide OnReply, Recorded, Moved, PerformIn;
    if l.Command? {
      if l.call in s.calls {
        ReplyShape(sys, s, l.call, l.reply);
        var c := s.calls[l.call];
        MovedKeepsRecorded(s, Step(sys, s, l), l.call, PerformIn(sys, s, c, l.reply).outcome, c.wiped);
      }
    } else {
      hide Step;
      if l.Begin? { BeginKeepsRecorded(sys, s, l); } else { OtherKeepsRecorded(sys, s, l); }
    }
  }

  lemma {:induction false} RunRecorded(sys: System, ls: seq<Label>)
    ensures Recorded(Run(sys, ls))
  {
    if ls != [] {
      hide Step, Recorded;
      RunRecorded(sys, ls[..|ls| - 1]);
      StepKeepsRecorded(sys, Run(sys, ls[..|ls| - 1]), ls[|ls| - 1]);
    }
  }

  /** Every call that is allowed adds one, whatever its timestamp, its instance or its key. */
  lemma EachGrantCounts(sys: System, ls: seq<Label>, id: nat, reply: Reply)
    requires var s := Run(sys, ls);
             id in s.calls && !s.calls[id].wiped && PerformIn(sys, s, s.calls[id], reply).outcome.Grant?
    ensures |Run(sys, ls + [Command(id, reply)]).granted| == |Run(sys, ls).granted| + 1
  {
    RunRecorded(sys, ls);
    assert (ls + [Command(id, reply)])[..|ls|] == ls;
    hide PerformIn, Operate, BreakerOps;
    var s, c := Run(sys, ls), Run(sys, ls).calls[id];
    assert Granted(id, c.key, c.Id(), c.evicted) !in s.granted;
  }

  function CallsOf(xs: set<Granted>): set<nat> { set x | x in xs :: x.call }

  function IdsOf(xs: set<Granted>): set<RequestId> { set x | x in xs :: x.id }

  lemma {:induction false} AsManyNumbers(s: State, xs: set<Granted>)
    requires Recorded(s) && xs <= s.granted
    ensures |CallsOf(xs)| == |xs| && CallsOf(xs) !! s.calls.Keys
  {
    if x :| x in xs {
      AsManyNumbers(s, xs - {x});
      assert CallsOf(xs) == CallsOf(xs - {x}) + {x.call};
    } else {
      assert CallsOf(xs) == {};
    }
  }

  lemma {:induction false} AsManyIds(s: State, key: string, xs: set<Granted>)
    requires Recorded(s) && Paced(s, key) && xs <= s.granted && forall x :: x in xs ==> x.key == key
    ensures |IdsOf(xs)| == |xs|
  {
    if x :| x in xs {
      AsManyIds(s, key, xs - {x});
      assert IdsOf(xs) == IdsOf(xs - {x}) + {x.id};
      assert x.id !in IdsOf(xs - {x}) by {
        forall y | y in xs - {x} ensures y.id != x.id { assert y.call != x.call; }
      }
    } else {
      assert IdsOf(xs) == {};
    }
  }

  /** So a set that holds their ids is at least as large. */
  lemma AtMostCard(s: State, key: string, xs: set<Granted>, z: ZSet)
    requires Recorded(s) && Paced(s, key) && xs <= s.granted && forall x :: x in xs ==> x.key == key && x.id in z.scores
    ensures |xs| <= z.Card()
  {
    AsManyIds(s, key, xs);
    SubsetCard(IdsOf(xs), z.scores.Keys);
    assert |z.scores.Keys| == |z.scores|;
  }
}
