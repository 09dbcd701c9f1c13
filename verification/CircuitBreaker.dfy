/** The three-state breaker both limiters carry: fields `circuitBreakerState`,
    `failureCount` and `lastFailureTime`, and the three places that change them. */
module CircuitBreaker {
  datatype Mode = Closed | Open | HalfOpen

  datatype Policy = Policy(failureThreshold: int, recoveryTimeout: int)

  datatype Breaker = Breaker(mode: Mode, failureCount: nat, lastFailureTime: nat) {
    /** An open breaker answers by itself until the recovery timeout has passed. */
    predicate Blocks(p: Policy, now: nat) {
      mode.Open? && now - lastFailureTime < p.recoveryTimeout
    }

    /** What entering a call that is not blocked does: open turns half-open. */
    function Probe(): Breaker { if mode.Open? then this.(mode := HalfOpen) else this }

    /** `recordFailure`, called for every denial and every caught exception. */
    function RecordFailure(p: Policy, now: nat): Breaker {
      Breaker(if failureCount + 1 >= p.failureThreshold then Open else mode, failureCount + 1, now)
    }

    /** An allowed call closes a half-open breaker; in the other states it changes nothing,
        so failures keep adding up across successes. */
    function Succeed(): Breaker {
      if mode.HalfOpen? then this.(mode := Closed, failureCount := 0) else this
    }

    /** What the threshold is meant to separate. */
    predicate Consistent(p: Policy) {
      mode.Closed? <==> failureCount < p.failureThreshold
    }
  }

  function Initial(): Breaker { Breaker(Closed, 0, 0) }

  /** The breaker operations of one limiter object, in the order they happened. Calls in
      flight at the same time interleave these freely. */
  datatype Op = Admit(now: nat) | Fail(now: nat) | Pass

  function ApplyOp(p: Policy, b: Breaker, op: Op): Breaker {
    match op
    case Admit(now) => if b.Blocks(p, now) then b else b.Probe()
    case Fail(now) => b.RecordFailure(p, now)
    case Pass => b.Succeed()
  }

  function After(p: Policy, ops: seq<Op>): Breaker {
    if ops == [] then Initial() else ApplyOp(p, After(p, ops[..|ops| - 1]), ops[|ops| - 1])
  }

  /** The operation at this position takes the breaker from half-open to closed. */
  predicate Closes(p: Policy, ops: seq<Op>, i: nat) { i < |ops| && ops[i].Pass? && After(p, ops[..i]).mode.HalfOpen? }

  /** Where the operations after the last such transition begin. */
  function LastClose(p: Policy, ops: seq<Op>): (n: nat)
    ensures n <= |ops| && (n == 0 || Closes(p, ops, n - 1)) && forall i: nat :: n <= i ==> !Closes(p, ops, i)
  {
    if ops == [] then 0
    else
      var before := ops[..|ops| - 1];
      assert forall i :: 0 <= i < |before| ==> before[..i] == ops[..i];
      assert forall i: nat :: i < |before| ==> Closes(p, before, i) == Closes(p, ops, i);
      if Closes(p, ops, |ops| - 1) then |ops| else LastClose(p, before)
  }

  function Failures(ops: seq<Op>): nat {
    if ops == [] then 0 else Failures(ops[..|ops| - 1]) + if ops[|ops| - 1].Fail? then 1 else 0
  }

  /** Failures recorded after the last half-open to closed transition of the run. */
  function FailuresSinceClose(p: Policy, ops: seq<Op>): nat { Failures(ops[LastClose(p, ops)..]) }

  lemma {:induction false} AfterConsistent(p: Policy, ops: seq<Op>)
    requires p.failureThreshold >= 1
    ensures After(p, ops).Consistent(p)
  {
    if ops != [] { AfterConsistent(p, ops[..|ops| - 1]); }
  }

  /** Closed means below the threshold and open or half-open means at or above it, in every
      run of interleaved operations: exactly for thresholds of at least one. */
  lemma ConsistentIffPositiveThreshold(p: Policy)
    ensures (forall ops :: After(p, ops).Consistent(p)) <==> p.failureThreshold >= 1
  {
    if p.failureThreshold >= 1 {
      forall ops ensures After(p, ops).Consistent(p) { AfterConsistent(p, ops); }
    } else {
      var none: seq<Op> := [];
      assert !After(p, none).Consistent(p);
    }
  }

  /** The counter is the number of failures since the breaker last closed. */
  lemma {:induction false} CountsFailuresSinceClose(p: Policy, ops: seq<Op>)
    ensures After(p, ops).failureCount == FailuresSinceClose(p, ops)
  {
    if ops != [] {
      var before := ops[..|ops| - 1];
      CountsFailuresSinceClose(p, before);
      var n := LastClose(p, ops);
      if n < |ops| { assert ops[n..][..|ops[n..]| - 1] == before[n..]; }
    }
  }

  /** The time of the latest recorded failure of a run. */
  function LatestFailure(ops: seq<Op>): nat {
    if ops == [] then 0
    else match ops[|ops| - 1]
      case Fail(now) => now
      case _ => LatestFailure(ops[..|ops| - 1])
  }

  lemma {:induction false} RemembersLatestFailure(p: Policy, ops: seq<Op>)
    ensures After(p, ops).lastFailureTime == LatestFailure(ops)
  {
    if ops != [] { RemembersLatestFailure(p, ops[..|ops| - 1]); }
  }

  /** Blocked answers never postpone recovery: however many calls an open breaker turns
      away, the first call at or after latest failure + recoveryTimeout is let through,
      and none before that time is. */
  lemma {:induction false} BlockedCallsDoNotPostponeRecovery(p: Policy, ops: seq<Op>, blocked: seq<Op>, now: nat)
    requires After(p, ops).mode.Open?
    requires forall i :: 0 <= i < |blocked| ==>
               blocked[i].Admit? && blocked[i].now < LatestFailure(ops) + p.recoveryTimeout
    ensures After(p, ops + blocked) == After(p, ops)
    ensures After(p, ops + blocked).Blocks(p, now) <==> now < LatestFailure(ops) + p.recoveryTimeout
    decreases |blocked|
  {
    RemembersLatestFailure(p, ops);
    if blocked == [] {
      assert ops + blocked == ops;
    } else {
      var rest := blocked[..|blocked| - 1];
      BlockedCallsDoNotPostponeRecovery(p, ops, rest, now);
      assert (ops + blocked)[..|ops + blocked| - 1] == ops + rest;
    }
  }
}
