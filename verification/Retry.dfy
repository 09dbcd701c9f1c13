/** libs/utils/src/executeWithRetry.ts: the retry loop with exponential backoff, the real-time
    loop with a grace deadline, and the per-connection cap on operations in progress. The
    outcome of the k-th invocation and the k-th random draw are functions of k; `onError`
    does not throw, and timers fire when they are due. */
module Retry {
  /** Invoking the operation: it resolves with a value or rejects with a message. */
  datatype Outcome<T> = Value(value: T) | Failure(message: string)

  /** How the whole call ends. With no attempt allowed at all it resolves with nothing. */
  datatype Result<T> = Success(value: T) | Undefined | Failed(last: string)

  function Pow2(n: nat): (p: nat)
    ensures p >= 1
  {
    if n == 0 then 1 else 2 * Pow2(n - 1)
  }

  /** `retryDelay * Math.pow(2, n)` */
  function Full(retryDelay: real, n: nat): real { retryDelay * (Pow2(n) as real) }

  /** `retryDelay * (2^n - 1)`, the sum of the first n full delays. */
  function AllFull(retryDelay: real, n: nat): real { retryDelay * ((Pow2(n) - 1) as real) }

  /** With jitter, a draw in [0, 1) picks from the upper half of the full delay. */
  function Jittered(full: real, jitter: bool, draw: real): real {
    if jitter then full * (0.5 + draw * 0.5) else full
  }

  /** Backoff after the given failed attempt. */
  function Delay(retryDelay: real, jitter: bool, draw: real, attempt: nat): int
    requires attempt >= 1
  {
    Jittered(Full(retryDelay, attempt - 1), jitter, draw).Floor
  }

  /** The sleeps after attempts 1 to n. */
  function Delays(retryDelay: real, jitter: bool, draws: nat -> real, n: nat): seq<int> {
    if n == 0 then [] else Delays(retryDelay, jitter, draws, n - 1) + [Delay(retryDelay, jitter, draws(n), n)]
  }

  function Sum(xs: seq<int>): int { if xs == [] then 0 else Sum(xs[..|xs| - 1]) + xs[|xs| - 1] }

  function OneTo(n: nat): seq<nat> { seq(n, i => i + 1) }

  /** No attempt up to n succeeds. */
  ghost predicate AllFail<T(!new)>(outcome: nat -> Outcome<T>, n: int) {
    forall k: nat :: 1 <= k <= n ==> outcome(k).Failure?
  }

  /** The custom path of `executeWithRetry`: how often the operation ran, which attempt numbers
      `onError` saw, and how long the loop slept in between. */
  method ExecuteWithRetry<T(!new)>(maxRetries: int, retryDelay: real, jitter: bool, outcome: nat -> Outcome<T>,
                                   draws: nat -> real)
    returns (r: Result<T>, runs: nat, reported: seq<nat>, slept: seq<int>)
    ensures maxRetries < 1 ==> r.Undefined? && runs == 0
    ensures maxRetries >= 1 ==> 1 <= runs <= maxRetries
    ensures maxRetries >= 1 ==>
            (r.Failed? <==> AllFail(outcome, maxRetries)) && (r.Success? <==> !AllFail(outcome, maxRetries))
    ensures r.Success? ==> outcome(runs) == Value(r.value) && AllFail(outcome, runs - 1)
    ensures r.Failed? ==> runs == maxRetries && outcome(runs) == Failure(r.last)
    ensures reported == OneTo(if r.Success? then runs - 1 else runs)
    ensures forall i :: 0 <= i < |reported| ==> reported[i] == i + 1
    ensures slept == Delays(retryDelay, jitter, draws, if runs == 0 then 0 else runs - 1)
    ensures |slept| == (if runs == 0 then 0 else runs - 1)
    ensures forall k :: 1 <= k <= |slept| ==> slept[k - 1] == Delay(retryDelay, jitter, draws(k), k)
  {
    runs, reported, slept := 0, [], [];
    var attempt := 1;
    while attempt <= maxRetries
      invariant 1 <= attempt && (attempt <= maxRetries + 1 || attempt == 1)
      invariant runs == attempt - 1 && AllFail(outcome, runs)
      invariant reported == OneTo(runs) && slept == Delays(retryDelay, jitter, draws, runs) && |slept| == runs
      invariant forall k :: 1 <= k <= |slept| ==> slept[k - 1] == Delay(retryDelay, jitter, draws(k), k)
      invariant runs < maxRetries || maxRetries < 1
      decreases maxRetries + 1 - attempt
    {
      runs := runs + 1;
      match outcome(runs) {
        case Value(v) =>
          return Success(v), runs, reported, slept;
        case Failure(message) =>
          reported := reported + [attempt];
          if attempt == maxRetries {
            return Failed(message), runs, reported, slept;
          }
          slept := slept + [Delay(retryDelay, jitter, draws(attempt), attempt)];
      }
      attempt := attempt + 1;
    }
    r := Undefined;
  }

  lemma ProductNonNegative(a: real, b: real)
    requires a >= 0.0 && b >= 0.0
    ensures a * b >= 0.0
  {
  }

  lemma Distributes(a: real, b: real, c: real)
    ensures a * (b + c) == a * b + a * c
  {
  }

  /** Without jitter the delay is the full one; with it, the draw moves it from the middle of the full
      delay towards its end, in proportion. */
  lemma JitterIsProportional(full: real, draw: real)
    ensures Jittered(full, false, draw) == full
    ensures 2.0 * Jittered(full, true, draw) == full + full * draw
  {
    Distributes(full, 0.5, draw * 0.5);
    HalfProduct(full, draw);
  }

  /** So twice the delay after an attempt is the full one and the draw's share of it, less than two
      milliseconds rounded away. */
  lemma DelayFollowsDraw(retryDelay: real, draw: real, attempt: nat)
    requires attempt >= 1
    ensures var full, twice := Full(retryDelay, attempt - 1), 2.0 * (Delay(retryDelay, true, draw, attempt) as real);
            full + full * draw - 2.0 < twice <= full + full * draw
  {
    var full := Full(retryDelay, attempt - 1);
    JitterIsProportional(full, draw);
    FloorIs(Jittered(full, true, draw));
    hide Full, Jittered;
  }

  lemma FloorIs(x: real)
    ensures x - 1.0 < x.Floor as real <= x
  {
  }

  lemma HalfProduct(full: real, draw: real)
    ensures full * (draw * 0.5) == (full * draw) * 0.5
  {
  }

  /** The jittered delay lies in the upper half of the full one. */
  lemma JitterBounds(full: real, draw: real)
    requires full >= 0.0 && 0.0 <= draw < 1.0
    ensures full / 2.0 <= Jittered(full, true, draw) <= full
  {
    ProductNonNegative(full, draw * 0.5);
    ProductNonNegative(full, 0.5 - draw * 0.5);
    Distributes(full, 0.5, draw * 0.5);
    Distributes(full, 0.5 + draw * 0.5, 0.5 - draw * 0.5);
  }

  lemma FullNonNegative(retryDelay: real, n: nat)
    requires retryDelay >= 0.0
    ensures Full(retryDelay, n) >= 0.0
  {
    ProductNonNegative(retryDelay, Pow2(n) as real);
  }

  lemma DelayBounds(retryDelay: real, jitter: bool, draw: real, attempt: nat)
    requires attempt >= 1 && retryDelay >= 0.0 && 0.0 <= draw < 1.0
    ensures var full := Full(retryDelay, attempt - 1);
            && (if jitter then full / 2.0 else full) - 1.0 < Delay(retryDelay, jitter, draw, attempt) as real <= full
            && Delay(retryDelay, jitter, draw, attempt) >= 0
  {
    FullNonNegative(retryDelay, attempt - 1);
    var full := Full(retryDelay, attempt - 1);
    JitterBounds(full, draw);
    assert Jittered(full, false, draw) == full;
    hide Full, Jittered;
    FloorBounds(Jittered(full, jitter, draw));
  }

  lemma FloorBounds(x: real)
    requires x >= 0.0
    ensures x - 1.0 < x.Floor as real <= x && x.Floor >= 0
  {
  }

  /** What the loop sleeps before attempt k: at most retryDelay * (2^(k-1) - 1), and with
      rounding and jitter at least half of that less one millisecond per sleep. */
  lemma {:induction false} TotalSleep(retryDelay: real, jitter: bool, draws: nat -> real, k: nat)
    requires k >= 1 && retryDelay >= 0.0 && forall n :: 0.0 <= draws(n) < 1.0
    ensures var total, most := Sum(Delays(retryDelay, jitter, draws, k - 1)) as real, AllFull(retryDelay, k - 1);
            && total <= most
            && (if jitter then most / 2.0 else most) - ((k - 1) as real) <= total
  {
    if k == 1 {
      assert AllFull(retryDelay, 0) == 0.0;
    } else {
      hide AllFull, Full, Delay;
      TotalSleep(retryDelay, jitter, draws, k - 1);
      DelayBounds(retryDelay, jitter, draws(k - 1), k - 1);
      var before, last := Delays(retryDelay, jitter, draws, k - 2), Delay(retryDelay, jitter, draws(k - 1), k - 1);
      assert (before + [last])[..|before|] == before;
      assert Sum(Delays(retryDelay, jitter, draws, k - 1)) == Sum(before) + last;
      Doubling(retryDelay, k - 2);
    }
  }

  lemma Doubling(retryDelay: real, n: nat)
    ensures AllFull(retryDelay, n + 1) == AllFull(retryDelay, n) + Full(retryDelay, n)
  {
    var p := Pow2(n);
    Distributes(retryDelay, (p - 1) as real, p as real);
    assert ((2 * p - 1) as real) == ((p - 1) as real) + (p as real);
  }

  /** One attempt of the real-time loop, as seen through `Promise.race` with the timeout. */
  datatype Attempt = Attempt(resolves: bool, took: nat)

  /** The timer is set first, so it wins if both are due in the same millisecond. */
  function Raced(a: Attempt, connectionTimeout: nat): (r: Attempt)
    ensures r.resolves <==> a.resolves && a.took < connectionTimeout
    ensures r.took == if a.took < connectionTimeout then a.took else connectionTimeout
  {
    if a.took < connectionTimeout then a else Attempt(false, connectionTimeout)
  }

  datatype Ending = Resolved | Unhealthy | GraceExpired | Exhausted | NothingTried

  /** The largest backoff the loop can ask for: the one before the last attempt. */
  function LargestBackoff(maxRetries: int, retryDelay: real): int {
    if maxRetries < 2 then 0 else Full(retryDelay, maxRetries - 2).Floor
  }

  function Later(a: int, b: int): int { if a < b then b else a }

  lemma {:induction false} Pow2Grows(n: nat, m: nat)
    requires n <= m
    ensures Pow2(n) <= Pow2(m)
  {
    if n < m { Pow2Grows(n, m - 1); }
  }

  lemma BackoffWithinLargest(maxRetries: int, retryDelay: real, jitter: bool, draw: real, attempt: nat)
    requires 1 <= attempt < maxRetries && retryDelay >= 0.0 && 0.0 <= draw < 1.0
    ensures 0 <= Delay(retryDelay, jitter, draw, attempt) <= LargestBackoff(maxRetries, retryDelay)
  {
    DelayBounds(retryDelay, jitter, draw, attempt);
    FullGrows(retryDelay, attempt - 1, maxRetries - 2);
    hide Delay, Full;
    FloorMonotone(Delay(retryDelay, jitter, draw, attempt), Full(retryDelay, maxRetries - 2));
  }

  /** And it is one of them: the one before the last attempt, without jitter. */
  lemma LargestBackoffOccurs(maxRetries: int, retryDelay: real, draw: real)
    ensures LargestBackoff(maxRetries, retryDelay)
         == if maxRetries >= 2 then Delay(retryDelay, false, draw, maxRetries - 1) else 0
  {
  }

  lemma FullGrows(retryDelay: real, n: nat, m: nat)
    requires retryDelay >= 0.0 && n <= m
    ensures Full(retryDelay, n) <= Full(retryDelay, m)
  {
    Pow2Grows(n, m);
    var p, q := Pow2(n), Pow2(m);
    ProductNonNegative(retryDelay, (q - p) as real);
    Distributes(retryDelay, p as real, (q - p) as real);
    assert (p as real) + ((q - p) as real) == q as real;
  }

  lemma FloorMonotone(n: int, x: real)
    requires n as real <= x
    ensures n <= x.Floor
  {
  }

  function Smaller(a: int, b: int): (m: int)
    ensures m <= a && m <= b && (m == a || m == b)
  {
    if a < b then a else b
  }

  /** The moment the loop comes back after all attempts so far: the last one has failed, in its own
      time or by taking too long, and its backoff has passed. An attempt occupies what it took, but no
      more than the timeout. */
  ghost predicate ComesBack(starts: seq<nat>, moment: nat, checked: nat, retryDelay: real, jitter: bool,
                            connectionTimeout: nat, attempts: nat -> Attempt, draws: nat -> real) {
    var n := |starts|;
    if n == 0 then moment == checked
    else (!attempts(n).resolves || attempts(n).took >= connectionTimeout)
         && moment == starts[n - 1] + Smaller(attempts(n).took, connectionTimeout)
                      + Delay(retryDelay, jitter, draws(n), n)
  }

  /** Every attempt starts when the loop has come back from those before. */
  ghost predicate Spaced(starts: seq<nat>, checked: nat, retryDelay: real, jitter: bool, connectionTimeout: nat,
                         attempts: nat -> Attempt, draws: nat -> real) {
    forall k :: 0 <= k < |starts| ==>
      ComesBack(starts[..k], starts[k], checked, retryDelay, jitter, connectionTimeout, attempts, draws)
  }

  lemma SpacedOn(starts: seq<nat>, next: nat, checked: nat, retryDelay: real, jitter: bool, connectionTimeout: nat,
                 attempts: nat -> Attempt, draws: nat -> real)
    requires Spaced(starts, checked, retryDelay, jitter, connectionTimeout, attempts, draws)
    requires ComesBack(starts, next, checked, retryDelay, jitter, connectionTimeout, attempts, draws)
    ensures Spaced(starts + [next], checked, retryDelay, jitter, connectionTimeout, attempts, draws)
  {
    hide ComesBack;
    assert (starts + [next])[..|starts|] == starts;
    assert forall k :: 0 <= k < |starts| ==> (starts + [next])[..k] == starts[..k];
  }

  lemma ComesBackAfter(starts: seq<nat>, last: nat, moment: nat, checked: nat, retryDelay: real, jitter: bool,
                       connectionTimeout: nat, attempts: nat -> Attempt, draws: nat -> real)
    requires var n := |starts| + 1;
             (!attempts(n).resolves || attempts(n).took >= connectionTimeout)
             && moment == last + Smaller(attempts(n).took, connectionTimeout)
                          + Delay(retryDelay, jitter, draws(n), n)
    ensures ComesBack(starts + [last], moment, checked, retryDelay, jitter, connectionTimeout, attempts, draws)
  {
    hide Delay, Smaller;
  }

  /** The non-breaker path of `executeWebSocketWithRetry` for a real-time operation with a
      positive grace period: `began` is the moment the deadline is set, `checked` the moment
      the health check, if any, is answered. No attempt starts after the deadline, so the call
      ends at the latest one timeout and one backoff after it. */
  method ExecuteRealTime(maxRetries: int, retryDelay: real, jitter: bool, gracePeriod: nat, connectionTimeout: nat,
                         began: nat, checked: nat, healthy: bool, attempts: nat -> Attempt, draws: nat -> real)
    returns (ending: Ending, finished: nat, starts: seq<nat>)
    requires gracePeriod > 0 && began <= checked && retryDelay >= 0.0 && forall n :: 0.0 <= draws(n) < 1.0
    ensures var deadline := began + gracePeriod;
            && (forall i :: 0 <= i < |starts| ==> checked <= starts[i] <= deadline)
            && finished <= Later(checked, deadline + connectionTimeout + LargestBackoff(maxRetries, retryDelay))
    ensures |starts| <= Later(0, maxRetries)
    ensures Spaced(starts, checked, retryDelay, jitter, connectionTimeout, attempts, draws)
    ensures var n := |starts|;
            match ending
            case Unhealthy => !healthy && n == 0 && finished == checked
            case NothingTried => healthy && maxRetries < 1 && n == 0
            case Resolved => n > 0 && attempts(n).resolves && attempts(n).took < connectionTimeout
                             && finished == starts[n - 1] + attempts(n).took
            case Exhausted => 0 < n == maxRetries && (!attempts(n).resolves || attempts(n).took >= connectionTimeout)
                              && finished == starts[n - 1] + Smaller(attempts(n).took, connectionTimeout)
            case GraceExpired =>
              && n < maxRetries && finished > began + gracePeriod
              && ComesBack(starts, finished, checked, retryDelay, jitter, connectionTimeout, attempts, draws)
  {
    hide Delay, LargestBackoff, Raced, ComesBack, Spaced;
    starts := [];
    finished := checked;
    StartsSpaced(checked, retryDelay, jitter, connectionTimeout, attempts, draws);
    BackoffNonNegative(maxRetries, retryDelay);
    var gracePeriodExpiry := began + gracePeriod;
    if !healthy {
      return Unhealthy, finished, starts;
    }
    ghost var cap := Later(checked, gracePeriodExpiry + connectionTimeout + LargestBackoff(maxRetries, retryDelay));
    var attempt := 1;
    while attempt <= maxRetries
      invariant (attempt == 1 || 1 < attempt <= maxRetries)
      invariant |starts| == attempt - 1 <= Later(0, maxRetries) && checked <= finished <= cap
      invariant forall i :: 0 <= i < |starts| ==> checked <= starts[i] <= gracePeriodExpiry
      invariant ComesBack(starts, finished, checked, retryDelay, jitter, connectionTimeout, attempts, draws)
      invariant Spaced(starts, checked, retryDelay, jitter, connectionTimeout, attempts, draws)
      decreases maxRetries + 1 - attempt
    {
      if finished > gracePeriodExpiry {
        return GraceExpired, finished, starts;
      }
      ghost var before, start := starts, finished;
      SpacedOn(starts, finished, checked, retryDelay, jitter, connectionTimeout, attempts, draws);
      starts := starts + [finished];
      var race := Raced(attempts(attempt), connectionTimeout);
      finished := finished + race.took;
      if race.resolves {
        return Resolved, finished, starts;
      }
      if attempt == maxRetries {
        return Exhausted, finished, starts;
      }
      BackoffWithinLargest(maxRetries, retryDelay, jitter, draws(attempt), attempt);
      finished := finished + Delay(retryDelay, jitter, draws(attempt), attempt);
      ComesBackAfter(before, start, finished, checked, retryDelay, jitter, connectionTimeout, attempts, draws);
      attempt := attempt + 1;
    }
    ending := NothingTried;
  }

  lemma StartsSpaced(checked: nat, retryDelay: real, jitter: bool, connectionTimeout: nat, attempts: nat -> Attempt,
                     draws: nat -> real)
    ensures Spaced([], checked, retryDelay, jitter, connectionTimeout, attempts, draws)
    ensures ComesBack([], checked, checked, retryDelay, jitter, connectionTimeout, attempts, draws)
  {
  }

  lemma BackoffNonNegative(maxRetries: int, retryDelay: real)
    requires retryDelay >= 0.0
    ensures LargestBackoff(maxRetries, retryDelay) >= 0
  {
    if maxRetries >= 2 { FullNonNegative(retryDelay, maxRetries - 2); }
  }
}
