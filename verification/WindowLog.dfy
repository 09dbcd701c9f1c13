/** Logs of allowed requests and how many of them fall into a sliding window. This is the
    plain meaning of "sliding window" that the limiters are measured against. */
module WindowLog {
  import opened Redis

  /** How many entries of the log have a timestamp in (lo, hi]; repeated ids count again. */
  function Count(log: seq<RequestId>, lo: int, hi: int): (n: nat)
    ensures n <= |log|
  {
    if log == [] then 0
    else Count(log[..|log| - 1], lo, hi) + (if lo < log[|log| - 1].at <= hi then 1 else 0)
  }

  ghost predicate NoDuplicates(log: seq<RequestId>) {
    forall i, j :: 0 <= i < j < |log| ==> log[i] != log[j]
  }

  /** The entries inside the window (end - windowMs, end]. */
  function InWindow(log: seq<RequestId>, windowMs: int, end: int): nat { Count(log, end - windowMs, end) }

  /** No window of `windowMs`, wherever it ends, holds more than `max` entries. */
  ghost predicate Bounded(log: seq<RequestId>, windowMs: int, max: int) {
    forall end: int :: InWindow(log, windowMs, end) <= max
  }

  ghost predicate Past(log: seq<RequestId>, clock: nat) {
    forall m :: m in log ==> m.at <= clock
  }

  lemma CountSnoc(log: seq<RequestId>, m: RequestId, lo: int, hi: int)
    ensures Count(log + [m], lo, hi) == Count(log, lo, hi) + (if lo < m.at <= hi then 1 else 0)
  {
    assert (log + [m])[..|log|] == log;
  }

  /** A window that starts later, over a log whose entries all lie before its end, sees less. */
  lemma {:induction false} CountShrinks(log: seq<RequestId>, lo: int, hi: int, lo': int, clock: nat)
    requires Past(log, clock) && lo <= lo'
    ensures Count(log, lo', hi) <= Count(log, lo, clock)
  {
    if log != [] { CountShrinks(log[..|log| - 1], lo, hi, lo', clock); }
  }

  /** The window step: admitting one more request when fewer than `max` are in the window
      ending now keeps every window, past and future, within `max`. */
  lemma AdmitKeepsBounded(log: seq<RequestId>, m: RequestId, windowMs: int, max: int)
    requires Bounded(log, windowMs, max) && Past(log, m.at)
    requires InWindow(log, windowMs, m.at) < max
    ensures Bounded(log + [m], windowMs, max)
  {
    forall end: int ensures InWindow(log + [m], windowMs, end) <= max {
      CountSnoc(log, m, end - windowMs, end);
      assert InWindow(log, windowMs, end) <= max;
      if m.at <= end { CountShrinks(log, m.at - windowMs, end, end - windowMs, m.at); }
    }
  }

  /** Distinct entries can be counted as a set. */
  lemma {:induction false} CountIsCardinality(log: seq<RequestId>, lo: int, hi: int)
    requires NoDuplicates(log)
    ensures Count(log, lo, hi) == |Within(log, lo, hi)|
  {
    if log == [] {
      assert Within(log, lo, hi) == {};
    } else {
      var init, m := log[..|log| - 1], log[|log| - 1];
      assert log == init + [m];
      CountIsCardinality(init, lo, hi);
      WithinSnoc(init, m, lo, hi);
      LastIsOnce(init, m, lo, hi);
      hide NoDuplicates, Within;
    }
  }

  lemma LastIsOnce(init: seq<RequestId>, m: RequestId, lo: int, hi: int)
    requires NoDuplicates(init + [m])
    ensures m !in Within(init, lo, hi)
  {
    forall i | 0 <= i < |init| ensures init[i] != m {
      assert (init + [m])[i] == init[i] && (init + [m])[|init|] == m;
    }
  }

  function Within(log: seq<RequestId>, lo: int, hi: int): set<RequestId> {
    set m | m in log && lo < m.at <= hi
  }

  lemma WithinSnoc(log: seq<RequestId>, m: RequestId, lo: int, hi: int)
    ensures Within(log + [m], lo, hi) == if lo < m.at <= hi then Within(log, lo, hi) + {m} else Within(log, lo, hi)
  {
  }

  lemma SubsetCard<T>(a: set<T>, b: set<T>)
    requires a <= b
    ensures |a| <= |b|
  {
    assert b == a + (b - a);
  }

  /** If the window's entries are all still in the sorted set, the set's cardinality bounds
      the window; if they are exactly the live members, it is the window's count. */
  lemma CountVersusSet(log: seq<RequestId>, z: ZSet, clock: nat, windowMs: int)
    requires NoDuplicates(log) && Past(log, clock) && z.Sound(clock)
    requires forall m :: m in log && m.at > clock - windowMs ==> m in z.scores
    ensures InWindow(log, windowMs, clock) <= |z.Live(clock - windowMs)|
    ensures (forall m :: m in z.scores && m.at > clock - windowMs ==> m in log)
            ==> InWindow(log, windowMs, clock) == |z.Live(clock - windowMs)|
  {
    CountIsCardinality(log, clock - windowMs, clock);
    var w := Within(log, clock - windowMs, clock);
    SubsetCard(w, z.Live(clock - windowMs));
    if forall m :: m in z.scores && m.at > clock - windowMs ==> m in log {
      assert w == z.Live(clock - windowMs);
    }
  }

  ghost predicate AtZero(log: seq<RequestId>) { forall m :: m in log ==> m.at == 0 }

  lemma {:induction false} CountAtZero(log: seq<RequestId>, windowMs: int, end: nat)
    requires AtZero(log) && end < windowMs
    ensures InWindow(log, windowMs, end) == |log|
  {
    if log != [] { CountAtZero(log[..|log| - 1], windowMs, end); }
  }

  /** An empty window holds none of the log's entries. */
  lemma {:induction false} EmptyWindow(log: seq<RequestId>, windowMs: int, end: int, m: RequestId)
    requires InWindow(log, windowMs, end) == 0 && m in log
    ensures !(end - windowMs < m.at <= end)
  {
    if m != log[|log| - 1] { EmptyWindow(log[..|log| - 1], windowMs, end, m); }
  }
}
