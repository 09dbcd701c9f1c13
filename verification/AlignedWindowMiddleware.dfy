/** The `rateLimit` closure of apps/data-intelligence/src/middleware/rateLimit.middleware.ts as
    one call that runs from start to end, on the counters of all keys. */
module AlignedWindowMiddleware {
  import opened Options
  import opened Redis
  import opened AlignedWindow

  /** The headers a caller gets, and with status 429 the number of seconds to wait. */
  datatype Answer = Passed(remaining: int, resetTime: int) | Rejected(remaining: int, resetTime: int, retryAfter: int)

  /** What one uninterrupted request does to a key, as steps of the interleaved model. */
  function Uninterrupted(took: nat, statusCode: int): seq<Label> {
    [Begin(0), Reply(0), Tick(took), Finish(0, statusCode), SendExpire(0)]
  }

  function Alone(now: int, counters: map<int, Counter>): State { State(now, counters, [Idle], [], []) }

  /** The counters of one key by window. */
  ghost function OfKey(counters: map<(string, int), Counter>, key: string): map<int, Counter> {
    var windows := set k | k in counters && k.0 == key :: k.1;
    map w | w in windows :: counters[(key, w)]
  }

  lemma OfKeyRead(counters: map<(string, int), Counter>, key: string, w: int)
    ensures Read(OfKey(counters, key), w) == Read(counters, (key, w))
    ensures w in OfKey(counters, key) <==> (key, w) in counters
    ensures w in OfKey(counters, key) ==> OfKey(counters, key)[w] == counters[(key, w)]
  {
    if (key, w) in counters { assert (key, w).1 == w; }
  }

  lemma OfKeyPut(counters: map<(string, int), Counter>, key: string, w: int, v: Counter)
    ensures OfKey(counters[(key, w) := v], key) == OfKey(counters, key)[w := v]
    ensures forall other :: other != key ==> OfKey(counters[(key, w) := v], other) == OfKey(counters, other)
  {
    hide OfKey, Read;
    var after := counters[(key, w) := v];
    forall x
      ensures x in OfKey(after, key) <==> x in OfKey(counters, key)[w := v]
      ensures x in OfKey(after, key) ==> OfKey(after, key)[x] == OfKey(counters, key)[w := v][x]
    {
      OfKeyRead(after, key, x);
      OfKeyRead(counters, key, x);
    }
    forall other | other != key ensures OfKey(after, other) == OfKey(counters, other) {
      OfKeyPutElsewhere(counters, key, w, v, other);
    }
  }

  lemma OfKeyPutElsewhere(counters: map<(string, int), Counter>, key: string, w: int, v: Counter, other: string)
    requires other != key
    ensures OfKey(counters[(key, w) := v], other) == OfKey(counters, other)
  {
    hide OfKey, Read;
    var after := counters[(key, w) := v];
    forall x
      ensures x in OfKey(after, other) <==> x in OfKey(counters, other)
      ensures x in OfKey(after, other) ==> OfKey(after, other)[x] == OfKey(counters, other)[x]
    {
      OfKeyRead(after, other, x);
      OfKeyRead(counters, other, x);
    }
  }

  lemma OfKeyIncr(counters: map<(string, int), Counter>, key: string, w: int)
    ensures OfKey(Incr(counters, (key, w)), key) == Incr(OfKey(counters, key), w)
    ensures forall other :: other != key ==> OfKey(Incr(counters, (key, w)), other) == OfKey(counters, other)
    ensures Read(Incr(counters, (key, w)), (key, w)) == Read(counters, (key, w)) + 1
  {
    OfKeyRead(counters, key, w);
    OfKeyPut(counters, key, w, Incr(counters, (key, w))[(key, w)]);
  }

  lemma OfKeyExpire(counters: map<(string, int), Counter>, key: string, w: int, deadline: int)
    ensures OfKey(AlignedWindow.Expire(counters, (key, w), deadline), key)
              == AlignedWindow.Expire(OfKey(counters, key), w, deadline)
    ensures Read(AlignedWindow.Expire(OfKey(counters, key), w, deadline), w) == Read(OfKey(counters, key), w)
    ensures forall other ::
              other != key ==>
              OfKey(AlignedWindow.Expire(counters, (key, w), deadline), other) == OfKey(counters, other)
  {
    OfKeyRead(counters, key, w);
    if (key, w) in counters { OfKeyPut(counters, key, w, counters[(key, w)].(deadline := Some(deadline))); }
  }

  /** A counted request: only the first one of a window gives the counter its deadline. */
  function Counted<K>(counters: map<K, Counter>, key: K, deadline: int): map<K, Counter> {
    if Read(counters, key) == 0 then AlignedWindow.Expire(Incr(counters, key), key, deadline) else Incr(counters, key)
  }

  lemma OfKeyCounted(counters: map<(string, int), Counter>, key: string, w: int, deadline: int)
    ensures OfKey(Counted(counters, (key, w), deadline), key) == Counted(OfKey(counters, key), w, deadline)
    ensures forall other ::
              other != key ==> OfKey(Counted(counters, (key, w), deadline), other) == OfKey(counters, other)
    ensures Read(Counted(OfKey(counters, key), w, deadline), w) == Read(OfKey(counters, key), w) + 1
  {
    OfKeyRead(counters, key, w);
    OfKeyIncr(counters, key, w);
    hide OfKey;
    if Read(counters, (key, w)) == 0 { OfKeyExpire(Incr(counters, (key, w)), key, w, deadline); }
  }

  class RateLimitMiddleware {
    var counters: map<(string, int), Counter>

    constructor ()
      ensures counters == map[]
    {
      counters := map[];
    }

    ghost function View(key: string): map<int, Counter>
      reads this
    {
      OfKey(counters, key)
    }

    /** The `finally` block, for a request that counts. */
    method CountRequest(c: Limit, windowKey: (string, int), done: int) returns (newCount: nat)
      modifies this
      ensures counters == Counted(old(counters), windowKey, done + c.Lifetime())
      ensures newCount == Read(old(counters), windowKey) + 1
    {
      counters := Incr(counters, windowKey);
      newCount := Read(counters, windowKey);
      if newCount == 1 {
        counters := AlignedWindow.Expire(counters, windowKey, done + c.Lifetime());
      }
    }

    /** Every value read and written is the key's own; the answer and the counters are those of
        the interleaved model when nothing comes between the steps of the call. */
    method RateLimit(c: Limit, key: string, now: int, took: nat, statusCode: int) returns (answer: Answer)
      requires c.Valid()
      modifies this
      ensures var s := Follow(c, 0, Alone(now, old(View(key))), Uninterrupted(took, statusCode));
              && View(key) == s.counters
              && s.admitted == (if answer.Passed? then [now] else [])
      ensures forall other :: other != key ==> View(other) == old(View(other))
      ensures answer.Passed? <==> Read(old(View(key)), c.Window(now)) < c.maxRequests
      ensures answer.Passed? ==>
                Read(View(key), c.Window(now)) == Read(old(View(key)), c.Window(now))
                  + if (if statusCode < 400 then c.skipSuccessful else c.skipFailed) then 0 else 1
      ensures answer.Passed? ==> answer.remaining + Read(old(View(key)), c.Window(now)) + 1 == c.maxRequests
      ensures answer.Rejected? ==> answer.remaining == 0 && View(key) == old(View(key))
      ensures answer.Rejected? ==>
              now + 1000 * answer.retryAfter >= answer.resetTime > now + 1000 * (answer.retryAfter - 1)
      ensures answer.resetTime == ResetTime(c, now)
    {
      var window := c.Window(now);
      var windowKey := (key, window);
      var count := Read(counters, windowKey);
      var resetTime := ResetTime(c, now);
      var remaining := Max(0, c.maxRequests - count - 1);
      WaitEnds(resetTime - now);
      RunsThrough(c, now, View(key), took, statusCode);
      OfKeyRead(counters, key, window);
      CountsByStatus(statusCode);
      hide Follow, OfKey, Counted, Read, AlignedWindow.Expire, Step;
      hide CeilDiv, Uninterrupted, Limit.Window, Limit.Lifetime, ShouldCount;
      if count >= c.maxRequests {
        return Rejected(remaining, resetTime, CeilDiv(resetTime - now, 1000));
      }
      if ShouldCount(true, statusCode, c.skipSuccessful, c.skipFailed) {
        OfKeyCounted(counters, key, window, now + took + c.Lifetime());
        var newCount := CountRequest(c, windowKey, now + took);
        remaining := Max(0, c.maxRequests - newCount);
      }
      answer := Passed(remaining, resetTime);
    }
  }

  /** The first moment of the next window. */
  function ResetTime(c: Limit, now: int): (t: int)
    requires c.Valid()
    ensures now < t <= now + c.windowMs && c.Window(t) == c.Window(now) + 1
  {
    WindowBounds(c, now);
    WindowIs(c, (c.Window(now) + 1) * c.windowMs, c.Window(now) + 1);
    (c.Window(now) + 1) * c.windowMs
  }

  lemma WaitEnds(ms: int)
    ensures 1000 * CeilDiv(ms, 1000) >= ms > 1000 * (CeilDiv(ms, 1000) - 1)
  {
  }

  function Max(a: int, b: int): int { if a < b then b else a }

  /** The steps of an uninterrupted request, put together. */
  lemma RunsThrough(c: Limit, now: int, counters: map<int, Counter>, took: nat, statusCode: int)
    requires c.Valid()
    ensures var s, w := Follow(c, 0, Alone(now, counters), Uninterrupted(took, statusCode)), c.Window(now);
            if Read(counters, w) >= c.maxRequests then s.counters == counters && s.admitted == []
            else
              && s.admitted == [now]
              && s.counters == if !ShouldCount(true, statusCode, c.skipSuccessful, c.skipFailed) then counters
                               else Counted(counters, w, now + took + c.Lifetime())
  {
    var s0, ls := Alone(now, counters), Uninterrupted(took, statusCode);
    assert ls[..5] == ls && ls[..4][..3] == ls[..3] && ls[..3][..2] == ls[..2] && ls[..2][..1] == ls[..1];
    assert ls[..1][..0] == [] && ls[..5][..4] == ls[..4];
    var s1 := Step(c, 0, s0, ls[0]);
    var s2 := Step(c, 0, s1, ls[1]);
    var s3 := Step(c, 0, s2, ls[2]);
    var s4 := Step(c, 0, s3, ls[3]);
    assert Follow(c, 0, s0, ls[..1]) == s1;
    assert Follow(c, 0, s0, ls[..2]) == s2;
    assert Follow(c, 0, s0, ls[..3]) == s3;
    assert Follow(c, 0, s0, ls[..4]) == s4;
    assert Follow(c, 0, s0, ls) == Step(c, 0, s4, ls[4]);
  }
}
