/** Redis as the rate limiters use it: sorted sets of request ids, each key with an
    optional time-to-live deadline, and commands that can fail on either side of
    taking effect. */
module Redis {
  import opened Options

  /** How the client sees one awaited command: it resolves, or it throws either before
      or after the server carried the command out. */
  datatype Reply = Ok | FailedBefore | FailedAfter {
    predicate Threw() { !Ok? }
    predicate TookEffect() { !FailedBefore? }
  }

  /** The member `${at}_${tag}` of a limiter's sorted set. The decimal prefix and the
      first underscore make the string an injective encoding of this pair. */
  datatype RequestId = RequestId(at: nat, tag: string)

  /** One sorted set: the score of each member, and the first millisecond at which the key may
      be gone. Redis still serves a key in the millisecond at which its time to live ends. */
  datatype ZSet = ZSet(scores: map<RequestId, int>, deadline: Option<int>) {
    /** ZCARD */
    function Card(): nat { |scores| }

    /** ZREMRANGEBYSCORE lo hi; a set left empty is no key at all, so its deadline goes too. */
    function RemoveByScore(lo: int, hi: int): ZSet {
      var kept := map m | m in scores && !(lo <= scores[m] <= hi) :: scores[m];
      if kept == map[] then Empty() else ZSet(kept, deadline)
    }

    /** ZADD: a member already present only has its score overwritten. */
    function Add(score: int, m: RequestId): ZSet { ZSet(scores[m := score], deadline) }

    /** EXPIRE at server time `clock`: no effect on a missing key, deletion for a
        non-positive number of seconds. */
    function Expire(seconds: int, clock: nat): ZSet {
      if scores == map[] then Empty()
      else if seconds <= 0 then Empty()
      else ZSet(scores, Some(Expiry(seconds, clock)))
    }

    /** The server is free to drop the key once its deadline is reached. */
    function Evict(clock: nat): ZSet {
      if deadline.Some? && deadline.value <= clock then Empty() else this
    }

    /** The members that a window reaching back to, but not including, `since` still sees. */
    function Live(since: int): set<RequestId> { set m | m in scores && m.at > since }

    /** Every member is scored by its own timestamp, and none is from the future. */
    ghost predicate Sound(clock: nat) { forall m :: m in scores ==> scores[m] == m.at <= clock }

    /** The deadline does not fall before any member leaves a window of `windowMs`. */
    ghost predicate Outlives(windowMs: int) {
      deadline.Some? ==> forall m :: m in scores ==> m.at + windowMs <= deadline.value
    }
  }

  function Empty(): ZSet { ZSet(map[], None) }

  /** The first millisecond without a key that was given this many seconds. */
  function Expiry(seconds: int, clock: int): int { clock + 1000 * seconds + 1 }

  /** `Math.ceil(a / b)` for a positive divisor. */
  function CeilDiv(a: int, b: int): int
    requires b > 0
  {
    -((-a) / b)
  }

  /** The keys the two limiters use. The source joins these parts into one string. */
  datatype Key = Plain(name: string) | Global(name: string) | PerInstance(instance: string, name: string)

  type Store = map<Key, ZSet>

  function Lookup(st: Store, k: Key): ZSet { if k in st then st[k] else Empty() }

  /** The seconds the limiters pass to EXPIRE. */
  function TtlSeconds(windowMs: int, ttlBuffer: int): int { CeilDiv(windowMs + ttlBuffer, 1000) }

  /** With the rounded-up time to live the key is kept, and to the end of the window. */
  predicate TtlCovers(windowMs: int, ttlBuffer: int) {
    TtlSeconds(windowMs, ttlBuffer) > 0 && Expiry(TtlSeconds(windowMs, ttlBuffer), 0) >= windowMs
  }

  /** The time to live is the smallest number of whole seconds that covers the window and the buffer. */
  lemma TtlSecondsIs(windowMs: int, ttlBuffer: int)
    ensures var ttl := TtlSeconds(windowMs, ttlBuffer); 1000 * (ttl - 1) < windowMs + ttlBuffer <= 1000 * ttl
  {
  }

  /** It covers the window exactly if such a number of seconds is positive and, with the millisecond in
      which it ends, reaches the end of the window. */
  lemma TtlCoversIff(windowMs: int, ttlBuffer: int, seconds: int)
    requires 1000 * (seconds - 1) < windowMs + ttlBuffer <= 1000 * seconds
    ensures TtlCovers(windowMs, ttlBuffer) <==> seconds >= 1 && windowMs <= 1000 * seconds + 1
  {
    TtlSecondsIs(windowMs, ttlBuffer);
  }

  /** The documented configuration, a non-negative buffer, always covers the window. */
  lemma NonNegativeBufferCovers(windowMs: int, ttlBuffer: int)
    requires ttlBuffer >= 0
    ensures windowMs > 0 ==> TtlCovers(windowMs, ttlBuffer)
  {
    var x := -(windowMs + ttlBuffer);
    assert 1000 * (x / 1000) <= x;
  }

  /** Pruning with score bounds [0, now - windowMs] keeps exactly the live members. */
  lemma PruneKeepsLive(z: ZSet, now: nat, windowMs: int)
    requires z.Sound(now)
    ensures var p := z.RemoveByScore(0, now - windowMs);
            p.scores.Keys == z.Live(now - windowMs) && p.Sound(now) && p.Card() == |z.Live(now - windowMs)|
    ensures z.Outlives(windowMs) ==> z.RemoveByScore(0, now - windowMs).Outlives(windowMs)
  {
    var p := z.RemoveByScore(0, now - windowMs);
    assert p.scores.Keys == z.Live(now - windowMs);
  }

  /** The client object of the limiters. Each method is one awaited command. */
  class Client {
    var keys: Store

    constructor ()
      ensures keys == map[]
    {
      keys := map[];
    }

    method ZRemRangeByScore(k: Key, lo: int, hi: int, reply: Reply) returns (threw: bool)
      modifies this
      ensures threw == reply.Threw()
      ensures keys == if reply.TookEffect()
                      then old(keys)[k := Lookup(old(keys), k).RemoveByScore(lo, hi)] else old(keys)
    {
      if reply.TookEffect() { keys := keys[k := Lookup(keys, k).RemoveByScore(lo, hi)]; }
      threw := reply.Threw();
    }

    method ZCard(k: Key, reply: Reply) returns (threw: bool, card: nat)
      ensures threw == reply.Threw() && card == Lookup(keys, k).Card()
    {
      threw, card := reply.Threw(), Lookup(keys, k).Card();
    }

    method ZAdd(k: Key, score: int, m: RequestId, reply: Reply) returns (threw: bool)
      modifies this
      ensures threw == reply.Threw()
      ensures keys == if reply.TookEffect() then old(keys)[k := Lookup(old(keys), k).Add(score, m)] else old(keys)
    {
      if reply.TookEffect() { keys := keys[k := Lookup(keys, k).Add(score, m)]; }
      threw := reply.Threw();
    }

    method Expire(k: Key, seconds: int, clock: nat, reply: Reply) returns (threw: bool)
      modifies this
      ensures threw == reply.Threw()
      ensures keys == if reply.TookEffect()
                      then old(keys)[k := Lookup(old(keys), k).Expire(seconds, clock)] else old(keys)
    {
      if reply.TookEffect() { keys := keys[k := Lookup(keys, k).Expire(seconds, clock)]; }
      threw := reply.Threw();
    }

    method Del(k: Key, reply: Reply) returns (threw: bool)
      modifies this
      ensures threw == reply.Threw()
      ensures keys == if reply.TookEffect() then old(keys)[k := Empty()] else old(keys)
    {
      if reply.TookEffect() { keys := keys[k := Empty()]; }
      threw := reply.Threw();
    }
  }
}
