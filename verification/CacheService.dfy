/** apps/dashboard/src/services/CacheService.ts: a TTL cache whose failures are swallowed. */
module CacheService {
  import opened Options
  import opened Redis

  const DEFAULT_TTL: int := 300
  const KEY_PREFIX: string := "dashboard:"

  /** A value and the first millisecond at which Redis no longer serves it. */
  datatype Cached<T> = Cached(value: T, gone: nat)

  type Entries<T> = map<string, Cached<T>>

  /** `prefix || this.keyPrefix`, then the key. */
  function BuildKey(key: string, prefix: string): string { (if prefix == "" then KEY_PREFIX else prefix) + key }

  /** `ttl || options?.ttl || this.defaultTTL`: zero counts as absent. */
  function EffectiveTtl(ttl: Option<int>, optionTtl: Option<int>): int {
    if ttl.Some? && ttl.value != 0 then ttl.value
    else if optionTtl.Some? && optionTtl.value != 0 then optionTtl.value
    else DEFAULT_TTL
  }

  /** The full key ends in the key, after the prefix given or, without one, after "dashboard:". */
  lemma BuildKeyIs(key: string, prefix: string)
    ensures prefix == "" ==> BuildKey(key, prefix) == "dashboard:" + key
    ensures prefix != "" ==> |BuildKey(key, prefix)| == |prefix| + |key| && prefix <= BuildKey(key, prefix)
                             && BuildKey(key, prefix)[|prefix|..] == key
  {
  }

  /** The TTL of the call goes before that of the options, and five minutes come last. */
  lemma EffectiveTtlIs(ttl: int, optionTtl: int)
    ensures ttl != 0 ==> EffectiveTtl(Some(ttl), None) == EffectiveTtl(Some(ttl), Some(optionTtl)) == ttl
    ensures optionTtl != 0 ==> EffectiveTtl(None, Some(optionTtl)) == optionTtl
    ensures optionTtl != 0 ==> EffectiveTtl(Some(0), Some(optionTtl)) == optionTtl
    ensures EffectiveTtl(None, None) == EffectiveTtl(Some(0), Some(0)) == 300
  {
  }

  function Find<T>(entries: Entries<T>, fullKey: string, now: nat): Option<T> {
    if fullKey in entries && now < entries[fullKey].gone then Some(entries[fullKey].value) else None
  }

  /** SETEX, which Redis refuses for a non-positive time to live. */
  function Stored<T>(entries: Entries<T>, fullKey: string, value: T, ttl: int, now: nat, reply: Reply): Entries<T> {
    if ttl > 0 && reply.TookEffect() then entries[fullKey := Cached(value, Expiry(ttl, now))] else entries
  }

  function Removed<T>(entries: Entries<T>, fullKey: string, reply: Reply): Entries<T> {
    if reply.TookEffect() then entries - {fullKey} else entries
  }

  /** Redis glob patterns with `*` and `?`; character classes and escapes are not modelled. */
  predicate Glob(pattern: string, s: string)
    decreases |pattern| + |s|
  {
    if pattern == [] then s == []
    else if pattern[0] == '*' then Glob(pattern[1..], s) || (s != [] && Glob(pattern, s[1..]))
    else s != [] && (pattern[0] == '?' || pattern[0] == s[0]) && Glob(pattern[1..], s[1..])
  }

  predicate Literal(pattern: string) { '*' !in pattern && '?' !in pattern }

  /** What is stored is served for its seconds, to the millisecond, and nothing else changes. */
  lemma StoredIsServed<T>(entries: Entries<T>, fullKey: string, value: T, ttl: int, now: nat, reply: Reply, k: string,
                          t: nat)
    ensures var after := Stored(entries, fullKey, value, ttl, now, reply);
            Find(after, k, t)
            == if k == fullKey && ttl > 0 && reply != FailedBefore
               then if t <= now + 1000 * ttl then Some(value) else None
               else Find(entries, k, t)
  {
  }

  /** What is removed is served no more, and nothing else changes. */
  lemma RemovedIsGone<T>(entries: Entries<T>, fullKey: string, reply: Reply, k: string, t: nat)
    ensures Find(Removed(entries, fullKey, reply), k, t)
         == if k == fullKey && reply != FailedBefore then None else Find(entries, k, t)
  {
  }

  /** A pattern without wildcards matches itself only. */
  lemma {:induction false} GlobOfLiteral(pattern: string, s: string)
    requires Literal(pattern)
    ensures Glob(pattern, s) <==> pattern == s
  {
    if pattern != [] && s != [] {
      GlobOfLiteral(pattern[1..], s[1..]);
      assert pattern == [pattern[0]] + pattern[1..] && s == [s[0]] + s[1..];
    }
  }

  /** A question mark stands for any one character. */
  lemma GlobOfQuestion(rest: string, s: string)
    ensures Glob("?" + rest, s) <==> s != "" && Glob(rest, s[1..])
  {
    assert ("?" + rest)[1..] == rest;
  }

  /** A star for any number of them. */
  lemma {:induction false} GlobOfStar(rest: string, s: string)
    ensures Glob("*" + rest, s) <==> exists i :: 0 <= i <= |s| && Glob(rest, s[i..])
  {
    assert ("*" + rest)[1..] == rest;
    if s == [] {
      assert s[0..] == s;
    } else {
      GlobOfStar(rest, s[1..]);
      assert s[0..] == s;
      assert forall i :: 0 <= i <= |s[1..]| ==> s[1..][i..] == s[i + 1..];
      if i :| 0 <= i <= |s| && Glob(rest, s[i..]) {
        if i > 0 { assert s[1..][i - 1..] == s[i..]; }
      }
    }
  }

  lemma {:induction false} StarMatchesAll(s: string)
    ensures Glob("*", s)
  {
    if s != [] { StarMatchesAll(s[1..]); }
  }

  /** The patterns the callers use match exactly the keys with the prefix. */
  lemma {:induction false} GlobOfPrefix(prefix: string, s: string)
    requires Literal(prefix)
    ensures Glob(prefix + "*", s) <==> prefix <= s
  {
    if prefix == [] {
      assert prefix + "*" == "*";
      StarMatchesAll(s);
    } else {
      assert (prefix + "*")[1..] == prefix[1..] + "*";
      if s != [] && s[0] == prefix[0] { GlobOfPrefix(prefix[1..], s[1..]); }
    }
  }

  /** KEYS */
  function Matching<T>(entries: Entries<T>, pattern: string): set<string> { set k | k in entries && Glob(pattern, k) }

  class CacheService<T(==)> {
    var entries: Entries<T>
    var hits: nat
    var misses: nat
    var sets: nat
    var deletes: nat
    var errors: nat

    constructor ()
      ensures entries == map[] && hits == misses == sets == deletes == errors == 0
    {
      entries := map[];
      hits, misses, sets, deletes, errors := 0, 0, 0, 0, 0;
    }

    /** Every lookup is counted as exactly one of a hit, a miss and an error. */
    method Get(key: string, prefix: string, now: nat, reply: Reply) returns (r: Option<T>)
      modifies `hits, `misses, `errors
      ensures r == if reply.Ok? then Find(entries, BuildKey(key, prefix), now) else None
      ensures hits + misses + errors == old(hits + misses + errors) + 1
      ensures hits == old(hits) + (if r.Some? then 1 else 0) && errors == old(errors) + (if reply.Threw() then 1 else 0)
    {
      var fullKey := BuildKey(key, prefix);
      if reply.Threw() {
        errors := errors + 1;
        return None;
      }
      r := Find(entries, fullKey, now);
      if r.Some? { hits := hits + 1; } else { misses := misses + 1; }
    }

    method Set(key: string, value: T, ttl: Option<int>, prefix: string, optionTtl: Option<int>, now: nat, reply: Reply)
      returns (ok: bool)
      modifies `entries, `sets, `errors
      ensures entries == Stored(old(entries), BuildKey(key, prefix), value, EffectiveTtl(ttl, optionTtl), now, reply)
      ensures ok == (reply.Ok? && EffectiveTtl(ttl, optionTtl) > 0)
      ensures sets == old(sets) + (if ok then 1 else 0) && errors == old(errors) + (if ok then 0 else 1)
    {
      var cacheTtl := EffectiveTtl(ttl, optionTtl);
      entries := Stored(entries, BuildKey(key, prefix), value, cacheTtl, now, reply);
      ok := reply.Ok? && cacheTtl > 0;
      if ok { sets := sets + 1; } else { errors := errors + 1; }
    }

    method Delete(key: string, prefix: string, reply: Reply) returns (found: bool)
      modifies `entries, `deletes, `errors
      ensures entries == Removed(old(entries), BuildKey(key, prefix), reply)
      ensures found == (reply.Ok? && BuildKey(key, prefix) in old(entries))
      ensures deletes + errors == old(deletes + errors) + 1 && errors == old(errors) + (if reply.Threw() then 1 else 0)
    {
      var fullKey := BuildKey(key, prefix);
      found := reply.Ok? && fullKey in entries;
      entries := Removed(entries, fullKey, reply);
      if reply.Threw() { errors := errors + 1; } else { deletes := deletes + 1; }
    }

    /** KEYS, then DEL of what it listed. */
    method DeletePattern(pattern: string, prefix: string, list: Reply, del: Reply) returns (count: nat)
      modifies `entries, `deletes, `errors
      ensures var doomed := Matching(old(entries), BuildKey(pattern, prefix));
              && entries == (if list.Ok? && del.TookEffect() then old(entries) - doomed else old(entries))
              && count == (if list.Ok? && del.Ok? then |doomed| else 0)
      ensures forall k :: k in entries <==>
                k in old(entries) && !(list.Ok? && del.TookEffect() && Glob(BuildKey(pattern, prefix), k))
      ensures forall k :: k in entries ==> entries[k] == old(entries)[k]
      ensures deletes == old(deletes) + count
    {
      count := 0;
      if list.Threw() {
        errors := errors + 1;
        return;
      }
      var keys := Matching(entries, BuildKey(pattern, prefix));
      if |keys| == 0 {
        return;
      }
      if del.TookEffect() { entries := entries - keys; }
      if del.Threw() {
        errors := errors + 1;
        return;
      }
      deletes := deletes + |keys|;
      count := |keys|;
    }

    /** `wrap`: the produced value only when nothing is served from the cache; a producer that
        throws (None) leaves the cache alone. */
    method Wrap(key: string, produced: Option<T>, ttl: Option<int>, prefix: string, optionTtl: Option<int>, now: nat,
                get: Reply, put: Reply)
      returns (r: Option<T>)
      modifies this
      ensures var fullKey := BuildKey(key, prefix);
              var served := if get.Ok? then Find(old(entries), fullKey, now) else None;
              && r == (if served.Some? then served else produced)
              && entries == if served.Some? || produced.None? then old(entries)
                            else Stored(old(entries), fullKey, produced.value, EffectiveTtl(ttl, optionTtl), now, put)
    {
      r := Get(key, prefix, now, get);
      if r.None? && produced.Some? {
        var _ := Set(key, produced.value, ttl, prefix, optionTtl, now, put);
        r := produced;
      }
    }
  }
}
