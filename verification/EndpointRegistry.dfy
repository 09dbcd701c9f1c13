/** apps/api-gateway/src/services/EndpointRegistryService.ts: instances of services, and the
    round-robin choice among them. */
module EndpointRegistry {
  import opened Options

  ghost predicate NoDuplicates(urls: seq<string>) {
    forall i, j :: 0 <= i < j < |urls| ==> urls[i] != urls[j]
  }

  function Without(urls: seq<string>, url: string): seq<string> {
    if urls == [] then [] else if urls[0] == url then urls[1..] else [urls[0]] + Without(urls[1..], url)
  }

  lemma {:induction false} WithoutRemoves(urls: seq<string>, url: string)
    requires NoDuplicates(urls)
    ensures NoDuplicates(Without(urls, url))
    ensures forall u :: u in Without(urls, url) <==> u in urls && u != url
  {
    if urls != [] && urls[0] != url {
      var rest := Without(urls[1..], url);
      WithoutRemoves(urls[1..], url);
      assert urls == [urls[0]] + urls[1..];
      assert urls[0] !in rest;
    } else if urls != [] {
      assert urls == [urls[0]] + urls[1..];
    }
  }

  lemma {:induction false} WithoutAt(urls: seq<string>, i: nat)
    requires i < |urls| && forall j :: 0 <= j < i ==> urls[j] != urls[i]
    ensures Without(urls, urls[i]) == urls[..i] + urls[i + 1..]
  {
    if i > 0 { WithoutAt(urls[1..], i - 1); }
  }

  lemma {:induction false} WithoutAbsent(urls: seq<string>, url: string)
    requires url !in urls
    ensures Without(urls, url) == urls
  {
    if urls != [] { WithoutAbsent(urls[1..], url); }
  }

  /** An empty url is answered like a missing service. */
  function Shown(url: string): Option<string> { if url == "" then None else Some(url) }

  class EndpointRegistryService {
    var services: map<string, seq<string>>
    var roundRobinIndex: map<string, nat>

    ghost predicate Valid()
      reads this
    {
      services.Keys == roundRobinIndex.Keys && forall name :: name in services ==> NoDuplicates(services[name])
    }

    constructor ()
      ensures Valid() && services == map[] && forall name :: Index(name) == 0
    {
      services, roundRobinIndex := map[], map[];
    }

    function Urls(serviceName: string): seq<string>
      reads this
    {
      if serviceName in services then services[serviceName] else []
    }

    function Index(serviceName: string): nat
      reads this
    {
      if serviceName in roundRobinIndex then roundRobinIndex[serviceName] else 0
    }

    /** A url is appended once; the index survives. */
    method Register(serviceName: string, url: string)
      requires Valid()
      modifies this
      ensures Valid() && services.Keys == old(services).Keys + {serviceName}
      ensures Urls(serviceName) == old(Urls(serviceName)) + if url in old(Urls(serviceName)) then [] else [url]
      ensures forall name :: name != serviceName ==> Urls(name) == old(Urls(name))
      ensures forall name :: Index(name) == old(Index(name))
    {
      if serviceName !in services {
        services := services[serviceName := []];
        roundRobinIndex := roundRobinIndex[serviceName := 0];
      }
      var instances := services[serviceName];
      if url !in instances {
        services := services[serviceName := instances + [url]];
      }
    }

    /** `getService` with the round-robin strategy. */
    method GetRoundRobin(serviceName: string) returns (url: Option<string>)
      requires Valid()
      modifies this`roundRobinIndex
      ensures Valid()
      ensures Urls(serviceName) == [] ==> url == None && roundRobinIndex == old(roundRobinIndex)
      ensures Urls(serviceName) != [] ==>
                url == Choice(Urls(serviceName), old(Index(serviceName)))
                && Index(serviceName) == NextIndex(Urls(serviceName), old(Index(serviceName)))
      ensures var urls := Urls(serviceName);
              urls != [] ==>
                var chosen := urls[old(Index(serviceName)) % |urls|];
                url == (if chosen == "" then None else Some(chosen))
                && Index(serviceName) == (old(Index(serviceName)) + 1) % |urls|
      ensures forall name :: name != serviceName ==> Index(name) == old(Index(name))
    {
      if serviceName !in services || |services[serviceName]| == 0 {
        return None;
      }
      var instances := services[serviceName];
      var idx := Index(serviceName);
      url := Shown(instances[idx % |instances|]);
      roundRobinIndex := roundRobinIndex[serviceName := (idx + 1) % |instances|];
    }

    /** `getService` with the default strategy; `draw` is what Math.random returns. */
    method GetRandom(serviceName: string, draw: real) returns (url: Option<string>)
      requires Valid() && 0.0 <= draw < 1.0
      ensures var urls := Urls(serviceName);
              if urls == [] then url == None
              else exists i ::
                     0 <= i < |urls| && i as real <= draw * (|urls| as real) < (i + 1) as real
                     && url == if urls[i] == "" then None else Some(urls[i])
    {
      if serviceName !in services || |services[serviceName]| == 0 {
        return None;
      }
      var instances := services[serviceName];
      DrawInRange(draw, |instances|);
      var index := (draw * (|instances| as real)).Floor;
      url := Shown(instances[index]);
    }

    /** The index is not touched, and may be left beyond the end of the list. */
    method RemoveService(serviceName: string, url: string)
      requires Valid()
      modifies this`services
      ensures Valid() && services.Keys == old(services).Keys
      ensures Urls(serviceName) == Without(old(Urls(serviceName)), url)
      ensures forall name :: name != serviceName ==> Urls(name) == old(Urls(name))
    {
      if serviceName !in services {
        return;
      }
      var instances := services[serviceName];
      WithoutRemoves(instances, url);
      var index := 0;
      while index < |instances| && instances[index] != url
        invariant 0 <= index <= |instances| && forall j :: 0 <= j < index ==> instances[j] != url
      {
        index := index + 1;
      }
      if index < |instances| {
        WithoutAt(instances, index);
        services := services[serviceName := instances[..index] + instances[index + 1..]];
      } else {
        WithoutAbsent(instances, url);
      }
    }
  }

  lemma DrawInRange(draw: real, n: nat)
    requires 0.0 <= draw < 1.0 && n > 0
    ensures 0 <= (draw * (n as real)).Floor < n
  {
    var x := draw * (n as real);
    assert x >= 0.0;
    assert (1.0 - draw) * (n as real) > 0.0;
    assert x < n as real;
  }

  function Choice(urls: seq<string>, idx: nat): Option<string>
    requires urls != []
  {
    Shown(urls[idx % |urls|])
  }

  function NextIndex(urls: seq<string>, idx: nat): nat
    requires urls != []
  {
    (idx + 1) % |urls|
  }

  /** The answers of m consecutive choices from a list that does not change, and the index they
      leave. */
  function Choices(urls: seq<string>, idx: nat, m: nat): seq<Option<string>>
    requires urls != []
  {
    if m == 0 then [] else Choices(urls, idx, m - 1) + [Choice(urls, IndexAfter(urls, idx, m - 1))]
  }

  function IndexAfter(urls: seq<string>, idx: nat, m: nat): nat
    requires urls != []
  {
    if m == 0 then idx else NextIndex(urls, IndexAfter(urls, idx, m - 1))
  }

  /** The choices go through the list in order, around and around, starting at the index. */
  lemma {:induction false} ChoicesInOrder(urls: seq<string>, idx: nat, m: nat, k: nat)
    requires urls != [] && k < m
    ensures |Choices(urls, idx, m)| == m && Choices(urls, idx, m)[k] == Shown(urls[(idx + k) % |urls|])
  {
    if k < m - 1 {
      ChoicesInOrder(urls, idx, m - 1, k);
    } else {
      ManyChoices(urls, idx, m - 1);
      IndexIs(urls, idx, m - 1);
    }
  }

  lemma {:induction false} ManyChoices(urls: seq<string>, idx: nat, m: nat)
    requires urls != []
    ensures |Choices(urls, idx, m)| == m
  {
    if m > 0 { ManyChoices(urls, idx, m - 1); }
  }

  lemma {:induction false} IndexIs(urls: seq<string>, idx: nat, m: nat)
    requires urls != []
    ensures IndexAfter(urls, idx, m) % |urls| == (idx + m) % |urls|
  {
    if m > 0 {
      IndexIs(urls, idx, m - 1);
      NextModulo(IndexAfter(urls, idx, m - 1), idx + m - 1, |urls|);
    }
  }

  lemma NextModulo(a: nat, b: nat, n: nat)
    requires n > 0 && a % n == b % n
    ensures (a + 1) % n % n == (b + 1) % n
  {
    NextPlace(a, n);
    NextPlace(b, n);
    ModIs((a + 1) % n, n, 0, (a + 1) % n);
  }

  function Times(answers: seq<Option<string>>, a: Option<string>): nat {
    if answers == [] then 0 else Times(answers[..|answers| - 1], a) + if answers[|answers| - 1] == a then 1 else 0
  }

  /** Position j lies in the arc of r places that starts at p on a ring of n. */
  predicate InArc(n: nat, p: nat, r: nat, j: nat) { if j >= p then j - p < r else j - p + n < r }

  /** The place r steps after p on a ring of n. */
  function Around(n: nat, p: nat, r: nat): nat
    requires p < n && r <= n
  {
    if p + r < n then p + r else p + r - n
  }

  /** One step further on the ring adds the place stepped on. */
  lemma ArcGrows(n: nat, p: nat, r: nat, j: nat)
    requires p < n && r < n && j < n
    ensures !(InArc(n, p, r, j) && Around(n, p, r) == j)
    ensures InArc(n, p, r + 1, j) <==> InArc(n, p, r, j) || Around(n, p, r) == j
    ensures InArc(n, p, n, j) && !InArc(n, p, 0, j)
    ensures Around(n, p, if r + 1 < n then r + 1 else 0) == if Around(n, p, r) + 1 < n then Around(n, p, r) + 1 else 0
    ensures Around(n, p, 0) == p
  {
  }

  lemma ChoiceCounts(urls: seq<string>, idx: nat, m: nat, j: nat)
    requires NoDuplicates(urls) && j < |urls| && m > 0
    ensures Times(Choices(urls, idx, m), Shown(urls[j]))
         == Times(Choices(urls, idx, m - 1), Shown(urls[j]))
           + if IndexAfter(urls, idx, m - 1) % |urls| == j then 1 else 0
  {
    var i := IndexAfter(urls, idx, m - 1) % |urls|;
    TimesSnoc(Choices(urls, idx, m - 1), Shown(urls[i]), Shown(urls[j]));
    ShownOnce(urls, i, j);
    hide NoDuplicates, Times, Shown, IndexAfter;
  }

  lemma TimesSnoc(answers: seq<Option<string>>, last: Option<string>, a: Option<string>)
    ensures Times(answers + [last], a) == Times(answers, a) + if last == a then 1 else 0
  {
    assert (answers + [last])[..|answers|] == answers;
  }

  lemma ShownOnce(urls: seq<string>, i: nat, j: nat)
    requires NoDuplicates(urls) && i < |urls| && j < |urls|
    ensures Shown(urls[i]) == Shown(urls[j]) <==> i == j
  {
  }

  /** Going round q times and r places further picks the places in the last arc once more. */
  lemma {:induction false} ArcCounts(urls: seq<string>, idx: nat, m: nat, j: nat) returns (q: nat, r: nat)
    requires NoDuplicates(urls) && j < |urls|
    ensures m == q * |urls| + r && r < |urls|
    ensures IndexAfter(urls, idx, m) % |urls| == Around(|urls|, idx % |urls|, r)
    ensures Times(Choices(urls, idx, m), Shown(urls[j])) == q + if InArc(|urls|, idx % |urls|, r, j) then 1 else 0
  {
    var n, p := |urls|, idx % |urls|;
    if m == 0 {
      q, r := 0, 0;
      ArcGrows(n, p, 0, j);
    } else {
      q, r := ArcCounts(urls, idx, m - 1, j);
      ChoiceCounts(urls, idx, m, j);
      ArcGrows(n, p, r, j);
      IndexStep(urls, idx, m);
      hide NoDuplicates, InArc, Around, Times, Choices, IndexAfter;
      q, r := OneFurther(n, m - 1, q, r);
    }
  }

  lemma OneFurther(n: nat, m: nat, q: nat, r: nat) returns (q': nat, r': nat)
    requires m == q * n + r && r < n
    ensures m + 1 == q' * n + r' && r' < n
    ensures if r + 1 < n then q' == q && r' == r + 1 else q' == q + 1 && r' == 0
  {
    if r + 1 < n {
      q', r' := q, r + 1;
    } else {
      assert (q + 1) * n == q * n + n;
      q', r' := q + 1, 0;
    }
  }

  lemma IndexStep(urls: seq<string>, idx: nat, m: nat)
    requires urls != [] && m > 0
    ensures var i := IndexAfter(urls, idx, m - 1) % |urls|;
            IndexAfter(urls, idx, m) % |urls| == if i + 1 < |urls| then i + 1 else 0
  {
    var at := IndexAfter(urls, idx, m - 1);
    NextPlace(at, |urls|);
    ModIs((at + 1) % |urls|, |urls|, 0, (at + 1) % |urls|);
  }

  lemma NextPlace(at: nat, n: nat)
    requires n > 0
    ensures (at + 1) % n == if at % n + 1 < n then at % n + 1 else 0
  {
    var d, x := at / n, at % n;
    assert at + 1 == d * n + (x + 1);
    if x + 1 < n { ModIs(at + 1, n, d, x + 1); } else { ModIs(at + 1, n, d + 1, 0); }
  }

  lemma ModIs(x: int, n: int, q: int, r: int)
    requires n > 0 && x == q * n + r && 0 <= r < n
    ensures x % n == r && x / n == q
  {
    MultiplesApart(x / n - q, n);
    assert (x / n - q) * n == r - x % n;
  }

  lemma MultiplesApart(e: int, n: int)
    requires n > 0
    ensures (e >= 1 ==> e * n >= n) && (e <= -1 ==> e * n <= -n)
  {
  }

  /** Over m choices from n different urls, whatever the index they start from, each url is
      chosen m / n times, rounded down or up. */
  lemma RoundRobinIsFair(urls: seq<string>, idx: nat, m: nat, j: nat)
    requires NoDuplicates(urls) && j < |urls|
    ensures m / |urls| <= Times(Choices(urls, idx, m), Shown(urls[j])) <= (m + |urls| - 1) / |urls|
  {
    var q, r := ArcCounts(urls, idx, m, j);
    RoundedBothWays(m, |urls|, q, r);
    ArcGrows(|urls|, idx % |urls|, 0, j);
    hide Choices, Times, NoDuplicates;
  }

  lemma RoundedBothWays(m: int, n: int, q: int, r: int)
    requires n > 0 && m == q * n + r && 0 <= r < n
    ensures m / n == q && (m + n - 1) / n == if r == 0 then q else q + 1
  {
    ModIs(m, n, q, r);
    if r > 0 {
      assert m + n - 1 == (q + 1) * n + (r - 1);
      ModIs(m + n - 1, n, q + 1, r - 1);
    } else {
      ModIs(m + n - 1, n, q, n - 1);
    }
  }
}
