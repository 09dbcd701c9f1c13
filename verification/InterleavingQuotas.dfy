/** The instance's own count under interleaving: how far overlapping calls of one instance carry
    its own set beyond its quota. */
module InterleavingQuotas {
  import opened Redis
  import opened WindowLog
  import opened RateLimitTypes
  import D = Distributed
  import DistributedSafety
  import opened DistributedInterleaving
  import opened InterleavingHistory
  import opened InterleavingBounds

  function InFlightOf(calls: map<nat, Call>, i: string, key: string): set<nat> {
    set c | c in calls && calls[c].key == key && calls[c].instance == i
  }

  /** Found the own count low enough and has not stored its entry in the own set yet. */
  predicate PastOwn(c: Call) { c.phase.AddGlobal? || c.phase.AddLocal? }

  function PastOwnCalls(calls: map<nat, Call>, i: string, key: string): set<nat> {
    set c | c in InFlightOf(calls, i, key) && PastOwn(calls[c])
  }

  /** At most this many calls of the instance on the key are in flight throughout the run. */
  ghost predicate AtMost(sys: System, ls: seq<Label>, i: string, key: string, own: nat) {
    |InFlightOf(Run(sys, ls).calls, i, key)| <= own && (ls == [] || AtMost(sys, ls[..|ls| - 1], i, key, own))
  }

  function OwnCeiling(quota: nat, own: nat): nat { if quota < 1 || own < 1 then 0 else quota + own - 1 }

  ghost predicate WithinOwn(sys: System, s: State, i: string, key: string, own: nat)
    requires i in sys.registries
  {
    var quota := DistributedSafety.QuotaCap(sys.config.limits(key), sys.registries, i);
    && i in s.instances && sys.registries[i] + {i} <= s.instances[i].registry
    && Lookup(s.store, PerInstance(i, key)).Card() + |PastOwnCalls(s.calls, i, key)| <= OwnCeiling(quota, own)
    && (quota < 1 ==> PastOwnCalls(s.calls, i, key) == {})
  }

  /** Only AddLocal can grow the own set, by one, and only a successful CountLocal gets a call past
      the own count, which it does below the quota. */
  lemma PerformOwn(lim: Limit, ttlBuffer: int, peers: nat, clock: nat, c: Call, g: ZSet, d: ZSet, reply: Reply)
    ensures var p := Perform(lim, ttlBuffer, peers, clock, c, g, d, reply);
            && p.local.Card() <= d.Card() + (if c.phase.AddLocal? then 1 else 0)
            && (p.outcome.Continue? && PastOwn(c.(phase := p.outcome.next)) ==>
                  && !c.phase.AddLocal?
                  && (!PastOwn(c) ==> p.local == d && peers > 0 && d.Card() < D.Quota(lim.maxRequests, peers)))
  {
    hide ZSet.RemoveByScore, ZSet.Add, ZSet.Expire, ZSet.Card, TtlSeconds, D.Quota;
    CardBounds(d, 0, c.now - lim.windowMs, TtlSeconds(lim.windowMs, ttlBuffer), clock, c.Id());
    CardBounds(d, c.now, 0, 0, 0, c.Id());
  }

  /** Peers only join, so no quota is above the first one. */
  lemma QuotaWithinCap(lim: Limit, registries: D.Registries, i: string, peers: set<string>)
    requires i in registries && registries[i] + {i} <= peers
    ensures |peers| > 0 && D.Quota(lim.maxRequests, |peers|) <= DistributedSafety.QuotaCap(lim, registries, i)
  {
    SubsetCard(registries[i] + {i}, peers);
    assert i in registries[i] + {i};
    if lim.maxRequests >= 0 {
      DistributedSafety.QuotaShrinks(lim.maxRequests, |registries[i] + {i}|, |peers|);
    } else {
      NoQuota(lim.maxRequests, |peers|);
    }
  }

  lemma NoQuota(maxRequests: int, peers: nat)
    requires maxRequests < 0 < peers
    ensures D.Quota(maxRequests, peers) <= 0
  {
  }

  /** How many calls are past the own count, before and after one call moves on or ends. */
  lemma OwnOutcome(calls: map<nat, Call>, id: nat, out: Outcome, i: string, key: string)
    requires id in calls
    ensures var c, calls' := calls[id], Moved(calls, id, calls[id], out);
            var mine, past := c.key == key && c.instance == i, out.Continue? && PastOwn(c.(phase := out.next));
            && PastOwnCalls(calls', i, key) <= InFlightOf(calls', i, key)
            && PastOwnCalls(calls', i, key)
               == (if mine && past then PastOwnCalls(calls, i, key) + {id} else PastOwnCalls(calls, i, key) - {id})
            && (id in PastOwnCalls(calls, i, key) <==> mine && PastOwn(c))
  {
  }

  lemma ReplyKeepsOwn(sys: System, s: State, id: nat, reply: Reply, i: string, key: string, own: nat)
    requires id in s.calls && i in sys.registries && WithinOwn(sys, s, i, key, own)
    requires |InFlightOf(OnReply(sys, s, id, reply).calls, i, key)| <= own
    ensures WithinOwn(sys, OnReply(sys, s, id, reply), i, key, own)
  {
    hide Perform, OnReply, InFlightOf, PastOwnCalls, ZSet.Card, Moved, D.Quota, DistributedSafety.QuotaCap;
    var c, s' := s.calls[id], OnReply(sys, s, id, reply);
    var out := PerformIn(sys, s, c, reply).outcome;
    ReplyShape(sys, s, id, reply);
    ReplyKeepsPeers(sys, s, id, reply, i);
    PerformOwn(sys.config.limits(c.key), sys.config.ttlBuffer, Peers(s, c.instance), s.clock, c,
               Lookup(s.store, Global(c.key)), Lookup(s.store, PerInstance(c.instance, c.key)), reply);
    OwnOutcome(s.calls, id, out, i, key);
    QuotaWithinCap(sys.config.limits(key), sys.registries, i, s.instances[i].registry);
    SubsetCard(PastOwnCalls(s'.calls, i, key), InFlightOf(s'.calls, i, key));
  }

  lemma ReplyKeepsPeers(sys: System, s: State, id: nat, reply: Reply, i: string)
    requires id in s.calls && i in s.instances
    ensures var s' := OnReply(sys, s, id, reply);
            i in s'.instances && s'.instances[i].registry == s.instances[i].registry
  {
    hide PerformIn, BreakerOps;
  }

  lemma OthersKeepOwn(sys: System, s: State, l: Label, i: string, key: string, own: nat)
    requires i in sys.registries && WithinOwn(sys, s, i, key, own) && !l.Command?
    ensures WithinOwn(sys, Step(sys, s, l), i, key, own)
  {
    hide ZSet.Card, ZSet.Evict, D.Quota, DistributedSafety.QuotaCap;
    var s' := Step(sys, s, l);
    CardBounds(Lookup(s.store, PerInstance(i, key)), 0, 0, 0, s.clock, RequestId(0, ""));
    EmptyCard();
    StepKeepsPast(sys, s, l, i, key);
  }

  lemma StepKeepsPast(sys: System, s: State, l: Label, i: string, key: string)
    requires !l.Command?
    ensures PastOwnCalls(Step(sys, s, l).calls, i, key) == PastOwnCalls(s.calls, i, key)
  {
    hide ZSet.Evict, Operate, InFlight;
  }

  lemma NonePast(sys: System, i: string, key: string)
    ensures PastOwnCalls(Start(sys).calls, i, key) == {}
  {
  }

  /** In every interleaving in which at most `own` calls of an instance are in flight on a key, with
      faults, resets, evictions and growing registries: the instance's own set plus the calls that
      have passed its count and not yet stored their entry there never exceed its quota plus
      `own` - 1. */
  lemma {:induction false} OwnOvershootBound(sys: System, ls: seq<Label>, i: string, key: string, own: nat)
    requires i in sys.registries && AtMost(sys, ls, i, key, own)
    ensures WithinOwn(sys, Run(sys, ls), i, key, own)
    ensures var s, quota := Run(sys, ls), DistributedSafety.QuotaCap(sys.config.limits(key), sys.registries, i);
            Lookup(s.store, PerInstance(i, key)).Card() + |PastOwnCalls(s.calls, i, key)| <= OwnCeiling(quota, own)
  {
    if ls == [] {
      NonePast(sys, i, key);
      EmptyCard();
    } else {
      hide Step, OnReply, InFlightOf, DistributedSafety.QuotaCap;
      var before, l := ls[..|ls| - 1], ls[|ls| - 1];
      OwnOvershootBound(sys, before, i, key, own);
      StepKeepsOwn(sys, Run(sys, before), l, i, key, own);
    }
  }

  lemma StepKeepsOwn(sys: System, s: State, l: Label, i: string, key: string, own: nat)
    requires i in sys.registries && WithinOwn(sys, s, i, key, own)
    requires |InFlightOf(Step(sys, s, l).calls, i, key)| <= own
    ensures WithinOwn(sys, Step(sys, s, l), i, key, own)
  {
    hide OnReply, WithinOwn, InFlightOf;
    if l.Command? {
      if l.call in s.calls { ReplyKeepsOwn(sys, s, l.call, l.reply, i, key, own); }
    } else {
      hide Step;
      OthersKeepOwn(sys, s, l, i, key, own);
    }
  }

  /** The cap on calls of the key is such a number for each of its instances. */
  lemma {:induction false} CapIsAtMost(sys: System, ls: seq<Label>, i: string, key: string)
    ensures AtMost(sys, ls, i, key, sys.cap)
  {
    OvershootBound(sys, ls, key);
    SubsetCard(InFlightOf(Run(sys, ls).calls, i, key), InFlight(Run(sys, ls).calls, key));
    hide Run, InFlightOf;
    if ls != [] { CapIsAtMost(sys, ls[..|ls| - 1], i, key); }
  }
}
