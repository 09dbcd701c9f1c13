# Rate limiters, caches and timers: a verified model

This project models the stateful parts of the monorepo and proves what they guarantee. Its centre
is the pair of Redis rate limiters in `libs/ratelimit`: a sliding-window log per key, and a
variant that several instances share, both behind a three-state circuit breaker. Around them are
the dashboard's product cache, the retry engine, two fixed-window limiters, the hash behind A/B
assignment, `deepMerge`, the audit ring buffer, the timer registry and the round-robin registry.

## How it is built

Each class of the source is a class here, with the same fields, and each of its methods is proved
against a function on values (`CheckKey`, `Stored`, `Renewed`, `Step`, ...). The theorems are about
runs of those functions. A run is a sequence of events or labels, folded from the left; a label
that does not apply changes nothing, so every sequence is a run and every theorem speaks about all
of them.

- `Redis` is a store of sorted sets with deadlines. A command resolves, or throws before or after it
  took effect; in a fault-free run no command of a check throws. A key may be dropped at any time from
  its deadline on. The deadline is the first millisecond in which the key may be gone: Redis still has
  it in the one in which its TTL ends.
- `CircuitBreaker`, `WindowLog`, `LogCover`, `RateLimitTypes` and `Options` hold what is shared. A
  window is `(now - windowMs, now]`; `Bounded` says that no window, wherever it ends, holds more.
- `SlidingWindow` and `SlidingWindowTheorems` are the single-key limiter with atomic calls;
  `SlidingWindowInterleaving` makes every `await` of it a step, and `SlidingWindowOverlap` derives its
  bounds from those of the shared limiter, step by step.
- `RateLimitAnswers`, `SlidingWindowAnswers` and `DistributedAnswers` say what the two limiters tell their
  callers, field by field.
- `Distributed` is the shared limiter with atomic calls; its check is two methods, split between the
  second count and the first ZADD, so that each half has a contract of its own. `DistributedSafety`,
  `DistributedCollisions`, `DistributedBalance` and `DistributedFaults` prove upper bounds, when they
  need pacing, conservation and the effect of faults.
- `DistributedInterleaving` makes every `await` one step of a transition system. `InterleavingHistory`
  says that every allowed call is counted once; `InterleavingBounds`, `InterleavingEvictions`,
  `InterleavingQuotas` and `InterleavingBreaker` prove the invariants and that an undisturbed call is
  the atomic one. `InterleavingRuns` builds runs call by call; with it `InterleavingTightness`,
  `InterleavingCollisions`, `InterleavingLostGrants`, `InterleavingLateCalls` and `InterleavingAnyWindow`
  show which bounds are reached and exactly when they fail.
- `CacheService` and `StoreService` are the product cache, `StaleReads` its operations interleaved, and
  `StoreRefinement` says that the two agree on operations that run alone. `StoreAnswers` is about what
  the operations answer, `SkuUniqueness` about the SKUs of the rows.
- `Retry` and `ConnectionOps` are the retry loops and the cap on concurrent operations.
- `AlignedWindow` (interleaved) and `AlignedWindowMiddleware` (one call) are the limiter of the
  data-intelligence service, `DashboardLimiter` the in-memory one.
- `StringHash`, `DeepMerge`, `AuditTrail`, `Scheduler` and `EndpointRegistry` are one component each.

## What the proofs found

- The single-key limiter is window-safe, and equal to a limiter that never forgets, if and only if
  its key TTL covers the window (`TtlHarmless`). A negative `ttlBuffer` lets one call too many in.
- The request id `now_instance` makes two calls of one instance in one millisecond one set member.
  The shared limiter is window-safe without pacing its callers if and only if no instance's quota
  exceeds one; otherwise one instance can have any number of calls allowed in a millisecond. If a
  reset may delete the caller's set and then fail on the global one, even that does not help: all runs
  are window-safe if and only if the limit is at most one.
- Faults do not always leave the instances' entries inside the global set. Without resets, they stay
  there throughout a run, whenever the key is dropped, if and only if no call stores its own entry and
  then fails before EXPIRE on a global key due within the window; such a run exists.
- In fault-free runs an allowed caller is told exactly how many requests its window holds, and what the
  limit leaves. In the shared limiter each request id counts once, so calls of one instance in one
  millisecond are told as one.
- Overlapping calls overshoot the limit by at most the number of other calls in flight, and do reach
  that for every limit M and every number C of calls in flight: the shared set holds up to M + C - 1
  entries. Likewise the own set of an instance holds at most its quota plus its own other calls.
- Entries are not calls: the calls of one instance in one millisecond are one entry. However instances
  call, the calls granted in the current window stay within M + C - 1 if and only if M <= 1, there is no
  window, or nobody calls. Otherwise any number of calls is granted, one at a time, in one millisecond.
- If no instance begins two calls on a key in one millisecond, that bound holds of all calls whose entry
  was still in the set when they were allowed. A call whose key is evicted between its ZADD and its
  EXPIRE is allowed without being counted; with such calls the bound holds if and only if M <= 1, the
  window is one millisecond, or nobody calls: otherwise there is a run with one more, even for C = 1.
- A call takes its timestamp when it begins. A window that is past may therefore end up with more calls:
  under the same conditions as before never more than M + 2C - 1, and as many for every M and C. Without
  those conditions that bound fails as well.
- In the single-key limiter request ids do not repeat, so there the bounds M + C - 1 and M + 2C - 1 hold
  of calls without any pacing.
- `reset` leaves the peers' own sets alone: afterwards a peer is admitted if and only if its breaker
  lets it through, the limit is positive and its own set is below its quota. One at its quota stays
  denied on an empty key.
- An update or a delete leaves a stale cache entry exactly when the database took it and the cache
  did not. A served product is never older than 900 s plus the time the caching operation took, and
  can be exactly that old.
- SKUs stay unique throughout a run, sequential or interleaved, if and only if no update and no outside
  write gives a row the SKU of another: creates never break it, although the lookup and the write of
  overlapping creates interleave.
- The aligned-window limiter keeps its limit per window, one request at a time, if and only if GET is
  answered within what the counter's lifetime leaves beyond the window (ten seconds at least); twice
  the limit inside one window's length is possible and is the most.
- Collecting expired records in the dashboard limiter is invisible if and only if no key is checked
  with two windows. `remaining` is never negative there, so the limiter never denies.
- `deepMerge` is associative on three objects if and only if no object is dropped by a non-object in
  the middle that the third object would not have absorbed anyway.
- Tracked timers stay the live ones through a run if and only if no live timer's key is switched to
  the other kind and no timeout callback leaves its own key armed; after the first such step even
  clearing everything leaves a timer running.
- The tracking of concurrent operations is faithful, and the cap on them holds, if and only if
  operation ids are distinct (or at most one operation may run).

## Model

| member | source | states |
|---|---|---|
| Redis.Client.ZRemRangeByScore | libs/ratelimit/src/redisRateLimit.ts:65-66 | the key afterwards is the pruned set if the command took effect and is unchanged otherwise; no other key changes |
| Redis.PruneKeepsLive | libs/ratelimit/src/redisRateLimit.ts:60-69 | pruning up to `now - windowMs` leaves exactly the members of the open-closed window, so ZCARD counts them |
| Redis.NonNegativeBufferCovers | libs/ratelimit/src/redisRateLimit.ts:78-81 | with `ttlBuffer >= 0` the TTL in whole seconds is at least the window |
| Redis.TtlSecondsIs | libs/ratelimit/src/redisRateLimit.ts:78-81 | the TTL is the smallest number of whole seconds that covers the window and the buffer together |
| Redis.TtlCoversIff | libs/ratelimit/src/redisRateLimit.ts:78-81 | it covers the window if and only if that number is positive and, with the millisecond in which it ends, reaches the window's end |
| CircuitBreaker.ConsistentIffPositiveThreshold | libs/ratelimit/src/redisRateLimit.ts:158-169 | in every interleaving of admissions, failures and successes, closed means `failureCount < threshold` and open or half-open means at least the threshold: if and only if the threshold is at least 1 |
| CircuitBreaker.CountsFailuresSinceClose | libs/ratelimit/src/redisRateLimit.ts:86-90 | the counter is the number of failures recorded since the breaker last closed, successes in the closed state not resetting it |
| CircuitBreaker.RemembersLatestFailure | libs/ratelimit/src/redisRateLimit.ts:158-160 | `lastFailureTime` is the time of the latest recorded failure of the run |
| CircuitBreaker.BlockedCallsDoNotPostponeRecovery | libs/ratelimit/src/redisRateLimit.ts:45-55 | calls turned away by an open breaker change nothing, and a later call is turned away if and only if it comes before latest failure + recoveryTimeout |
| WindowLog.AdmitKeepsBounded | libs/ratelimit/src/redisRateLimit.ts:71-77 | appending an entry when its own window holds fewer than the limit keeps every window, wherever it ends, within the limit |
| WindowLog.CountIsCardinality | libs/ratelimit/src/redisRateLimit.ts:69 | without repeated ids, counting log entries in a window is the size of the set of their ids |
| SlidingWindow.OptimizedRedisRateLimit.CheckRateLimit | libs/ratelimit/src/redisRateLimit.ts:40-110 | with any reply to each of the five commands, the breaker fields, the key's sorted set and the answer are those of the value function `CheckKey`; other keys are untouched |
| SlidingWindow.OptimizedRedisRateLimit.RecordFailure | libs/ratelimit/src/redisRateLimit.ts:158-169 | counts the failure, stamps it, and opens the breaker from the threshold on |
| SlidingWindow.OptimizedRedisRateLimit.Reset | libs/ratelimit/src/redisRateLimit.ts:115-124 | the key is gone if DEL took effect, and the call throws exactly when DEL threw |
| SlidingWindowAnswers.CheckTells | libs/ratelimit/src/redisRateLimit.ts:83-192 | whatever the commands reply: an allowed answer gives the size of the set and what is left of the limit, never below zero; a denied one the limit as hits, nothing left, and the whole seconds a window takes; both the limit, and as reset time the first moment whose window leaves this request out |
| SlidingWindowAnswers.CheckSettles | libs/ratelimit/src/redisRateLimit.ts:45-109 | a check the breaker turns away leaves it alone, an allowed one leaves it closed, any other is one more failure, stamped now, that opens it from the threshold on |
| SlidingWindowAnswers.HitsAreTheWindow | libs/ratelimit/src/redisRateLimit.ts:83-96 | in fault-free runs the hits told are the allowed requests of the window, this one included, and hits and remaining add up to the limit |
| SlidingWindow.CheckKeepsCovers | libs/ratelimit/src/redisRateLimit.ts:57-109 | whichever command fails, the set and its deadline keep covering every allowed request still in a window, and an allowed check found fewer than the limit |
| SlidingWindow.CheckIsExact | libs/ratelimit/src/redisRateLimit.ts:57-104 | without faults a check is allowed if and only if the breaker lets it through and the window of all requests ever allowed holds fewer than the limit |
| SlidingWindow.RunCovers | libs/ratelimit/src/redisRateLimit.ts:57-124 | after every run with faults, resets and evictions no window holds more calls allowed since a reset last took effect than the limit, and the sorted set covers their log |
| SlidingWindowTheorems.WindowSafeIffTtlHarmless | libs/ratelimit/src/redisRateLimit.ts:57-109 | every window between resets that took effect holds at most maxRequests allowed calls in all runs with faults and evictions, if and only if the TTL covers the window |
| SlidingWindowTheorems.OverflowOverfills | libs/ratelimit/src/redisRateLimit.ts:78-81 | when the TTL is shorter than the window, a concrete run lets maxRequests + 1 calls into one window |
| SlidingWindowTheorems.RefinesNaive | libs/ratelimit/src/redisRateLimit.ts:65-90 | fault-free runs take the same decisions and breaker transitions as a limiter that keeps every allowed timestamp, with equal logs |
| SlidingWindowTheorems.RefinesNaiveIffTtlHarmless | libs/ratelimit/src/redisRateLimit.ts:65-90 | that refinement holds of every fault-free run if and only if the TTL covers the window on every key |
| SlidingWindowTheorems.NeverHalfOpenBetweenCalls | libs/ratelimit/src/redisRateLimit.ts:45-109 | one call at a time the breaker is never half-open between calls, and is closed exactly below the threshold |
| SlidingWindowTheorems.TurnedAwayChangesNothing | libs/ratelimit/src/redisRateLimit.ts:46-51 | checks during the open phase change neither breaker, nor any key, nor any log |
| SlidingWindowTheorems.OpenBreakerRecoversOnTime | libs/ratelimit/src/redisRateLimit.ts:45-55 | in fault-free runs the first check at or after lastFailureTime + recoveryTimeout is allowed if and only if its window has room, however many checks were turned away before |
| SlidingWindowTheorems.RecoveryReachesTheWindow | libs/ratelimit/src/redisRateLimit.ts:45-109 | after any faults, and whatever its own replies, that check is not blocked by the breaker: it is allowed if and only if none of its commands throws and the pruned set holds fewer than the limit |
| SlidingWindowInterleaving.UninterruptedCallIsAtomicCheck | libs/ratelimit/src/redisRateLimit.ts:40-110 | a call of the step-by-step model with nothing in between has the effect, breaker and answer of the atomic check, and changes nothing else |
| SlidingWindowOverlap.RunMirrors | libs/ratelimit/src/redisRateLimit.ts:57-104 | every interleaving has a run of the shared limiter, with an instance of its own for every call, that has the same sets and the same grants |
| SlidingWindowOverlap.EachGrantCounts | libs/ratelimit/src/redisRateLimit.ts:83-104 | every call that is allowed adds exactly one to the calls granted |
| SlidingWindowOverlap.OvershootBound | libs/ratelimit/src/redisRateLimit.ts:65-77 | in every interleaving with at most C calls in flight on a key, the set plus the calls that passed the count and have not stored their entry hold at most maxRequests + C - 1 |
| SlidingWindowOverlap.GrantedWindowBound | libs/ratelimit/src/redisRateLimit.ts:57-104 | without any pacing the current window holds at most maxRequests + C - 1 calls granted with their entry in the set (or at all, if the limit tolerates evictions), those still to be stored included |
| SlidingWindowOverlap.AnyWindowBound | libs/ratelimit/src/redisRateLimit.ts:57-104 | and a window that ends at any moment, however late its calls are granted, at most maxRequests + 2C - 1 |
| Distributed.DistributedRateLimit.CheckRateLimit | libs/ratelimit/src/distributedRateLimit.ts:60-144 | with any reply to each of the nine commands, the breaker, the global set, the own set and the answer are those of `CheckKey`; other keys and the registry are untouched |
| Distributed.DistributedRateLimit.RecordRequest | libs/ratelimit/src/distributedRateLimit.ts:107-143 | the second half of that method, its last five commands in order, is `Record`: the sets, the breaker, the answer, and whether a command threw |
| Distributed.DistributedRateLimit.RecordFailure | libs/ratelimit/src/distributedRateLimit.ts:370-381 | counts the failure, stamps it, and opens the breaker from the threshold on |
| Distributed.DistributedRateLimit.Reset | libs/ratelimit/src/distributedRateLimit.ts:149-168 | deletes the caller's own set, then the global set unless the first DEL threw; no peer's set is touched |
| Distributed.DistributedRateLimit.HandleMessage | libs/ratelimit/src/distributedRateLimit.ts:272-317 | the registry grows by the sender of a sync message that is not the instance's own, and by nothing else |
| DistributedAnswers.CheckTells | libs/ratelimit/src/distributedRateLimit.ts:123-143 | the same fields as in the single-key limiter, the hits being the size of the global set |
| DistributedAnswers.CheckSettles | libs/ratelimit/src/distributedRateLimit.ts:65-143 | the same effect on the instance's breaker, but that a recount that throws counts as a failure after the breaker has closed |
| DistributedAnswers.HitsAreTheWindow | libs/ratelimit/src/distributedRateLimit.ts:121-129 | in fault-free runs the hits told are the request ids allowed to all instances in the window, this one included, so the number of calls if none collide, and hits and remaining add up to the limit |
| DistributedSafety.CheckKeepsCovers | libs/ratelimit/src/distributedRateLimit.ts:77-143 | whichever of nine commands fails, both sets keep covering their logs, and an allowed check found room in the global window and in its quota |
| DistributedSafety.QuotaShrinks | libs/ratelimit/src/distributedRateLimit.ts:99-101 | a registry that grows never raises the quota of an instance |
| DistributedSafety.WindowsAndQuotasHold | libs/ratelimit/src/distributedRateLimit.ts:85-110 | in every run with faults, resets, evictions and growing registries, no window holds more than maxRequests calls allowed since the global set was last deleted, nor more than ceil(maxRequests / N) of one instance since it last deleted its own set, if no instance is allowed twice on the key in one millisecond |
| DistributedCollisions.QuotaOneNeverCollides | libs/ratelimit/src/distributedRateLimit.ts:96-110 | with quotas of at most one, and a limit of at most one or no reset that fails between its two deletions, no instance is ever allowed twice on a key in one millisecond |
| DistributedCollisions.WindowSafeWithoutPacingIffQuotaOne | libs/ratelimit/src/distributedRateLimit.ts:108-110 | all runs in which no reset fails between its two deletions are window-safe without any pacing of callers, if and only if every quota is at most one |
| DistributedCollisions.WindowSafeUnderHalfResetsIff | libs/ratelimit/src/distributedRateLimit.ts:149-168 | all runs whatsoever are window-safe without pacing if and only if the limit is at most one or there is no instance |
| DistributedSafety.NeverHalfOpenBetweenCalls | libs/ratelimit/src/distributedRateLimit.ts:65-143 | one call at a time no instance's breaker is left half-open, and each is closed exactly below the threshold |
| DistributedBalance.CheckKeepsPaired | libs/ratelimit/src/distributedRateLimit.ts:85-114 | a fault-free check leaves the global set and the caller's set agreeing on the caller's live requests, and touches no live request of anybody else |
| DistributedBalance.Conservation | libs/ratelimit/src/distributedRateLimit.ts:78-114 | after undisturbed runs the unexpired global entries are exactly the disjoint union of the unexpired entries of all instances |
| DistributedBalance.QuotasCoverTheLimit | libs/ratelimit/src/distributedRateLimit.ts:99-101 | N * ceil(maxRequests / N) lies between maxRequests and maxRequests + N - 1 |
| DistributedBalance.FreeSlotCanBeUsed | libs/ratelimit/src/distributedRateLimit.ts:85-105 | when all instances know each other and a global slot is free, some instance's next check is allowed unless its breaker blocks it |
| DistributedBalance.ResetRestoresIff | libs/ratelimit/src/distributedRateLimit.ts:149-156 | after a reset by one instance, the next fault-free check of any instance is allowed if and only if its breaker does not block it, the limit admits anything, and it is the caller itself or still below its own quota |
| DistributedBalance.PeerIsLockedOut | libs/ratelimit/src/distributedRateLimit.ts:96-105 | a run in which a peer that used its quota of one stays denied for the rest of the window, with the global set empty after another instance's reset |
| DistributedFaults.OwnShelterIff | libs/ratelimit/src/distributedRateLimit.ts:107-114 | one check with any faults leaves the caller's live entries inside a global set that outlives them, if and only if it does not lose EXPIRE after storing its own entry under a deadline inside the window |
| DistributedFaults.ContainmentSurvivesIff | libs/ratelimit/src/distributedRateLimit.ts:77-143 | containment of all instances' live entries in the global set survives a check if and only if that check does not strand its entry |
| DistributedFaults.FaultsOnlyOverCount | libs/ratelimit/src/distributedRateLimit.ts:77-143 | in runs without resets, with any faults but those, the instances' live entries stay inside the global set, so faults only over-count |
| DistributedFaults.AlwaysContainedIff | libs/ratelimit/src/distributedRateLimit.ts:77-143 | over whole runs without resets, after every event and after the global key may have been dropped at any later moment, the instances' live entries are live entries of the global set, if and only if no call strands its entry |
| DistributedFaults.StrandedEntryIsForgotten | libs/ratelimit/src/distributedRateLimit.ts:109-114 | after such a check the global set can be evicted while the instance still counts the entry |
| DistributedFaults.StrandingIsReachable | libs/ratelimit/src/distributedRateLimit.ts:109-114 | a concrete run of two instances reaches that state |
| InterleavingBounds.OvershootBound | libs/ratelimit/src/distributedRateLimit.ts:85-110 | in every interleaving with at most C calls in flight on a key, with faults, evictions and resets, the global set's size plus the calls that passed the global check and have not added yet is at most maxRequests + C - 1 |
| InterleavingHistory.EachGrantCounts | libs/ratelimit/src/distributedRateLimit.ts:123-135 | every call that is allowed adds exactly one to the calls granted, whatever its instance and timestamp |
| InterleavingQuotas.OwnOvershootBound | libs/ratelimit/src/distributedRateLimit.ts:95-110 | in every interleaving with at most c calls of an instance in flight on a key, its own set plus its calls past the own count hold at most ceil(maxRequests / N) + c - 1 |
| InterleavingTightness.OvershootReached | libs/ratelimit/src/distributedRateLimit.ts:85-110 | for every limit of at least one and every C, a run brings the set to exactly maxRequests + C - 1 entries |
| InterleavingTightness.WithinLimitIff | libs/ratelimit/src/distributedRateLimit.ts:85-110 | the set stays within maxRequests in all interleavings of all groups of instances if and only if calls do not overlap or the limit admits nothing |
| InterleavingBounds.CountedWindowBound | libs/ratelimit/src/distributedRateLimit.ts:85-124 | in every interleaving in which no instance begins two calls on the key in one millisecond, the current window holds at most maxRequests + C - 1 calls that were granted with their entry still in the set, those still to be stored included |
| InterleavingEvictions.GrantedWindowBound | libs/ratelimit/src/distributedRateLimit.ts:85-124 | the same for all calls granted since the last reset, also those whose entry was evicted meanwhile, when the limit is at most one or the window at most a millisecond |
| InterleavingCollisions.CalmWindowBound | libs/ratelimit/src/distributedRateLimit.ts:85-124 | the same without any pacing, when the limit is at most one or there is no window |
| InterleavingCollisions.AnyNumberIsGranted | libs/ratelimit/src/distributedRateLimit.ts:85-110 | for every limit of at least two and every n, one instance calling one at a time has n calls granted within one millisecond |
| InterleavingCollisions.GrantedBoundIff | libs/ratelimit/src/distributedRateLimit.ts:85-124 | so in all interleavings of all instances the calls granted in the current window stay within maxRequests + C - 1 if and only if the limit is at most one, there is no window, or nobody calls; with or without the calls whose entry was evicted |
| InterleavingLostGrants.LostGrantOverfills | libs/ratelimit/src/distributedRateLimit.ts:107-114 | for every limit and window of at least two and every C, a run from the start in which every call has its own instance grants more than maxRequests + C - 1 calls of the current window |
| InterleavingLostGrants.PacedBoundIff | libs/ratelimit/src/distributedRateLimit.ts:85-124 | so in all interleavings in which no instance begins two calls in one millisecond that bound holds of all calls, if and only if the limit is at most one, the window at most a millisecond, or nobody calls |
| InterleavingAnyWindow.AnyWindowBound | libs/ratelimit/src/distributedRateLimit.ts:77-124 | no window of timestamps, wherever it ends and however late its calls are granted, holds more than maxRequests + 2C - 1 granted calls, those in flight included: of paced calls those whose entry was in the set (all, if the limit tolerates evictions), and of any calls if the limit is at most one or there is no window |
| InterleavingAnyWindow.AnyWindowBoundReached | libs/ratelimit/src/distributedRateLimit.ts:77-124 | for every limit of at least one, every window and every C, a paced run grants exactly that many calls with one timestamp |
| InterleavingAnyWindow.AnyWindowBoundIff | libs/ratelimit/src/distributedRateLimit.ts:77-124 | however instances call, that bound holds in all interleavings if and only if the limit is at most one, there is no window, or nobody calls |
| InterleavingAnyWindow.PacedAnyWindowIff | libs/ratelimit/src/distributedRateLimit.ts:77-124 | of paced calls it always holds when evicted entries are set aside, and holds of all calls if and only if the limit is at most one, the window at most a millisecond, or nobody calls |
| InterleavingBreaker.BreakerUnderInterleaving | libs/ratelimit/src/distributedRateLimit.ts:65-143 | in every interleaving of calls of all instances each breaker is closed exactly below the threshold and counts the failures since its last close |
| InterleavingBreaker.UninterruptedCallIsAtomicCheck | libs/ratelimit/src/distributedRateLimit.ts:60-144 | a call of the step-by-step model with nothing in between has the effect, breaker and answer of the atomic check, and changes nothing else |
| CacheService.CacheService.Get | apps/dashboard/src/services/CacheService.ts:45-69 | serves a stored value until its deadline and nothing on a failure; every lookup is exactly one of a hit, a miss and an error |
| CacheService.CacheService.Set | apps/dashboard/src/services/CacheService.ts:74-98 | stores with the first non-zero TTL of argument, option and default; a failure is only counted |
| CacheService.CacheService.Delete | apps/dashboard/src/services/CacheService.ts:103-119 | removes the key if DEL took effect and says whether it was there |
| CacheService.CacheService.DeletePattern | apps/dashboard/src/services/CacheService.ts:124-154 | removes exactly the keys that match the glob pattern, or none when a command fails before taking effect, and counts them |
| CacheService.BuildKeyIs | apps/dashboard/src/services/CacheService.ts:45-69 | the full key is the prefix given, or without one "dashboard:", and then the key |
| CacheService.EffectiveTtlIs | apps/dashboard/src/services/CacheService.ts:74-98 | the TTL of the call goes before that of the options, then come 300 seconds; zero counts as none |
| CacheService.StoredIsServed | apps/dashboard/src/services/CacheService.ts:74-98 | what was stored is served for exactly its seconds, and nothing else changes |
| CacheService.RemovedIsGone | apps/dashboard/src/services/CacheService.ts:103-119 | what was removed is not served, and nothing else changes |
| CacheService.GlobOfLiteral | apps/dashboard/src/services/CacheService.ts:124-154 | a pattern without wildcards matches itself only |
| CacheService.GlobOfQuestion | apps/dashboard/src/services/CacheService.ts:124-154 | a question mark matches any one character |
| CacheService.GlobOfStar | apps/dashboard/src/services/CacheService.ts:124-154 | a star matches any number of characters |
| CacheService.GlobOfPrefix | apps/dashboard/src/services/StoreService.ts:628-639 | a literal followed by a star, as the store service writes its patterns, matches exactly the keys with that prefix |
| CacheService.CacheService.Wrap | apps/dashboard/src/services/CacheService.ts:347-368 | answers what is served, otherwise what was produced and then stored |
| StoreService.StoreService.GetProductById | apps/dashboard/src/services/StoreService.ts:108-139 | cache first, then the database, caching what was found; ties the whole new state to `Read` |
| StoreService.StoreService.CreateProduct | apps/dashboard/src/services/StoreService.ts:198-238 | looks up the SKU, writes the database, then the cache; ties the whole new state and the answer to `Create` |
| StoreService.StoreService.UpdateProduct | apps/dashboard/src/services/StoreService.ts:243-274 | writes the database, then the cache; ties the whole new state to `Update` |
| StoreService.StoreService.DeleteProduct | apps/dashboard/src/services/StoreService.ts:279-300 | deletes from the database, then from the cache; ties the whole new state to `Delete` |
| StoreService.StoreService.ClearStoreCache | apps/dashboard/src/services/StoreService.ts:628-639 | if the product commands work no product is served from the cache afterwards, whatever becomes of the other commands, and no entry is added or changed |
| StoreAnswers.ReadAnswers | apps/dashboard/src/services/StoreService.ts:108-139 | a read answers what the cache serves, else the row, which is then served from the cache for 900 seconds, else that there is none or an error |
| StoreAnswers.TakenSkuIsRefused | apps/dashboard/src/services/StoreService.ts:203-211 | a create whose SKU some row has answers with an error and changes neither database nor cache, whatever the replies |
| StoreAnswers.CreateAnswersIff | apps/dashboard/src/services/StoreService.ts:198-238 | a create answers with its product if and only if the SKU is absent or new, the id is new and its commands resolve; then its row is stored, otherwise nothing is cached |
| StoreAnswers.CreatedIsServed | apps/dashboard/src/services/StoreService.ts:220-223 | and then it is served from the cache for 900 seconds |
| StoreAnswers.UpdateAnswersIff | apps/dashboard/src/services/StoreService.ts:243-274 | an update answers with the row if and only if it exists and the command resolves: given fields are replaced, absent ones and the id stay |
| StoreAnswers.UpdatedIsServed | apps/dashboard/src/services/StoreService.ts:243-274 | and the new row is served from the cache for 900 seconds |
| StoreAnswers.DeleteAnswersIff | apps/dashboard/src/services/StoreService.ts:279-300 | a delete succeeds if and only if the row exists and the command resolves, and then the row is gone, and from the cache too if that command worked |
| StoreAnswers.ProductKeyIs | apps/dashboard/src/services/StoreService.ts:108-139 | a product is cached under "dashboard:product:" and its id |
| SkuUniqueness.RunKeepsUniqueIff | apps/dashboard/src/services/StoreService.ts:198-300 | throughout a sequential run no two rows share a SKU, if and only if no update gives a row the SKU of another |
| SkuUniqueness.RunWithoutSkuUpdates | apps/dashboard/src/services/StoreService.ts:198-300 | in particular if no update touches a SKU, whatever creates are asked for and whatever fails |
| SkuUniqueness.InterleavingKeepsUniqueIff | apps/dashboard/src/services/StoreService.ts:198-300 | throughout every interleaving no two rows share a SKU, if and only if no update and no outside write gives a row the SKU of another |
| SkuUniqueness.LookupRefuses | apps/dashboard/src/services/StoreService.ts:203-211 | in the interleaved model a create whose SKU some row has at the lookup ends there with nothing written |
| SkuUniqueness.LookupPasses | apps/dashboard/src/services/StoreService.ts:203-218 | and goes on to the database if no row has it |
| StoreService.ReadStaysCoherent | apps/dashboard/src/services/StoreService.ts:108-139 | a read never makes the cache differ from the database, whatever fails |
| StoreService.CreateStaysCoherent | apps/dashboard/src/services/StoreService.ts:198-238 | neither does a create |
| StoreService.UpdateStaysCoherentIff | apps/dashboard/src/services/StoreService.ts:243-274 | an update keeps the cache truthful if and only if it did not reach the database, changed nothing, found nothing cached, or reached the cache as well |
| StoreService.DeleteStaysCoherentIff | apps/dashboard/src/services/StoreService.ts:279-300 | a delete keeps the cache truthful if and only if it did not reach the database, found nothing cached, or reached the cache as well |
| StoreService.SequentialReadsAreCurrent | apps/dashboard/src/services/StoreService.ts:108-300 | in sequential runs in which no committed write misses the cache, every read answers the database's row or throws with the database |
| StaleReads.ServedProductIsRecent | apps/dashboard/src/services/StoreService.ts:108-300 | in every interleaving of reads, creates, updates, deletes and outside writes, with cache commands failing silently, a product served from the cache was the database's row at some moment no older than 900 s plus the duration of the operation that cached it |
| StaleReads.StalenessIsAttained | apps/dashboard/src/services/StoreService.ts:108-139 | for every duration of the caching read, a run serves a row that was overwritten exactly that long and 900 s before |
| StoreRefinement.ReadAlone | apps/dashboard/src/services/StoreService.ts:108-139 | a read of the interleaved model with nothing in between has the effect of `Read`, and what it is served is what `Read` answers |
| StoreRefinement.CreateAlone | apps/dashboard/src/services/StoreService.ts:198-238 | likewise a create and `Create`, with any reply to the lookup of its SKU, which a create without a SKU skips |
| StoreRefinement.UpdateAlone | apps/dashboard/src/services/StoreService.ts:243-274 | likewise an update and `Update` |
| StoreRefinement.DeleteAlone | apps/dashboard/src/services/StoreService.ts:279-300 | likewise a delete and `Delete` |
| Retry.ExecuteWithRetry | libs/utils/src/executeWithRetry.ts:99-131 | runs at most maxRetries times and never after a success, reports attempts 1, 2, ... in order, fails if and only if all attempts fail, with the last error, and sleeps the backoff between attempts |
| Retry.DelayBounds | libs/utils/src/executeWithRetry.ts:120-128 | a backoff is at most its full exponential value and, with jitter and rounding, more than half of it less one millisecond |
| Retry.JitterIsProportional | libs/utils/src/executeWithRetry.ts:120-128 | without jitter the delay is the full one; with it the draw moves it from half the full delay towards all of it, in proportion |
| Retry.DelayFollowsDraw | libs/utils/src/executeWithRetry.ts:120-128 | and the backoff is that, rounded down to whole milliseconds |
| Retry.TotalSleep | libs/utils/src/executeWithRetry.ts:120-128 | the sleep before attempt k is at most retryDelay * (2^(k-1) - 1), and at least that (half of it with jitter) less k - 1 |
| Retry.BackoffWithinLargest | libs/utils/src/executeWithRetry.ts:524-532 | no backoff exceeds the one before the last attempt |
| Retry.LargestBackoffOccurs | libs/utils/src/executeWithRetry.ts:520-532 | and that one, without jitter, is the bound |
| Retry.ExecuteRealTime | libs/utils/src/executeWithRetry.ts:397-535 | no attempt starts after the grace deadline; each starts when the previous one has rejected or taken connectionTimeout, which is the most it occupies, and its backoff has passed; the call resolves if and only if the last attempt resolves in less than connectionTimeout; it ends by deadline + connectionTimeout + largest backoff, and each other way of ending happens exactly as stated |
| ConnectionOps.Connection.Enter | libs/utils/src/executeWithRetry.ts:373-392 | a call is accepted if and only if the set is below the cap; a rejected one leaves the set alone |
| ConnectionOps.Connection.Leave | libs/utils/src/executeWithRetry.ts:590-593 | removes the call's own id and nothing else |
| ConnectionOps.FaithfulIff | libs/utils/src/executeWithRetry.ts:373-392 | in every interleaving the set is exactly the ids of the calls in progress, if and only if ids are distinct or the cap is at most one |
| ConnectionOps.CapHoldsIff | libs/utils/src/executeWithRetry.ts:373-392 | in every interleaving there are never more calls in progress than the cap, if and only if ids are distinct or the cap is at most one |
| AlignedWindowMiddleware.RateLimitMiddleware.RateLimit | apps/data-intelligence/src/middleware/rateLimit.middleware.ts:49-162 | one call rejects if and only if its window is full, counts otherwise, touches no other key, promises the remaining number of requests, names the wait that reaches the next window, and does what the step-by-step model does undisturbed |
| AlignedWindowMiddleware.RateLimitMiddleware.CountRequest | apps/data-intelligence/src/middleware/rateLimit.middleware.ts:125-135 | one more in the counter, and a deadline only with the first one |
| AlignedWindow.CountsByStatus | apps/data-intelligence/src/middleware/rateLimit.middleware.ts:110-135 | with skipSuccessfulRequests only answers from status 400 on count, with skipFailedRequests only those below, with both none, with neither all |
| AlignedWindow.LifetimeIs | apps/data-intelligence/src/middleware/rateLimit.middleware.ts:130-135 | a counter lives for the window in whole seconds and ten more |
| AlignedWindow.WindowHolds | apps/data-intelligence/src/middleware/rateLimit.middleware.ts:57-135 | with at most C requests in flight and GET answered in time, an aligned window counts at most maxRequests + C - 1, skipped ones aside |
| AlignedWindow.AskedCountersLast | apps/data-intelligence/src/middleware/rateLimit.middleware.ts:130-135 | under the same condition the TTL never drops a counter while a GET about it can still be answered |
| AlignedWindow.IntervalHolds | apps/data-intelligence/src/middleware/rateLimit.middleware.ts:57-135 | any half-open interval of one window's length admits at most 2 * (maxRequests + C - 1) requests, 2 * maxRequests one at a time |
| AlignedWindow.WindowSafeIffAnswersInTime | apps/data-intelligence/src/middleware/rateLimit.middleware.ts:130-135 | one request at a time, the limit holds in every window of every run if and only if GET takes no longer than the counter's lifetime exceeds the window, or the limit admits nothing at all |
| AlignedWindow.TwiceTheLimitHappens | apps/data-intelligence/src/middleware/rateLimit.middleware.ts:57-80 | a concrete run admits exactly 2 * maxRequests requests inside one window's length |
| DashboardLimiter.RateLimitMiddleware.CheckRateLimit | apps/dashboard/src/middleware/rateLimit.middleware.ts:93-119 | counts on in an open window and starts a new one otherwise; `remaining` is never negative |
| DashboardLimiter.RateLimitMiddleware.Cleanup | apps/dashboard/src/middleware/rateLimit.middleware.ts:172-189 | the loop deletes exactly the expired records and counts them |
| DashboardLimiter.CollectionInvisibleIff | apps/dashboard/src/middleware/rateLimit.middleware.ts:93-189 | inserting collections anywhere changes no answer of any run on a nondecreasing clock, if and only if no key is checked with two windows (the longer one not negative) |
| DashboardLimiter.CountsSinceOpened | apps/dashboard/src/middleware/rateLimit.middleware.ts:100-111 | in every run, whatever windows its checks ask for, the count of a record is the number of checks of its key from the one that opened its window on, and its bounds are that check's |
| DashboardLimiter.AnswersTellWhatIsLeft | apps/dashboard/src/middleware/rateLimit.middleware.ts:100-119 | in every run a check is told its limit less the checks of its key from the one that opened the window on, itself included, and never less than zero |
| DashboardLimiter.CountsChecksSince | apps/dashboard/src/middleware/rateLimit.middleware.ts:100-111 | for a key always checked with one non-negative window, on a nondecreasing clock, these are the checks made since the window's start time |
| StringHash.HashString | apps/ai-engine/src/services/model.service.ts:488-496 | the shift-and-subtract loop computes the magnitude of the signed 32-bit residue of the base-31 polynomial of the code units |
| StringHash.OnlyResidue | apps/ai-engine/src/services/model.service.ts:490-494 | the signed 32-bit residue is the only number of its range that differs by multiples of 2^32 |
| StringHash.BucketIs | apps/ai-engine/src/services/model.service.ts:473-474 | the bucket is what the residue without its sign leaves modulo 100 |
| StringHash.PolynomialSnoc | apps/ai-engine/src/services/model.service.ts:490-492 | the polynomial, defined from its most significant digit, obeys the recurrence the loop uses |
| StringHash.GetABTestVersion | apps/ai-engine/src/services/model.service.ts:467-483 | version A if and only if the cart's bucket, one of 0 to 99, is below the split point |
| StringHash.RaisingTheSplitMovesOnlyToA | apps/ai-engine/src/services/model.service.ts:473-482 | raising trafficSplit moves carts only from B to A, and exactly those between the split points |
| StringHash.EveryBucketOccurs | apps/ai-engine/src/services/model.service.ts:473-474 | each of the hundred buckets is some cart's |
| DeepMerge.DeepMerge | libs/utils/src/helpers.ts:68-98 | the recursive loop terminates by nesting and computes, whatever the order of entries, the merge defined key by key |
| DeepMerge.SourceWins | libs/utils/src/helpers.ts:74-95 | a leaf or array that the source holds on any path is there afterwards, whatever the target holds |
| DeepMerge.TargetStays | libs/utils/src/helpers.ts:74-77 | where the source meets a missing key, undefined or null on the way down, the target keeps what it has |
| DeepMerge.ObjectsMerge | libs/utils/src/helpers.ts:79-92 | where both hold an object on a path, their merge is there |
| DeepMerge.MergeSelf | libs/utils/src/helpers.ts:68-98 | merging an object with itself gives that object |
| DeepMerge.IdempotentInSource | libs/utils/src/helpers.ts:68-98 | merging the same source twice is merging it once |
| DeepMerge.AbsorbedIff | libs/utils/src/helpers.ts:74-95 | merging z over x gives z if and only if z has all of x's keys, equal nullish values, and absorbs x below |
| DeepMerge.AssociativeIff | libs/utils/src/helpers.ts:68-98 | the two groupings of three objects agree if and only if no path holds an object, a non-null non-object and an object, the last not absorbing the first |
| DeepMerge.AssociativeWithoutClash | libs/utils/src/helpers.ts:68-98 | in particular they agree when no path holds an object, a non-null non-object and an object |
| AuditTrail.AuditMiddleware.StoreAuditEvent | apps/ai-engine/src/middleware/audit.middleware.ts:477-487 | the buffer then represents the whole history with this event appended |
| AuditTrail.AuditMiddleware.GetAuditTrail | apps/ai-engine/src/middleware/audit.middleware.ts:611-625 | the newest min(max(1, limit), capacity, stored) events of the whole history, newest first |
| AuditTrail.AuditMiddleware.SearchAuditEvents | apps/ai-engine/src/middleware/audit.middleware.ts:632-673 | the first limit matches (100 without a positive limit) of the last capacity events, newest first: every result meets every criterion given, field by field, and any other event still held fails one or comes after as many results as the limit asks for |
| AuditTrail.AtMostIff | apps/ai-engine/src/middleware/audit.middleware.ts:660-661 | the order of timestamps: a prefix comes first, else the smaller character at the first difference decides |
| AuditTrail.SearchPicks | apps/ai-engine/src/middleware/audit.middleware.ts:632-673 | where in the buffer the results of a search are, and why every other event is not among them |
| AuditTrail.AuditMiddleware.GetAuditStatistics | apps/ai-engine/src/middleware/audit.middleware.ts:678-708 | totals, successes, failures, rate in percent and, for every action and every resource, how many of the events still held are of it |
| AuditTrail.MatchingOfLonger | apps/ai-engine/src/middleware/audit.middleware.ts:652-671 | looking further back only appends matches, which is why the loop may stop early |
| Scheduler.Scheduler.SetInterval | libs/utils/src/Scheduler.ts:29-33 | a tracked interval of the key, not a timeout, is no longer live; one new live interval is tracked under the key, and nothing else changes |
| Scheduler.Scheduler.SetTimeout | libs/utils/src/Scheduler.ts:38-45 | the same with timeouts |
| Scheduler.Scheduler.Clear | libs/utils/src/Scheduler.ts:46-49 | the key is untracked and whatever was tracked under it, of either kind, is no longer live; all other keys and live timers stay |
| Scheduler.Scheduler.ClearAll | libs/utils/src/Scheduler.ts:81-90 | the loop stops every tracked timer and forgets all keys |
| Scheduler.Scheduler.FireTimeout | libs/utils/src/Scheduler.ts:40-43 | a due timeout is no longer live, and its key stays tracked while its callback runs |
| Scheduler.Scheduler.ReturnFromCallback | libs/utils/src/Scheduler.ts:40-43 | after a timeout's callback its key is forgotten, whatever is tracked there by then |
| Scheduler.ClearedKeyHasNoTimer | libs/utils/src/Scheduler.ts:46-49 | from a state with exact tracking, clearing a key leaves no live timer of the key and every other one |
| Scheduler.SetKeyHasOneTimer | libs/utils/src/Scheduler.ts:29-45 | and a guarded setting leaves exactly one live timer of the key, the new one |
| Scheduler.StepExactIff | libs/utils/src/Scheduler.ts:29-90 | a step keeps the tracked timers equal to the live ones if and only if it neither switches the kind of a live key nor ends a callback that left its own key armed |
| Scheduler.TrackedIsLiveIff | libs/utils/src/Scheduler.ts:29-90 | the same for whole runs: tracked is live throughout if and only if every step is of that kind |
| Scheduler.ClearAllStopsIff | libs/utils/src/Scheduler.ts:81-90 | after a run that never broke the tracking and one more step, clearing everything leaves nothing running if and only if that step kept the tracking exact |
| Scheduler.RearmedTimeoutLeaks | libs/utils/src/Scheduler.ts:40-45 | a timeout re-armed from its own callback survives even clearing everything |
| EndpointRegistry.EndpointRegistryService.Register | apps/api-gateway/src/services/EndpointRegistryService.ts:31-41 | appends a url once, keeps every list free of duplicates and every index as it is |
| EndpointRegistry.EndpointRegistryService.GetRoundRobin | apps/api-gateway/src/services/EndpointRegistryService.ts:49-63 | answers the url at the index modulo the length and moves the index on, for this service only; an empty url is answered like none |
| EndpointRegistry.EndpointRegistryService.GetRandom | apps/api-gateway/src/services/EndpointRegistryService.ts:64-67 | a draw in the i-th of n equal parts of [0, 1) answers the i-th registered url |
| EndpointRegistry.EndpointRegistryService.RemoveService | apps/api-gateway/src/services/EndpointRegistryService.ts:75-91 | removes that url and no other, keeps the order, and leaves the index stale |
| EndpointRegistry.ChoicesInOrder | apps/api-gateway/src/services/EndpointRegistryService.ts:58-63 | from any index the k-th choice is the url k places further around the list |
| EndpointRegistry.RoundRobinIsFair | apps/api-gateway/src/services/EndpointRegistryService.ts:58-63 | over m choices from n urls, from any index, each url is answered m / n times rounded down or up |

## Left out

- `circuitBreaker.enabled` is read by the status calls only and gates nothing; it has no counterpart here.
- The Redis key prefixes are one constructor each; an instance id containing a colon could make two source keys one string.
- An atomic check happens at one instant; the clock moves between calls. The step-by-step model lets it move anywhere, but takes the time of the request when the call begins.
- InterleavingBounds.CountedWindowBound: supposes that no instance begins two calls on the key in one millisecond, because otherwise it is false; `InterleavingCollisions.GrantedBoundIff` says exactly when callers need no such pacing. It does not count a call whose entry was evicted before it was allowed; `PacedBoundIff` says exactly when it is true of those as well. Calls allowed before a reset, or whose entry a reset deleted, are counted by none of these bounds.
- InterleavingEvictions.GrantedWindowBound: supposes such pacing, and a limit of at most one or a window of at most a millisecond, for the same reasons.
- InterleavingAnyWindow.AnyWindowBound: supposes the same, alternatively a limit of at most one or no window; `AnyWindowBoundIff` and `PacedAnyWindowIff` say that less does not do.
- DistributedSafety.WindowsAndQuotasHold: supposes that no instance is allowed twice on the key in one millisecond, because otherwise it is false; `WindowSafeWithoutPacingIffQuotaOne` and `WindowSafeUnderHalfResetsIff` say exactly when callers need no such pacing.
- DistributedFaults.AlwaysContainedIff: excludes resets, which delete the global set and leave the peers' own sets on purpose; `ResetRestoresIff` says what follows.
- CacheService.CacheService.DeletePattern: character classes and escapes in patterns are not modelled.
- That the bounds on overlapping calls of the single-key limiter are reached; its breaker, which all calls share, can end a run early.
- A key whose deadline has passed may still be there for a command. Runs in which every due key is dropped before it is used are runs like any other, and the runs built here to reach or break a bound are of that kind.
- `Math.random` in a request id does not repeat within one millisecond on one key (`Fresh`); where calls overlap it is the number of the call.
- The result fields `algorithm`, `cached` and `responseTime`, logging, metrics, health and status calls, the drift check and the heartbeat.
- Publishing events and the sync transport; a sync message is a step of the environment. All instances use the same limits for a key.
- The cockatiel breaker path of the retry engine, error wrapping and messages, and metrics around it; `onError` does not throw and timers fire on time.
- Delays are real numbers: rounding of floating-point products is not modelled, except that the A/B split allows any monotone rounding.
- Products are an id, a SKU and the rest as one text; JSON is the identity. That the database may refuse an update whose SKU is taken is one of the failures an update may meet.
- Product lists, carts, statistics and the other cached queries of the store service, and the cache's `exists`, `increment`, `getMultiple`, `setMultiple` and `getHealth`: single calls of the same kind.
- The path of the data-intelligence limiter on which a handler or Redis throws and the request is run again; its status call and key generators.
- DashboardLimiter.RateLimitMiddleware.CheckRateLimit: nothing is claimed about denying requests, because `remaining` is never below zero; `getRateLimitStatus` is left out because it can observe collections.
- `deepMerge`: key order, an own `__proto__` key, and objects that are not plain (dates, class instances).
- `chunkArray` and the string, date and formatting helpers, because they would only add easy members.
- AuditTrail.AuditMiddleware.constructor: a capacity below one is excluded, for which the source would index with NaN.
- Creating, masking and logging of audit events, which do not touch the buffer.
- `Scheduler`: delays, and a callback that throws, which would keep its key tracked.
- Object pool, monitoring counters, paging, chat rooms, predictions with random noise, and the ai-engine rate limiter whose own catch swallows the denial.
