# Verified models of the router, locks, limiters and codecs

This project models the small protocols and algorithms of the repository and proves what they
keep over every run and every input. Each module follows one source file (or the few that share a
format); what a file changes in place is a class or a loop here, proved against a functional
description, and the properties are lemmas about that description.

- **Concurrency and time.** `SessionLocks`: the per-session lock table as atomic steps of
  any number of threads. `LeaseKey`, `LeaderElection`, `LeaseRenewal`: the Redis lease with compare-and-set
  scripts, the election and its watcher, and the renewal loop, with explicit time. `TokenBucket`, `TokenBucketGreedy` and `SlidingWindow`: the two rate limiters.
  `Resilience`: the circuit breaker as a log of operations, and the retry loop.
- **Formats.** `Sse`, `SseCodec`, `SseFields`, `SseClients`: event-stream framing, the parsers of both front
  ends and the writer of the log server (sections 9.2.5 and 9.2.6 of the WHATWG HTML Living Standard).
  `Fingerprint`: the hashed byte stream of the code fingerprint. `Base64Url`, `Base64Groups` and `Jwt`: the token codec
  (section 5 of RFC 4648, sections 3.1 and 7.1 of RFC 7515).
- **Selectors.** `MetricSelection`, `MetricLimits`, `MetricFamilies`, `MetricSelector`: metric signals by
  diversity with a repair of source families. `Quotas`, `Holdout`, `HoldoutChain`, `HoldoutOrder`,
  `HoldoutChoice`, `HoldoutChecks`, `HoldoutFreeze`: holdout manifests over generations. `AlertGroups`: alerts grouped by time.
- **Decisions.** `Funnel`, `FunnelAcceptance`, `FunnelAnswers`, `FunnelReplies`, `FunnelMargin`, `FunnelCache`, `FunnelRuns`, `FunnelConcurrency`,
  `FunnelApp`: the intent funnel, its candidate cache, its clarification rounds, and requests that overlap. `Keywords`, `RouteCache`, `RouteRuns`: the keyword rules
  and the route cache of the plain router. `Belief`, `BeliefDecisions`: the belief state machine.
- **Shared.** `Text` (splitting, joining, trimming, containment), `Sorting` (stable sorting, orders,
  permutations), `Sets`.

## What turned out to hold only under a condition

- The token bucket's rate bound, and the claim that evicting idle buckets is invisible, hold exactly when
  ten minutes of refill fill a bucket (`RateBoundedExactly`, `EvictionTransparentExactly`).
- A leader's context outlives the loss of the key by at most a watch period and a GET exactly when no reply to a SET
  comes later than the lifetime it set (`PeriodAndGetExactly`); the call at utility/leader/leader.go:88 has no timeout of its own.
- Single failed renewals of a lease are survived exactly from four seconds on if the call hangs for its timeout, and from
  two seconds on if it fails at once (`HangingCallSurvivedFromFourSeconds`, `PromptFailureSurvivedFromTwoSeconds`). The comment
  at utility/leader/leader.go:138 promises room for two failures; the code does not give it (`TwoFailuresLoseLease`).
- Sliding-window member names end in a random number, and collisions let any number of calls through
  (`CollisionsEscapeTheCount`); the bound counts collisions separately, and without them it holds on all runs exactly at a
  rate of at most one (`BoundedByRateExactly`).
- Written events are read back exactly for clean data (`AppRoundTripExactly`, `TsRoundTripExactly`).
- The metric repair covers all required families exactly from a limit of eight on (`CoversExactly`).
- The funnel's margin test sees only the candidates it keeps. The margin over the whole reply is kept exactly when the reply is
  not cut down to a single intent with a different one behind it (`MarginKeptExactly`): with a limit of one that takes two
  close candidates, with a larger one a reply that repeats an intent (`EveryLimitLeaks`).
- The key of the candidate cache holds the policy version but not the limit; a change of the limit stays invisible exactly
  when it makes no difference (`LimitChangeExactly`).
- The route cache is keyed by the query with its white space collapsed, while the keyword rules see the query as it
  is; the cache is transparent exactly when every keyword contains one without white space (`TransparentExactly`).
- A symbolic link and a regular file that spells it out have the same fingerprint (`ConfusedExactly`).

## Model

| member | source | states |
|---|---|---|
| `SessionLocks.MutualExclusion` | internal/app/chat_app.go:192-223 | in every run, whatever the interleaving and however often the entry of an id was deleted and made anew, two different threads are never both inside the critical section of one id |
| `SessionLocks.BlockedOnlyBySameSession` | internal/app/chat_app.go:192-204 | a thread waiting for an entry's mutex waits for another thread of the same session id |
| `SessionLocks.ReplacedEntryExitUnreachable` | internal/app/chat_app.go:214-217 | a releasing thread always finds its own entry in the table: the exit for a replaced entry is never taken |
| `SessionLocks.RefCountIsUsers` | internal/app/chat_app.go:198-199 | the reference count of a listed entry is the number of threads between their look-up and their decrement on it |
| `SessionLocks.CleanupNeverDeletes` | internal/app/chat_app.go:227-241 | at no reachable state and no time does the periodic cleanup find anything to delete |
| `SessionLocks.TableIsIdsInUse` | internal/app/chat_app.go:206-223 | the table holds exactly the ids some thread is using; with no thread at work it is empty |
| `SessionLocks.CanDrain` | internal/app/chat_app.go:192-223 | from every reachable state there is a run in which every thread finishes and the table is empty: no deadlock |
| `SessionLocks.RunKeepsInv` | internal/app/chat_app.go:192-241 | every state of every run satisfies the invariant (filing of entries, counts, exclusive holders) |
| `SessionLocks.NextKeepsInv` | internal/app/chat_app.go:192-241 | one atomic step (look-up, lock, unlock, decrement, cleanup) preserves the invariant |
| `SessionLocks.ChatApp.LookupAndCount` | internal/app/chat_app.go:193-200 | finds or creates the entry, counts the caller and stamps the time: the heap then represents the state after the look-up step |
| `SessionLocks.ChatApp.LockEntry` | internal/app/chat_app.go:202-203 | takes the entry's mutex: the heap then represents the state after the lock step |
| `SessionLocks.ChatApp.UnlockEntry` | internal/app/chat_app.go:207-208 | releases the entry's mutex: the heap then represents the state after the unlock step |
| `SessionLocks.ChatApp.DecrementEntry` | internal/app/chat_app.go:210-222 | decrements the count and removes the entry at zero: the heap then represents the state after the decrement step |
| `SessionLocks.ChatApp.CleanupTick` | internal/app/chat_app.go:227-241 | one cleanup pass over the table: the heap then represents the state after the cleanup step |
| `LeaderElection.StepKeepsRunner` | utility/leader/leader.go:70-225 | every step of the timed protocol (clock, acquire, renew, release, watcher tick, reply) keeps what holds between an instance, the key and the instant up to which the instance last held it |
| `LeaderElection.RunKeepsRunner` | utility/leader/leader.go:70-225 | that holds of every instance in every state of every run of any number of instances |
| `LeaderElection.LastHeldMeaning` | utility/leader/leader.go:124-135 | the last hold of an instance is read off the run's own states: never if no state has it hold the key, else an instant up to which some state does, with none after it |
| `LeaderElection.ContextOutlivesLossBounded` | utility/leader/leader.go:169-225 | an instance whose leader context is still live last held the key no longer ago than one watch gap plus one GET, plus the time by which the reply to its SET came after the loss of the key |
| `LeaderElection.PeriodAndGetExactly` | utility/leader/leader.go:88-214 | with GETs answered within a watch period, a period and a GET bound that time on every run if and only if no reply to a SET comes after the lifetime it set (with deletions from outside: if and only if replies take no time) |
| `LeaderElection.OverlapBounded` | utility/leader/leader.go:169-225 | if the contexts of two instances are live at once, one of them does not hold the key and last held it no longer ago than that bound |
| `LeaderElection.ContextEndsExactly` | utility/leader/leader.go:194-217 | in every run a leader's context ends exactly when its work is cancelled, returns or dies with its process, or at the reply to a GET that failed or found the key not its own |
| `LeaderElection.HolderStaysLeader` | utility/leader/leader.go:194-217 | an instance that keeps holding the key, whose GETs do not fail and whose work nobody stops, stays leader |
| `LeaderElection.TriesApart` | utility/leader/leader.go:169-224 | in every run an instance sends its SETs at least a ttl apart, whether they succeed, fail or come too late |
| `LeaderElection.LossIsFinalWithinTenure` | utility/leader/leader.go:137-217 | from its SET to its release, an instance that does not hold the key at some moment of a run never holds it again |
| `LeaderElection.OthersNeverTouchLiveKey` | utility/leader/leader.go:110-162 | renewing or releasing by one instance never changes a live key that another one owns |
| `LeaderElection.HandOverNeedsLapse` | utility/leader/leader.go:70-122 | between two states in which different instances hold the key there is one in which no instance does |
| `LeaseRenewal.NextCallTime` | utility/leader/leader.go:143-154 | with a one-place tick channel and blocking calls, a renewal begins at its tick or when the one before it is over, whichever is later |
| `LeaseRenewal.RoomKeepsKey` | utility/leader/leader.go:137-162 | with room for one failed call the key stays live over any run of calls without two failures in a row, however long each takes within the given bounds |
| `LeaseRenewal.SurvivesExactlyWithRoom` | utility/leader/leader.go:137-162 | single failed renewals are survived on all schedules if and only if the lifetime of the SET holds an interval, a failed call or an interval, and the delays of the others |
| `LeaseRenewal.HangingCallSurvivedFromFourSeconds` | utility/leader/leader.go:137-162 | a renewal that hangs until its two-second timeout is survived, all else being prompt, if and only if the lifetime is at least four seconds |
| `LeaseRenewal.PromptFailureSurvivedFromTwoSeconds` | utility/leader/leader.go:84-93 | a renewal that fails at once is survived, all else being prompt, if and only if the lifetime is at least two seconds |
| `LeaseRenewal.TwoFailuresLoseLease` | utility/leader/leader.go:138-142 | two failed renewals in a row cost the lease at any lifetime, although the comment promises room for two |
| `LeaseRenewal.LiveLeaseNotGivenUp` | utility/leader/leader.go:137-162 | the loop never reports the loss of a lease that stays live, and leaves it to its owner with the last script's deadline; only a lifetime below one millisecond is deleted by its own first renewal |
| `LeaseRenewal.GoneIsReported` | utility/leader/leader.go:153-159 | a lease that is gone is reported lost exactly if some later call is answered, and the key is left alone |
| `LeaseKey.AcquiredExactly` | utility/leader/leader.go:83-94 | who holds the key when after SET NX EX: the caller for the lifetime if it was free, else whoever did |
| `LeaseKey.RenewedExactly` | utility/leader/leader.go:145-153 | who holds the key when after the renew script: its owner for a new lifetime if that was the caller, else whoever did |
| `LeaseKey.ReleasedExactly` | utility/leader/leader.go:117-121 | who holds the key when after the release script: whoever did, except the caller |
| `LeaseRenewal.RedisKey.Set` | utility/leader/leader.go:82-93 | SET NX EX: succeeds exactly when no live key is there, and then the key is the caller's for the whole-second lifetime |
| `LeaseRenewal.RedisKey.Renew` | utility/leader/leader.go:147-153 | the renew script extends the key exactly when the caller owns it and leaves it alone otherwise |
| `LeaseRenewal.RedisKey.Delete` | utility/leader/leader.go:116-120 | the release script deletes the key exactly when the caller owns it |
| `LeaseRenewal.Lease.Acquire` | utility/leader/leader.go:70-106 | the checks in their order, then a lease exactly when the key was free |
| `LeaseRenewal.Lease.Release` | utility/leader/leader.go:110-122 | only the first release reaches Redis, and it removes only the lease's own key |
| `LeaseRenewal.Lease.IsHeld` | utility/leader/leader.go:126-135 | true exactly when not released and the live key is the lease's own |
| `LeaseRenewal.Lease.RenewLoop` | utility/leader/leader.go:137-162 | the loop with its ticker and blocking calls leaves the key, and reports a loss, as the specified run of calls |
| `TokenBucket.RateIsBounded` | utility/auth/rate_limiter.go:78-105 | in every run and interval one client is admitted at most capacity + rate * length / window times, if nothing is evicted or ten minutes refill a bucket |
| `TokenBucket.RateBoundedExactly` | utility/auth/rate_limiter.go:78-131 | with evictions the bound holds for all runs if and only if ten idle minutes refill a bucket |
| `TokenBucket.EvictionTransparentExactly` | utility/auth/rate_limiter.go:118-131 | evicting idle buckets changes no answer in any run if and only if ten idle minutes refill a bucket |
| `TokenBucket.TrapExceedsBound` | utility/auth/rate_limiter.go:118-131 | otherwise a burst before and after an eviction is admitted in full and breaks the bound |
| `TokenBucket.RemainingIsAdmitted` | utility/auth/rate_limiter.go:107-116 | the reported number of tokens is never more than would be admitted at once, and is that number right after a call |
| `TokenBucket.BurstPasses` | utility/auth/rate_limiter.go:78-105 | how many calls at one instant pass, from the level of the bucket |
| `TokenBucketGreedy.BucketIsGreedy` | utility/auth/rate_limiter.go:78-105 | in every run, if nothing is evicted or ten minutes refill a bucket, a call is refused if and only if admitting it would break the rate bound on some interval, given only the recorded answers and times |
| `TokenBucketGreedy.BucketIsGreedyExactly` | utility/auth/rate_limiter.go:78-131 | with evictions the answers are those of that reference limiter in every run if and only if ten idle minutes refill a bucket |
| `TokenBucket.RateLimiter.Allow` | utility/auth/rate_limiter.go:78-105 | answers and updates the client's bucket as specified and touches no other bucket |
| `TokenBucket.RateLimiter.RemainingTokens` | utility/auth/rate_limiter.go:107-116 | reports the stored whole tokens, or the capacity for an unknown client, changing nothing |
| `TokenBucket.RateLimiter.CleanupTick` | utility/auth/rate_limiter.go:122-129 | deletes exactly the buckets idle for more than ten minutes |
| `SlidingWindow.LimiterIsReference` | utility/auth/redis_rate_limiter.go:26-79 | over every run the trimmed and expiring log answers as a reference that keeps all admissions forever and counts those of the last window |
| `SlidingWindow.ExpiryUnobservable` | utility/auth/redis_rate_limiter.go:37 | leaving out every expiry of the key changes no answer |
| `SlidingWindow.AtMostRatePerWindow` | utility/auth/redis_rate_limiter.go:26-42 | every half-open span of one window contains at most `rate` admissions, plus those whose random member name collided |
| `SlidingWindow.CollisionsEscapeTheCount` | utility/auth/redis_rate_limiter.go:36 | at any rate of two or more and any window, any number of calls in one millisecond pass if they draw the same random number |
| `SlidingWindow.BoundedByRateExactly` | utility/auth/redis_rate_limiter.go:26-42 | no run admits more than the rate in a window if and only if the rate is at most one |
| `SlidingWindow.RemainingIsExact` | utility/auth/redis_rate_limiter.go:58-79 | the reported remainder is how many further calls at that instant are admitted, given fresh member names |
| `SlidingWindow.CountedIsRemaining` | utility/auth/redis_rate_limiter.go:64-78 | whatever commands come between the trim and the count, the remainder is exact for the instant of the last of them |
| `SlidingWindow.RedisRateLimiter.Allow` | utility/auth/redis_rate_limiter.go:26-56 | the script trims, counts and adds as specified on the client's own log |
| `SlidingWindow.RedisRateLimiter.Remaining` | utility/auth/redis_rate_limiter.go:58-79 | trims the client's log and reports the rate less its size, not below zero |
| `Resilience.ClosedCounts` | utility/resilience/resilience.go:80-115 | a closed breaker has counted exactly the failures since the last success in the log, and they are below the threshold |
| `Resilience.OpensExactly` | utility/resilience/resilience.go:98-110 | a failure opens a closed breaker exactly when the failures since the last success reach the threshold |
| `Resilience.RefusedExactly` | utility/resilience/resilience.go:59-78 | a call is refused exactly when the breaker is open and the latest recorded failure, stragglers included, is no longer ago than the reset timeout |
| `Resilience.StateFromLastFailure` | utility/resilience/resilience.go:59-115 | the state is read off the log: closed if its last failure did not open the breaker, else decided by the first late enough call and the successes after it |
| `Resilience.RecoveryFromOpen` | utility/resilience/resilience.go:66-91 | without failures an open breaker is open, half open or closed by the first late enough call and the number of successes since |
| `Resilience.ClosingNeedsTrial` | utility/resilience/resilience.go:84-91 | a breaker closes only on a success, with no failure since a call that came later than the reset timeout, and exactly the required number of successes after that call |
| `Resilience.CircuitBreaker.Allow` | utility/resilience/resilience.go:59-78 | logs the call, answers from the log and keeps the fields a function of the log |
| `Resilience.CircuitBreaker.RecordSuccess` | utility/resilience/resilience.go:80-96 | logs the success and keeps the fields a function of the log |
| `Resilience.CircuitBreaker.RecordFailure` | utility/resilience/resilience.go:98-115 | logs the failure and keeps the fields a function of the log |
| `Resilience.Execute` | utility/resilience/resilience.go:148-187 | one execution adds its call and at most one outcome to the log: a success for the first attempt that succeeds, a failure when all attempts failed, nothing when refused or cancelled |
| `Sse.MatchStable` | frontend/src/hooks/useChat.ts:97-107 | a separator once complete is not moved by text that arrives later, and no earlier one appears |
| `Sse.PullStable` | frontend/src/hooks/useChat.ts:97-107 | pulling a block from a longer buffer pulls the same block |
| `Sse.ChunksDoNotMatter` | frontend/src/hooks/useChat.ts:901-1025 | however the stream is cut into chunks, the same blocks are handled up to the same stop, and as long as nothing stopped the same text is left |
| `Sse.DrainRebuilds` | frontend/src/hooks/useChat.ts:901-1033 | blocks, separators and the rest concatenate to the text |
| `Sse.DrainIsExact` | frontend/src/hooks/useChat.ts:97-107 | each block ends at the first boundary there is |
| `Sse.DrainOfRebuilt` | frontend/src/hooks/useChat.ts:97-107 | whatever is built from exact pieces and an unfinished tail drains into those pieces and that tail |
| `SseCodec.DataSurvivesExactly` | deploy/local-k8s-log-mcp.py:630-631 | splitting data into lines and joining them gives the data back exactly when its only line boundaries are newlines and it does not end in one |
| `SseCodec.AppRoundTripExactly` | frontend/app.js:1475-1500 | app.js reads back a written event exactly when its data is clean in that sense |
| `SseCodec.TsRoundTripExactly` | frontend/src/hooks/useChat.ts:77-95 | useChat.ts reads back a written event exactly when moreover no data line starts with white space |
| `SseCodec.DrainWritten` | frontend/app.js:1587-1613 | draining a written stream gives the written events, in order, up to the first terminal one |
| `SseCodec.PrintChunkParse` | deploy/local-k8s-log-mcp.py:628-633 | any list of events with clean data and proper names, written, cut into any chunks, drained and parsed, gives that list up to the first terminal event, and the flush at the end adds none |
| `SseClients.ParseSSEBlock` | frontend/src/hooks/useChat.ts:77-95 | the loop over lines computes the specified event |
| `SseClients.ParseSseBlock` | frontend/app.js:1475-1500 | the loop over lines computes the specified event |
| `SseFields.TsReadsLine` | frontend/src/hooks/useChat.ts:77-95 | for any value: an event line gives the trimmed name or `message`, a data line the value without its leading white space, any other line nothing |
| `SseFields.AppReadsLine` | frontend/app.js:1479-1495 | for any value: an event line gives the trimmed name, a data line the value without one leading white space, any other line nothing |
| `SseFields.TsStopsExactly` | frontend/src/hooks/useChat.ts:1015-1028 | on any text useChat.ts handles no event after one named `done` or `error`, and stops at nothing else |
| `SseFields.AppStopsExactly` | frontend/app.js:1597-1613 | on any text app.js handles no event after one it stops at, and stops at nothing else |
| `SseClients.ReceiveBlocks` | frontend/src/hooks/useChat.ts:901-1033 | the receive loop handles the events of one pass over the whole stream, and its answer text is their message data |
| `SseClients.Send` | frontend/src/hooks/useChat.ts:901-1067 | loop and final flush: without an event that ends the stream the answer text is that of the concatenated chunks, their unfinished last block included |
| `SseClients.ReceiveEvents` | frontend/app.js:1587-1613 | the receive loop handles the events of one pass over the whole stream up to the terminal one |
| `SseClients.SendStreamMessage` | frontend/app.js:1569-1614 | loop and final flush handle the events of one pass over the whole stream up to the terminal one, an unfinished last block included |
| `SseClients.EventStream.WriteEvent` | deploy/local-k8s-log-mcp.py:628-633 | appends exactly the text of the event to what was sent |
| `FunnelConcurrency.RoutedExactly` | internal/app/agent_router_funnel.go:88-314 | in every run of overlapping requests, for any replies and any cache reached, a request is routed exactly by the first layer's rules or by an output with no keyword of the guard, a current state, every slot answered, no high risk, and a judged candidate that is routable, at the threshold, ahead of every other intent by the margin, and for an incident with an allowed strategy; the answer carries that candidate's confidence, the output is a reply to this request or an unexpired one to an equal key, and a risky query only gets a high-risk confirmation |
| `FunnelConcurrency.StepKeeps` | internal/app/agent_router_funnel.go:104-122 | looking up, storing and answering as separate steps keep every cached and used output traceable to a reply |
| `FunnelConcurrency.AnsweredExactly` | internal/app/agent_router_funnel.go:104-154 | in every run each request is answered by the first layer, is refused for a reply of its own that could not be used, or ends as the conditions on its output say: its decision, risk, reason, confidence, open slots, and whether it is asked back |
| `FunnelAnswers.FinishedAnswers` | internal/app/agent_router_funnel.go:123-153 | a high-risk output or action request that is judged gets high risk and no question; a question is asked exactly when the request is neither routed nor risky nor out of scope and rounds are left, for the first of state change, context, confidence, margin, slots and strategy that fails |
| `FunnelAnswers.BlockedExactly` | internal/app/agent_router_funnel.go:360-392 | the context keeps a request from being judged exactly when it is not a topic switch and the snapshot is unversioned, expired, waits for a slot a short question may answer, conflicts with the entities, or lacks what a follow-up needs |
| `FunnelAnswers.ChosenExactly` | internal/app/agent_router_funnel.go:137-146 | otherwise the surest candidate is judged, or for a short question about an incident under way the first follow-up, lifted to the threshold |
| `FunnelReplies.UsableExactly` | internal/app/agent_router_funnel.go:195-239 | a reply is used exactly if it decodes, its candidates (or its one old-style intent) have known intents and confidences between 0 and 1, and its risk is known |
| `FunnelReplies.KeptExactly` | internal/app/agent_router_funnel.go:211-232 | the surest candidates are kept, as many as the limit or two if there is none, surest first, each with the intent and confidence it was offered with and the codes of its reasons |
| `FunnelReplies.EntitiesExactly` | internal/app/agent_router_funnel.go:549-566 | an entity is one of the three known ones, and its value is the last one given, without surrounding space |
| `FunnelReplies.AnsweredSlotExactly` | internal/app/agent_router_funnel.go:440-450 | an answer with a value fills the slot it names, or the only open one if it names none |
| `FunnelReplies.AnswerGivesEntity` | internal/app/agent_router_funnel.go:451-456 | an answer adds its entity if the slot is one of the known ones, and leaves all others alone |
| `FunnelReplies.ConflictsExactly` | internal/app/agent_router_funnel.go:498-508 | a question conflicts with the entities exactly if it asks for another service and does not mention the confirmed one |
| `FunnelReplies.EllipticalExactly` | internal/app/agent_router_funnel.go:607-613 | a question refers back exactly if it has at most twelve characters or one of the phrases that do |
| `FunnelReplies.StateChangedExactly` | internal/app/agent_router_funnel.go:123 | an answer is out of date exactly if it names a version of the state that is not the current one |
| `FunnelConcurrency.ChatIsStrongest` | internal/app/agent_router_funnel.go:218-226 | in every run a chat answer has at least the confidence of every candidate of the reply it rests on, also of those cut off |
| `FunnelMargin.MarginKeptExactly` | internal/app/agent_router_funnel.go:218-278 | every acceptance of an output keeps the margin over all candidates of the reply, those cut off included, if and only if the output is not one of a single routable intent behind which a different one was cut off (short of the confidences for which that is harmless) and that some request can get accepted |
| `FunnelMargin.DistinctKeepsMargin` | internal/app/agent_router_funnel.go:218-278 | a reply that repeats no intent keeps the margin under every limit but one |
| `FunnelMargin.EveryLimitLeaks` | internal/app/agent_router_funnel.go:218-278 | under every limit some reply that repeats an intent is accepted against the margin |
| `FunnelConcurrency.AcceptedKeepsMargin` | internal/app/agent_router_funnel.go:262-278 | in every run an acceptance keeps the margin over the whole reply it rests on unless that reply leaks in this way |
| `FunnelConcurrency.ServedAsks` | internal/app/agent_router_funnel.go:394-438 | in every run a clarification is numbered one above the answer it follows, within the limit, lists the open slots, and comes with a confirmation |
| `FunnelConcurrency.RoundsBounded` | internal/app/agent_router_funnel.go:394-438 | in every run, with the cache and for any replies, a client that echoes rounds is asked at most as often as configured, and the round counts the questions |
| `FunnelConcurrency.InterleavedTransparent` | internal/app/agent_router_funnel.go:104-122 | however requests overlap, each gets the result it would get without the cache, for a classifier that depends on the cache key only |
| `FunnelConcurrency.InterleavedBounded` | internal/app/agent_router_funnel.go:332-346 | however requests overlap, the cache never holds more than the largest configured number of entries |
| `FunnelConcurrency.StoredServes` | internal/app/agent_router_funnel.go:316-346 | an output that is not of high risk answers later requests with its key until it expires |
| `FunnelConcurrency.HighRiskNeverCached` | internal/app/agent_router_funnel.go:332-335 | in no run does the cache hold an output of high risk |
| `FunnelConcurrency.OffKeepsNothing` | internal/app/agent_router_funnel.go:332-335 | without a lifetime or without room nothing is ever kept |
| `FunnelConcurrency.UninterruptedIsCached` | internal/app/agent_router_funnel.go:88-154 | a look-up and a reply with nothing between them are one pass through the cache |
| `FunnelCache.CacheTransparent` | internal/app/agent_router_funnel.go:104-122 | in every run, whatever expires or is evicted, each request gets the very result it would get without the candidate cache, for a classifier that depends on the cache key only |
| `FunnelCache.StepTransparent` | internal/app/agent_router_funnel.go:316-346 | one request is answered as without the cache and leaves every entry equal to what the classifier says now |
| `FunnelCache.CacheBounded` | internal/app/agent_router_funnel.go:339-345 | the cache never holds more than the largest configured number of entries |
| `FunnelCache.StoredSize` | internal/app/agent_router_funnel.go:339-345 | storing keeps within the limit |
| `FunnelCache.StoredKeepsOthers` | internal/app/agent_router_funnel.go:336-345 | storing drops no other entry but one, and that only for a new key in a full cache |
| `FunnelRuns.LimitChangeExactly` | internal/app/agent_router_funnel.go:348-351 | cached answers survive a change of the candidate limit under one policy version if and only if both limits keep equally many |
| `FunnelApp.NormalEntitiesStay` | internal/app/agent_router_funnel.go:549-566 | normalising normalised entities again changes nothing, in whatever order the map is visited |
| `FunnelApp.FlashOutput.Clone` | internal/app/agent_router_funnel.go:353-358 | a copy with the same value that shares neither the slots nor the entities |
| `FunnelApp.FlashOutput.RemoveSlot` | internal/app/agent_router_funnel.go:457-463 | the in-place filter leaves exactly the other slots, in order |
| `FunnelApp.FlashOutput.ApplyAnswer` | internal/app/agent_router_funnel.go:440-464 | fills the answered slot's entity and removes the slot, as specified |
| `FunnelApp.RunnerUpOf` | internal/app/agent_router_funnel.go:262-267 | the largest confidence of another intent, zero if there is none |
| `FunnelApp.RouteCandidate` | internal/app/agent_router_funnel.go:241-314 | computes the specified result branch by branch |
| `FunnelApp.NewClarification` | internal/app/agent_router_funnel.go:394-438 | computes the specified clarification or the result without one |
| `FunnelApp.CheckCandidates` | internal/app/agent_router_funnel.go:211-217 | accepts exactly lists of supported candidates and tidies their reason codes in place |
| `FunnelApp.ParseRouteOutput` | internal/app/agent_router_funnel.go:195-239 | a fresh output with the specified value, or null exactly for a reply that fails the schema |
| `FunnelApp.FinishApart` | internal/app/agent_router_funnel.go:123-153 | the last layer, working in place on its own output, leaves every cached output as it was |
| `FunnelApp.AgentRouterApp.LoadCandidates` | internal/app/agent_router_funnel.go:316-330 | a hit returns an unshared copy of the entry; an expired entry is dropped |
| `FunnelApp.CacheCandidates` | internal/app/agent_router_funnel.go:332-346 | the entries after keeping an unshared copy, one entry evicted if the cache is full |
| `FunnelApp.AgentRouterApp.DecideIntentFunnel` | internal/app/agent_router_funnel.go:88-154 | result and cache afterwards are those of the functional description, so filtering in place never reaches the cache |
| `Keywords.IgnoresSpacingExactly` | internal/app/agent_router.go:407-415 | the keyword rules treat all spellings of a query with one normal form alike if and only if every keyword contains a keyword without white space |
| `Keywords.NormalWords` | internal/app/agent_router.go:459-461 | the normal form of a query keeps exactly its lower-cased words |
| `RouteCache.TransparentExactly` | internal/app/agent_router.go:171-193 | the route cache changes no answer but its origin, for all classifiers and runs, if and only if it is off or every keyword contains one without white space |
| `RouteCache.TurnTransparent` | internal/app/agent_router.go:171-238 | under that condition one request is answered as without the cache and the cache stays faithful |
| `RouteCache.AnsweredExactly` | internal/app/agent_router.go:171-238 | when a request is answered by chat, when by a diagnosis and with which strategy, and that all else is refused |
| `RouteCache.SpacingShows` | internal/app/agent_router.go:172-192 | otherwise a cached answer hides the rule for another spelling of the same query |
| `RouteCache.RoutesBounded` | internal/app/agent_router.go:437-457 | no run of requests takes the cache over its limit |
| `RouteRuns.RoutedExactly` | internal/app/agent_router.go:171-193 | in every run a request gets its own answer, or that of an earlier request with its key which was decided and has not expired, marked as cached |
| `RouteRuns.AnswerServesExactly` | internal/app/agent_router.go:417-457 | a decided answer is given again to a next request with its key exactly until it expires |
| `RouteRuns.StoringKeepsExactly` | internal/app/agent_router.go:437-457 | storing drops the expired routes, and of the others only one, and that only for a new key in a full cache |
| `RouteRuns.OffKeepsNothing` | internal/app/agent_router.go:418-440 | without a lifetime or without room nothing is ever kept |
| `RouteCache.AgentRouter.LoadCachedRoute` | internal/app/agent_router.go:417-435 | a hit is the stored route marked as cached; an expired entry is deleted |
| `RouteCache.AgentRouter.DropExpired` | internal/app/agent_router.go:445-449 | deletes exactly the expired entries |
| `RouteCache.AgentRouter.CacheRoute` | internal/app/agent_router.go:437-457 | stores only decided, undegraded routes, after dropping expired entries and one more if the cache is full |
| `RouteCache.AgentRouter.Route` | internal/app/agent_router.go:171-238 | one request in the automatic mode: answer and cache as specified |
| `MetricLimits.CoversExactly` | scripts/aiops/build_telemetry_evidence.py:711-734 | every required source family of the input is in the selection, on every input, if and only if the limit is at least eight |
| `MetricFamilies.CoversNamesExactly` | scripts/aiops/build_telemetry_evidence.py:699-734 | if some source of the input is named service_ or pod_, some selected one is, and likewise for each of the five infra_ prefixes, on every input, if and only if the limit is at least eight |
| `MetricFamilies.FamilyExactly` | scripts/aiops/build_telemetry_evidence.py:699-708 | for every name, which prefixes give each required family |
| `MetricSelection.EightSuffice` | scripts/aiops/build_telemetry_evidence.py:711-734 | from a limit of eight on, by pigeonhole over the eight families, the repair brings in every required family and loses none |
| `MetricLimits.SevenMiss` | scripts/aiops/build_telemetry_evidence.py:711-734 | for each limit from one to seven an input of eight signals whose selection misses a required family |
| `MetricSelection.SelectionIsFair` | scripts/aiops/build_telemetry_evidence.py:665-696 | the selection has distinct keys, comes from the input, is as long as before the repair, and falls short of the limit only if every key of the input is in it |
| `MetricSelection.BestOfEachEntityFirst` | scripts/aiops/build_telemetry_evidence.py:672-686 | it starts with the strongest signal of each entity, of as many entities as the limit allows |
| `MetricSelection.SecondPassDiverse` | scripts/aiops/build_telemetry_evidence.py:672-686 | the second pass adds at most one signal per metric, and short of the limit misses no metric |
| `MetricSelection.SelectionIgnoresOrder` | scripts/aiops/build_telemetry_evidence.py:668 | the selection does not depend on the order of the input |
| `MetricSelection.RepairKeeps` | scripts/aiops/build_telemetry_evidence.py:719-733 | with eight signals or more one replacement loses no family |
| `MetricSelector.DiversityPass` | scripts/aiops/build_telemetry_evidence.py:672-684 | the loop with its sets of keys and values computes the specified pass |
| `MetricSelector.FillPass` | scripts/aiops/build_telemetry_evidence.py:688-695 | the loop computes the specified filling pass |
| `MetricSelector.FindReplaceable` | scripts/aiops/build_telemetry_evidence.py:724-732 | the last signal of a family represented more than once, else the last signal |
| `MetricSelector.EnsureFamilyCoverage` | scripts/aiops/build_telemetry_evidence.py:711-734 | the loop over the required families computes the specified repair |
| `MetricSelector.SelectMetricSignals` | scripts/aiops/build_telemetry_evidence.py:665-696 | the whole selection is the one whose coverage and fairness are proved |
| `Quotas.BalancedQuotas` | scripts/aiops/freeze_recorded_holdout.py:151-168 | refuses exactly when there are too few cases and never for lack of progress; else sums to the total, is balanced, and has the closed form of one level and a split |
| `Quotas.BalancedUnique` | scripts/aiops/freeze_recorded_holdout.py:151-168 | capacities and total leave only one balanced allocation |
| `Quotas.BalancedIsFair` | scripts/aiops/freeze_recorded_holdout.py:151-168 | max-min fairness: giving one date more takes from a date that then has fewer than it |
| `HoldoutChain.HoldoutsNeverOverlap` | scripts/aiops/freeze_recorded_holdout.py:38-133 | in any chain of generations, each given only the newest manifest, all holdouts are pairwise disjoint and disjoint from the development set, which never changes |
| `HoldoutChain.ChainPassesChecks` | scripts/aiops/freeze_recorded_holdout.py:62-68 | every manifest of a chain passes the check of prior manifests |
| `HoldoutChain.ManifestPassesCheck` | scripts/aiops/freeze_recorded_holdout.py:65-68 | every written manifest passes the check the next generation makes of it |
| `HoldoutChain.HoldoutIsNew` | scripts/aiops/freeze_recorded_holdout.py:89-102 | the holdout has the requested size, no repetition, and none of the used cases |
| `HoldoutChoice.LowestDigestsDrawn` | scripts/aiops/freeze_recorded_holdout.py:92-98 | of the unused cases of a date every one drawn precedes every one left, by digest and then by id |
| `HoldoutChoice.QuotasAreDrawn` | scripts/aiops/freeze_recorded_holdout.py:89-99 | the holdout has as many cases of each date as the balanced quotas say |
| `HoldoutChecks.AcceptsExactly` | scripts/aiops/freeze_recorded_holdout.py:46-96 | a manifest is written exactly for a positive number of cases, dates none of which is blank, repeated or invalid, at least one prior, each with development and holdout cases apart, cases with different identifiers and a date unless used, and enough unused cases on the dates |
| `HoldoutChecks.PriorOkExactly` | scripts/aiops/freeze_recorded_holdout.py:62-68 | a prior passes exactly if it names development cases and holdout cases and no case as both |
| `HoldoutChain.UsedGrows` | scripts/aiops/freeze_recorded_holdout.py:104-133 | the written manifest marks as used what the priors did and its own holdout, and keeps their development ids |
| `HoldoutOrder.OrderDoesNotMatter` | scripts/aiops/freeze_recorded_holdout.py:76-99 | permuting the input changes neither whether a manifest is written nor which one |
| `HoldoutFreeze.UniqueNonEmpty` | scripts/aiops/freeze_recorded_holdout.py:171-179 | the stripped values that are not empty, first occurrences in order |
| `HoldoutFreeze.ReadPriors` | scripts/aiops/freeze_recorded_holdout.py:62-74 | accepts exactly when every prior passes the check, and then collects the development ids and all used ids |
| `HoldoutFreeze.CollectCandidates` | scripts/aiops/freeze_recorded_holdout.py:76-87 | fails exactly on a missing or repeated id or an undated unused case; else lists the unused cases of each date in order |
| `HoldoutFreeze.SelectCases` | scripts/aiops/freeze_recorded_holdout.py:90-99 | the first cases of each date by digest and id, as many as its quota |
| `HoldoutFreeze.FreezeManifest` | scripts/aiops/freeze_recorded_holdout.py:38-133 | succeeds exactly on requests that pass all checks, with the specified manifest; the final disjointness check never fails |
| `Fingerprint.StreamReadsBack` | cmd/gos_eval/main.go:869-872 | the length-prefixed stream is decoded back to the list of names and contents, for arbitrary bytes |
| `Fingerprint.StreamInjective` | cmd/gos_eval/main.go:869-872 | two lists of files give one stream exactly when they are the same list |
| `Fingerprint.SamePreimageExactly` | cmd/gos_eval/main.go:839-875 | two trees are indistinguishable exactly when their cleaned names and hashed contents agree one by one |
| `Fingerprint.PreimageIgnoresOrder` | cmd/gos_eval/main.go:840-841 | the order of the paths changes neither what is hashed nor which error is reported |
| `Sorting.StringLeqExactly` | cmd/gos_eval/main.go:840-841 | the order of names is lexicographic: one ends, or has the smaller character, where they first differ |
| `Fingerprint.ConfusedExactly` | cmd/gos_eval/main.go:854-868 | different files are hashed alike exactly when one is a link and the other a regular file that spells it out |
| `Fingerprint.ContentFiles` | cmd/gos_eval/main.go:839-875 | the loop over the sorted paths hashes the specified stream or reports the first error |
| `Base64Url.RoundTrip` | utility/auth/jwt.go:228-240 | bytes of any length survive encoding and decoding |
| `Base64Url.EncodingShape` | utility/auth/jwt.go:228-230 | the encoding has only alphabet characters, so no dot and no padding, and the length of the bits in groups of six |
| `Base64Url.EncodeInjective` | utility/auth/jwt.go:228-230 | different bytes have different encodings |
| `Base64Groups.GroupExactly` | utility/auth/jwt.go:228-230 | three bytes give four letters of the base64url alphabet, six bits each, most significant first |
| `Base64Groups.LastGroupExactly` | utility/auth/jwt.go:228-230 | the last one or two bytes give two or three letters, their missing bits zero |
| `Jwt.TokenRoundTrip` | utility/auth/jwt.go:178-226 | every issued token decodes under its secret to the claims it was made for, given the JSON round trip |
| `Jwt.AcceptedExactly` | utility/auth/jwt.go:200-226 | a token is accepted with given claims exactly when it is a header, a payload that decodes to them, and the signature the secret gives to both |
| `Jwt.OtherSecretExactly` | utility/auth/jwt.go:206-213 | another secret accepts an issued token exactly when its digest of the signing input is the same |
| `Jwt.TokenParts` | utility/auth/jwt.go:201-204 | a token made of parts without dots is split into these parts |
| `Belief.HistoryReplays` | internal/ai/belief/fsm.go:38-109 | in every run, replaying the history from drilling at level one ends in the current state and level |
| `Belief.ReplayChains` | internal/ai/belief/fsm.go:72-82 | each transition starts in the state and level where the one before ended |
| `Belief.LevelsStayOpen` | internal/ai/belief/fsm.go:84-105 | the level stays at least one and every level down to it has a step count |
| `Belief.BacktrackFindsLevel` | internal/ai/belief/fsm.go:98-102 | backtracking never meets a level without a step count: that branch is unreachable |
| `Belief.StepsConserved` | internal/ai/belief/fsm.go:38-88 | every step ticked is counted for a level or was forgotten by a descent that started the level anew |
| `Belief.LevelsWithinTotal` | internal/ai/belief/fsm.go:38-88 | with steps that only move forward the levels together never count more than the total |
| `Belief.DecideIgnoresOrder` | internal/ai/belief/fsm.go:43-66 | the decision is the same however the maps of nodes and edges are visited |
| `Belief.ReportsGapExactly` | internal/ai/belief/fsm.go:53-59 | a report on the gap is made exactly when some candidate leads all others by it and has enough support |
| `BeliefDecisions.DecidesExactly` | internal/ai/belief/fsm.go:43-66 | in every run, over nodes, edges and operations: done once done, no candidates without an active hypothesis on the level, a gap report if one leads the others with enough support, else a step report if the steps ticked since the level was opened reach the limit, else continue; each exactly then |
| `BeliefDecisions.GapIsLargest` | internal/ai/belief/fsm.go:53-59 | a gap report tells the largest lead of the leading node, and the number of active edges that support it |
| `BeliefDecisions.MachineFollows` | internal/ai/belief/fsm.go:38-105 | state, level and step counts are those the operations amount to: a descent opens a level from zero, backtracking keeps its steps |
| `BeliefDecisions.BacktracksExactly` | internal/ai/belief/fsm.go:91-105 | backtracking succeeds exactly while drilling and to an earlier level, and is then recorded; else nothing changes |
| `Belief.BeliefFsm.TickStep` | internal/ai/belief/fsm.go:38-41 | adds the steps to the level and the total: the object is the machine after one more operation |
| `Belief.BeliefFsm.TransitionTo` | internal/ai/belief/fsm.go:68-82 | records the transition: the object is the machine after one more operation |
| `Belief.BeliefFsm.DrillDown` | internal/ai/belief/fsm.go:84-89 | opens the next level from zero: the object is the machine after one more operation |
| `Belief.BeliefFsm.BacktrackTo` | internal/ai/belief/fsm.go:91-105 | succeeds exactly while drilling and to an earlier level, and otherwise changes nothing |
| `Belief.BeliefFsm.Decide` | internal/ai/belief/fsm.go:43-66 | the loops over nodes and edges compute the specified decision |
| `AlertGroups.ProperExactly` | internal/ai/alertcorrelation/engine.go:80-117 | a list of groups concatenates to the alerts, is connected and tight, and a window apart, if and only if it is the computed one |
| `AlertGroups.GroupingIsProper` | internal/ai/alertcorrelation/engine.go:80-117 | on alerts in time order the groups are not empty, partition them in order, and each starts at least a window after the end of the one before |
| `AlertGroups.AlertInWindow` | internal/ai/alertcorrelation/engine.go:88-101 | every alert lies between the start and the end of its group |
| `AlertGroups.TiesDoNotMatter` | internal/ai/alertcorrelation/engine.go:45-47 | boundaries and sizes depend on the times alone, so not on how a sort orders simultaneous alerts |
| `AlertGroups.GroupByTimeWindow` | internal/ai/alertcorrelation/engine.go:80-117 | the loop with its current group computes the specified groups |

## Left out

- Floating point: tokens, scores and confidences are exact; the token bucket is scaled to integers (refill is elapsed time times rate, a token costs a window), the rest are real numbers.
- Digests, message authentication codes and JSON: uninterpreted functions; `Jwt` states the JSON round trip as a hypothesis, `FunnelCache` states that the classifier depends on the cache key only, `RouteCache` and `LeaderElection` take keys and instance names to be distinct.
- Redis: only the key, sorted set, script and expiry behaviour the code uses. A key is taken to be gone at its deadline; connection errors and error logging are not modelled.
- SlidingWindow.RedisRateLimiter.Remaining: the method takes its two Redis commands as one step; calls between them are the subject of `CountedIsRemaining`.
- LeaderElection: watcher ticks are served promptly, and GETs and SETs are answered within times that are parameters; error replies of Redis and the leader task itself are not modelled.
- LeaseRenewal: scheduling delays of the loop itself are part of the calls; a script that runs after its call has timed out is not part of this model (`LeaderElection` lets renew scripts run at any time).
- SessionLocks: the time of entering and leaving the critical section is free; the chat work done inside it is not modelled.
- Resilience.Execute: the attempts, the waiting and the context are given as functions of the attempt; other callers' operations between its own are covered by the log lemmas, not by this method.
- Letters: lower-casing is for ASCII letters only; white space is that of each language.
- Funnel: each request reads the clock once; traces, latencies and reason texts are dropped or reduced to an enumeration; removing a code fence around the reply and decoding JSON are part of the classifier. A nil map of entities is an empty one. A result holds the entities as a value, not as the map shared with the output.
- FunnelApp.AgentRouterApp.DecideIntentFunnel: one request at a time on the heap; requests that overlap are modelled on values, in `FunnelConcurrency`.
- RouteCache: the automatic mode only; the manual modes, normalising the strategy name and the switch to the funnel add easy cases. Keys are tuples instead of digests.
- SseClients.Send: after an event that ends the stream, what is left in the buffer, and is flushed, depends on the chunks. Decoding UTF-8 across chunks and rendering are left out.
- Base64Url: characters stand for bytes in the encoded text; the decoder ignores bits left over in the last digit, as the original does, and nothing is claimed about text that no encoder wrote.
- Jwt: checking expiry, revocation and roles after decoding is left out; the JOSE header is encoded and never read, as in the original.
- Fingerprint: names on a Unix system; listing the files of the repository is not part of this model.
- MetricSelection: signals have only the fields the selection looks at, so which of two signals equal in all of them is kept is not captured.
- Holdout: the date of a case and whether a text is a date are given; reading and writing the files, and the counts and hashes written beside the ids, are left out.
- Belief: a graph is given as its maps are visited; the text of a reason and the scoring of hypotheses are left out. Step identifiers are numbers.
- AlertGroups: inferring services, propagation chains and the ranking of root causes are left out: they are look-ups over a topology that is not given, and the ranking keeps ties in map order.
