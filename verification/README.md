# Verified model of the inference service

A Dafny model of an asyncio service that admits, routes, prices, queues and bills requests
for language-model generations, with proofs of what it promises about money, capacity and
answers.  Every statement quantifies over all inputs, all runs or all interleavings of the
model; nothing here is executed.

`dafny verify dfyconfig.toml` checks the project.

## How it is laid out

Each component that changes state in place is a `class` whose methods are tied by their
`ensures` to a step function on values; the promises are proved about runs of that step
function.

| modules | component |
|---|---|
| `LedgerModel`, `LedgerRefinement`, `LedgerBounds`, `LedgerMemory` | the rolling-window spend ledger, its never-forgetting reference, its spend bounds, and the object |
| `RedisModel`, `RedisAgreement`, `RedisLedger` | the three Lua scripts on a scored set with key expiry, and their agreement with the in-process ledger |
| `GateModel`, `CapacityGate` | the resizable gate as a condition-variable protocol |
| `Router`, `Failover` | routing, and generation that moves on from sick backends |
| `Breaker` | the circuit breaker as a timed state machine, and the registry |
| `Autoscaler` | the replica controller with its cooldowns |
| `RateLimit`, `RedisRateLimit` | the token bucket, and the shared one whose key expires |
| `CacheModel`, `CacheRecency`, `InMemoryCache`, `SingleFlight` | the LRU + TTL cache, what it still has, and the sharing of concurrent identical work |
| `Metrics`, `Sums`, `Arithmetic` | the counters that balance against gate and ledger; counting, summing and rounding |
| `ServiceModel`, `ServiceInvariants`, `ServiceHistory` | the request lifecycle: any number of buffered and streamed requests, disconnects, detached billing tasks and autoscaler ticks interleaved; what every event keeps of the components and of each request's history |
| `ServiceTheorems`, `ServiceBilling`, `ServiceGauge`, `ServiceAnswers`, `ServiceProgress` | what holds over whole runs: the joint invariant, conservation and caps; bills; the in-flight gauge; where answers came from; that no run gets stuck |
| `Service` | the service object over the component objects |

`ServiceModel.Step` takes one event: one stretch of code between two suspension points
(a lock body, a metrics call, a provider reply, a stream step).  `ServiceTheorems.Inv` is one
invariant over gate, ledger, metrics, cache, prices, bills and every request's position and
history; it holds after every finite sequence of events.  The history says what the provider
streamed for a request, which deltas its caller got, and what served it; it is taken from the
provider's replies and chunks, not from what the request carries along.
`Service.InferenceService` runs the same stretches on the component objects and is proved to
take exactly those steps, and `Service.RunGivesPreconditions` shows that what its methods ask
for always holds in a run.

Where a result speaks of a price, a routing answer, a budget, a load or a breaker's answer, it
is stated over the catalog's prices, the records and holds, the requests and the calls
themselves.  Automatic induction is off for every lemma it would apply to.

Dollars, tokens, seconds and prices are `real`.  Amounts in Redis are integers in units of
1e-10 USD, as its `%.10f` text is.  The clock, unique ids, a provider's replies, chunks and
faults, and whether the cache raises are arbitrary inputs.

## What the proofs found

- **A failed cache store skews the in-flight gauge.**  In the buffered path an answer is
  settled and reported before it is stored in the cache.  If the store raises, the exception
  handler reports the request a second time (app/service.py:392-421).  The ledger is right in
  every case, since releasing a settled reservation does nothing.  The gauge never exceeds the
  requests in flight and is zero whenever nothing is left (`GaugeNeverExceeds`,
  `QuiescentIsBalanced`), but it can read too low: it is exact throughout a run if and only if
  every second report happens with nobody in flight (`GaugeExactCondition`), and wherever
  answers are cached and two requests fit through the gate some run makes it wrong
  (`GaugeCanGoWrong`).  With a cache that never raises it is always exact (`GaugeIsExact`).
  Neither cache in the repository raises from `set` (app/cache.py:111-118, 175-183), so it
  takes an injected one.
- **The two ledgers read differently at one instant.**  Redis removes entries with a score
  at or below `now - W`; the in-process ledger keeps entries at exactly `now - W`.  On runs of
  exactly represented amounts, every answer agrees if and only if the ledger is never read
  while it holds money of that age (`RedisAnswersAlike`), and all reservations are decided
  alike if and only if at none of them that money flips the decision
  (`DecisionsAgreeCondition`).  Until the first flip the readings differ by exactly that money
  (`NextReadDiffersByBoundary`), and differ they can (`BoundaryExample`).
- **The shared rate limiter agrees with the in-process one exactly when a full refill fits
  into the key's lifetime** (`AgreementCondition`).  The lifetime the code computes is long
  enough for every rate from 0.001 tokens per second up (`TtlCoversRefill`).
- **Half-open never hands out a second probe.**  In every run a half-open breaker has its
  probe taken, so the branch granting one there (app/breaker.py:83-86) never fires
  (`ModeFromCalls`).
- **Passing a wake-up on matters.**  If a woken waiter that times out were dropped silently, a
  free slot could stay beside a sleeper forever (`SilentDropLosesWakeup`): nothing is lost if
  and only if nobody sleeps or there is a wake-up to spare (`SilentDropCondition`).

## Model

| member | source | states |
|---|---|---|
| `LedgerRefinement.PruningIsInvisible` | app/cost/memory.py:31-94 | on every run with a clock that never goes back, the lazily pruned ledger gives the `spent` readings and grant/deny answers of one that never forgets an entry, and closes the same reservations |
| `LedgerRefinement.LiveDrop` | app/cost/memory.py:55-60 | removing a reservation's entry commutes with pruning, so a settle or release does not care whether its hold was already pruned |
| `LedgerRefinement.StepKeepsInv` | app/cost/memory.py:31-94 | every ledger call keeps entry ids unique and tied to reservations that were handed out |
| `LedgerBounds.SpentIsSettledPlusHeld` | app/cost/memory.py:35-39 | at any time `spent` is the cost on the usage records inside the window plus the open holds taken inside it |
| `LedgerBounds.EveryReservationClosedOnce` | app/cost/memory.py:62-94 | however often settle and release are called, a reservation is charged or refunded at most once |
| `LedgerBounds.ClosingKeepsBalance` | app/cost/memory.py:62-94 | a settle takes the open hold out and puts the charge in its place, a release only takes it out: the books stay balanced from every window start on |
| `LedgerBounds.ReserveKeepsExposure` | app/cost/memory.py:41-53 | a granted hold keeps covered charges plus open holds within the limit and its slack |
| `LedgerBounds.ReserveIsBudgeted` | app/cost/memory.py:41-53 | a reservation is granted if and only if recorded cost plus open holds in the window plus the amount is at most the limit plus 1e-9, and that use is what is reported |
| `LedgerBounds.WindowSpendBound` | app/cost/memory.py:31-94 | for every window of every run, the cost on the usage records stamped inside it is at most the largest limit plus 1e-9 plus the charges' overruns beyond live holds |
| `LedgerBounds.WindowSpendCap` | app/cost/memory.py:31-94 | when every charge in the window costs at most its hold and was settled within the window of it, the cap is the limit plus 1e-9 |
| `LedgerBounds.RecordsAreCharges` | app/cost/memory.py:62-87 | in every run the usage records are, in order, the charges that took effect, each under its reservation's user |
| `LedgerMemory.Ledger.Prune` | app/cost/memory.py:31-33 | the scan keeps exactly the entries no older than the cutoff, in order |
| `LedgerMemory.Ledger.Spent` | app/cost/memory.py:35-39 | prunes the user's list and answers its total |
| `LedgerMemory.Ledger.Reserve` | app/cost/memory.py:41-53 | grants exactly when the window total plus the amount is within limit plus slack; the new state is that of the ledger step |
| `LedgerMemory.Ledger.DropEntry` | app/cost/memory.py:55-60 | the loop removes the first entry with the id and leaves the rest in order |
| `LedgerMemory.Ledger.Settle` | app/cost/memory.py:62-87 | replaces the hold by the charge stamped now, records the usage and closes the reservation; nothing when already closed |
| `LedgerMemory.Ledger.Release` | app/cost/memory.py:89-94 | removes the hold and closes the reservation; nothing when already closed |
| `LedgerMemory.Ledger.Summary` | app/cost/memory.py:100-105 | maps exactly the users with records to their total settled cost |
| `RedisAgreement.RedisAnswersAlike` | app/cost/redis_ledger.py:45-116 | on every legal run of exactly represented amounts, the scripts give all answers of the in-process ledger, amounts included, if and only if it is never read while it holds money of age exactly the window; key expiry included |
| `RedisAgreement.DecisionsAgreeCondition` | app/cost/redis_ledger.py:53-67 | on every such run all reservations are decided alike if and only if at none of them that money flips the decision |
| `RedisAgreement.SameGrantsAndClosings` | app/cost/redis_ledger.py:45-116 | while all reservations are decided alike, both ledgers granted the same ones and closed the same ones |
| `RedisAgreement.NextReadDiffersByBoundary` | app/cost/redis_ledger.py:184-195 | as long as no reservation was flipped, and whatever was read before, the in-process reading exceeds the Redis reading by exactly the money of age exactly the window |
| `RedisAgreement.NextReserveDiffersByBoundary` | app/cost/redis_ledger.py:53-67 | as long as no reservation was flipped, the next one is decided alike if and only if that money does not flip it |
| `RedisAgreement.ReadsDifferByBoundary` | app/cost/redis_ledger.py:45-72 | the same for one call, on any key linked to any list |
| `RedisAgreement.ExpiryHidesNothing` | app/cost/redis_ledger.py:69-71 | in every run with a clock that never goes back, an expiry of ceil(W) + 60 outlives the window of each member, so it never hides one still inside |
| `RedisAgreement.NextKeyKeepsLink` | app/cost/redis_ledger.py:45-116 | every script keeps the set of "id:amount" members equal to the in-process entries inside the window |
| `RedisAgreement.BoundaryExample` | app/cost/redis_ledger.py:53-53 | after one reservation at time 0, at exactly one window later the in-process ledger still reads it and Redis does not |
| `RedisLedger.RedisLedger.Spent` | app/cost/redis_ledger.py:184-195 | drops the aged members and answers the total of the rest |
| `RedisLedger.RedisLedger.ReserveScript` | app/cost/redis_ledger.py:45-72 | decides on the running total of the members kept and adds the hold with a new expiry only when it fits |
| `RedisLedger.RedisLedger.SettleScript` | app/cost/redis_ledger.py:77-101 | replaces the reservation's member by the charge, scored now; nothing when already closed |
| `RedisLedger.RedisLedger.ReleaseScript` | app/cost/redis_ledger.py:104-116 | removes the reservation's member; nothing when already closed |
| `RedisLedger.RedisLedger.SumMembers` | app/cost/redis_ledger.py:298-311 | the running total over the members, in whatever order they come, is the total of the set |
| `RedisLedger.RedisLedger.RemoveId` | app/cost/redis_ledger.py:85-94 | scanning for the first member with the id removes all there is of it |
| `GateModel.NoLostWakeup` | app/gate.py:39-63 | in every reachable state woken waiters number at least the free slots or nobody sleeps, through barging, shrinking, growing, re-parking and time-outs; each waiter is queued at most once |
| `GateModel.StepKeepsInv` | app/gate.py:39-63 | each critical section keeps that, and moves exactly the one waiter it should into or out of the queue |
| `GateModel.AdmitsIfRoom` | app/gate.py:39-49 | a newcomer or a woken waiter gets in if and only if the slots in use are fewer than the capacity, and nothing else takes one |
| `GateModel.WakesLongestAsleep` | app/gate.py:51-63 | a release or a growth wakes the longest sleepers, in order |
| `GateModel.SleepsBehind` | app/gate.py:43-46 | whoever finds no room sleeps behind the others, a woken waiter too |
| `GateModel.DrainFillsCapacity` | app/gate.py:39-49 | once the woken waiters have run, capacity is used up or nobody waits, and nobody is lost |
| `GateModel.EnoughCapacityAdmitsAll` | app/gate.py:56-63 | with capacity for everybody in service or waiting nobody sleeps, and all waiters get in without a release |
| `GateModel.SilentDropCondition` | app/gate.py:45-49 | dropping a woken waiter without passing its wake-up on loses nothing if and only if nobody sleeps or there is a wake-up to spare |
| `GateModel.SilentDropLosesWakeup` | app/gate.py:45-49 | a run in which such a drop leaves a free slot beside a sleeper |
| `CapacityGate.CapacityGate.constructor` | app/gate.py:21-25 | starts empty with capacity at least one |
| `CapacityGate.CapacityGate.Enter` | app/gate.py:39-44 | takes a slot when there is room, else joins the sleepers and the waiting count |
| `CapacityGate.CapacityGate.Resume` | app/gate.py:45-49 | a woken waiter takes a slot when there is room, else sleeps again; the waiting count stays the queue length |
| `CapacityGate.CapacityGate.Timeout` | app/gate.py:45-49 | a waiter that gives up leaves the queue and the count, and passes an unused wake-up on |
| `CapacityGate.CapacityGate.Release` | app/gate.py:51-54 | frees a slot and wakes the longest sleeper |
| `CapacityGate.CapacityGate.Resize` | app/gate.py:56-63 | sets the capacity and, when it grew, wakes as many sleepers as it has slots |
| `CapacityGate.CapacityGate.Wake` | app/gate.py:51-63 | wakes up to n sleepers, longest asleep first, losing nobody |
| `Router.RouteIsJustified` | app/router.py:131-185 | an unpinned answer is returned if and only if its condition on the catalog holds: cheapest capable model, cheapest cheaper model that fits, or the precise error |
| `Router.RouteIsMeant` | app/router.py:69-185 | every routing answer in terms of the catalog's own prices, tiers and context windows: who is tried first, who may stand in, what is charged, and which error it is |
| `Router.CostIsPerThousand` | app/config.py:63-68 | 1000 times a cost is the tokens in at the input price plus the tokens out at the output price |
| `Router.CostByUnits` | app/config.py:63-68 | a thousand tokens cost their price, and costs add up |
| `Router.PinIsJustified` | app/router.py:111-129 | a pinned answer is returned if and only if its condition on the last catalog entry of that name holds; the pin is never replaced |
| `Router.DowngradeIsBelowTier` | app/router.py:155-178 | a downgraded request gets an available model strictly below the task's tier |
| `Router.RoutedIsLegal` | app/router.py:69-185 | any routed model is in the catalog, not excluded, within budget and inside its context window |
| `Router.HeadIsCheapest` | app/router.py:55-66 | the head of the price list is the first of the nominally cheapest models |
| `Router.SortFilter` | app/router.py:55-66 | filtering and stable sorting by price commute, so scanning the whole price list finds the cheapest of the eligible ones |
| `Router.RouteRequest` | app/router.py:69-185 | the scan with its early exits computes the routing answer |
| `Failover.GenerateWithFailover` | app/service.py:287-341 | the loop ends; its attempts form one failover chain of routing answers, its result is the last attempt's, and the breakers are told of successes and server faults only |
| `Failover.MoveOn` | app/service.py:269-285 | re-routes with the tried models excluded; what it finds is in the catalog and was not tried |
| `Failover.ChainNeverRepeats` | app/service.py:302-341 | no model name is tried twice, and every model moved to is within budget and context |
| `Failover.ChainIsBounded` | app/service.py:302-341 | at most one attempt per catalog name, and a single attempt when pinned or without fallback |
| `Failover.ChainMeans` | app/service.py:302-341 | only refusals and server faults are passed over; pinned or without fallback there is one attempt; each later model is routed without the pin and without the names tried; the last reply is the result, and giving up on a sick backend means routing had no answer left |
| `Breaker.ModeFromCalls` | app/breaker.py:71-118 | for any order of calls, closed if and only if fewer failures than the threshold were reported since the last success; half-open always has its probe taken |
| `Breaker.AnswerFromCalls` | app/breaker.py:71-87 | for any order of calls, a caller is let through if and only if fewer failures than the threshold were reported since the last success, or the last failure is at least the recovery timeout old and nobody was let through since |
| `Breaker.AfterProbe` | app/breaker.py:71-118 | after a probe and until a success, the probe is still out or the breaker re-opened no earlier than it |
| `Breaker.ProbesAreApart` | app/breaker.py:71-87 | two probes with no success between are at least the recovery timeout apart, late reports included |
| `Breaker.ProbeRate` | app/breaker.py:71-118 | a success-free stretch of length T sees at most 1 + T / recovery probes |
| `Breaker.CircuitBreaker.Allows` | app/breaker.py:71-87 | admits when closed or when the probe is due, and takes the probe |
| `Breaker.CircuitBreaker.RetryAfter` | app/breaker.py:94-98 | zero exactly when closed or due, and after waiting it a retry is due |
| `Breaker.CircuitBreaker.RecordSuccess` | app/breaker.py:100-103 | closes and forgets the failures |
| `Breaker.CircuitBreaker.RecordFailure` | app/breaker.py:105-113 | counts the failure and opens at the threshold or from half-open |
| `Breaker.CircuitBreaker.TripNow` | app/breaker.py:115-118 | opens now with no probe taken |
| `Breaker.BreakerRegistry.Get` | app/breaker.py:140-150 | one breaker object per backend, the same one at every later call, fresh and closed at the first |
| `Autoscaler.NeededIsExact` | app/autoscaler.py:59-63 | the ceil/floor arithmetic gives the least number of replicas whose slots cover the load |
| `Autoscaler.StepIsExact` | app/autoscaler.py:65-109 | with r the fewest replicas that cover the load, within the bounds, a step goes to exactly r once the cooldown of that direction has passed and nowhere before, and stamps only that direction |
| `Autoscaler.CapacityIsFloor` | app/service.py:144-145 | the slots of a number of replicas are the whole ones they make, and at least one |
| `Autoscaler.StepServesLoad` | app/autoscaler.py:65-109 | once the up cooldown has passed, the slots cover every load within the maximum |
| `Autoscaler.SameDirectionIsApart` | app/autoscaler.py:65-103 | any two scale-ups of a run are at least the up cooldown apart, any two scale-downs the down cooldown |
| `Autoscaler.ReplicasStayInBounds` | app/autoscaler.py:59-103 | the replica count never leaves its minimum and maximum |
| `Autoscaler.StartsAtMinimum` | app/autoscaler.py:48-54 | the controller starts at the minimum with no change stamped |
| `Autoscaler.Autoscaler.ApplyDecision` | app/autoscaler.py:94-103 | applies a change and stamps its direction only |
| `Autoscaler.Autoscaler.Step` | app/autoscaler.py:105-109 | decides and applies; once the up cooldown has passed every load within the maximum is served |
| `RateLimit.BucketIsExact` | app/ratelimit.py:50-71 | a check is admitted if and only if, counted from itself and from every earlier check, admitted cost plus its own stays within capacity plus refill |
| `RateLimit.RefillIsRate` | app/ratelimit.py:54-55 | a refill is the rate for every second |
| `RateLimit.IntervalBound` | app/ratelimit.py:50-71 | in any interval at most capacity plus rate times length is admitted |
| `RateLimit.RejectionsAreInvisible` | app/ratelimit.py:57-71 | deleting all rejected checks leaves every other decision and every later level unchanged |
| `RateLimit.RetryIsExact` | app/ratelimit.py:61-69 | after a rejection within capacity and no admission since, a retry succeeds if and only if at least the announced wait has passed |
| `RateLimit.TokenBucketLimiter.Current` | app/ratelimit.py:50-55 | the lazily refilled level, capped |
| `RateLimit.TokenBucketLimiter.CheckNow` | app/ratelimit.py:57-71 | consumes or refuses with the deficit over the rate; other users' buckets are untouched |
| `RedisRateLimit.Consume` | app/ratelimit.py:85-112 | the script decides and stores like the in-process bucket does on what the key still holds |
| `RedisRateLimit.AgreementCondition` | app/ratelimit.py:85-112 | the shared and the in-process limiter decide alike on every trace if and only if rate times ttl is at least the capacity |
| `RedisRateLimit.TtlCoversRefill` | app/ratelimit.py:160-160 | the ttl the code computes meets that condition for every rate of at least 0.001, and is at most a minute or twice a full refill |
| `RedisRateLimit.ExpiryOverAdmits` | app/ratelimit.py:85-112 | a shorter ttl admits a full capacity too early on a two-check trace |
| `CacheModel.LargerCacheNeverLosesAHit` | app/cache.py:96-118 | on one trace, the smaller cache's items are a subsequence of the larger's and every hit in the smaller is the same hit in the larger |
| `CacheModel.HitIsLatestSet` | app/cache.py:96-118 | a hit is the unexpired entry of the latest effective set of that key |
| `CacheRecency.RecentIsAHit` | app/cache.py:96-118 | an unexpired key is still a hit, with what was stored last, as long as there were never as many other keys called for since its latest use as the cache holds; and it never holds more |
| `CacheRecency.StoredUntilExpiry` | app/cache.py:96-118 | what was just stored is a hit until it expires and no longer; with a ttl of zero or less nothing is stored |
| `InMemoryCache.InMemoryCache.Get` | app/cache.py:96-109 | answers and touches, or deletes the expired entry, and counts one hit or one miss |
| `InMemoryCache.InMemoryCache.Set` | app/cache.py:111-118 | stores as most recent, evicting from the other end; nothing for a ttl of zero or less |
| `InMemoryCache.InMemoryCache.EvictOldest` | app/cache.py:117-118 | the loop drops least recently used items until the limit holds, and no more |
| `SingleFlight.OneRunPerKey` | app/cache.py:208-218 | in every interleaving with cancellations a key has at most one unfinished run |
| `SingleFlight.InflightIsLeaders` | app/cache.py:208-218 | the map holds exactly the keys whose leader has not left |
| `SingleFlight.LeaderRemovesOwnEntry` | app/cache.py:214-218 | a departing leader removes its own entry and nothing else, once its work has ended |
| `SingleFlight.CallJoinsOrLeads` | app/cache.py:208-216 | a caller joins the run of its key while the leader is inside, and otherwise starts the one new run and leads it |
| `SingleFlight.CancelTouchesOneCaller` | app/cache.py:197-210 | a cancelled follower leaves alone: the shared run, the map and all other callers stay; a cancelled leader leaves its run to end |
| `SingleFlight.LeaveTakesOutcome` | app/cache.py:209-218 | a caller whose run has ended leaves with its outcome and disturbs nobody |
| `SingleFlight.CancelledByEvent` | app/cache.py:197-210 | only a caller that was cancelled counts as cancelled, so every other that left got the run's outcome |
| `SingleFlight.EveryoneGetsTheOneOutcome` | app/cache.py:208-218 | callers that joined one run and left uncancelled all got that run's outcome |
| `Metrics.Metrics.RequestStarted` | app/metrics.py:35-38 | one more request, one more in flight |
| `Metrics.Metrics.RequestFinished` | app/metrics.py:40-49 | adds tokens and cost, and one fewer in flight, never below zero |
| `Metrics.Metrics.CacheHit` | app/metrics.py:59-62 | a hit counts as a hit and as a request, and starts nothing |
| `ServiceInvariants.ActKeepsSlots` | app/service.py:207-219 | only admission and the gate release change who holds a slot, so slots in use stay the requests between the two |
| `ServiceInvariants.ActKeepsQueue` | app/service.py:207-219 | the gate's queue stays exactly the requests waiting for admission |
| `ServiceInvariants.ActKeepsLedger` | app/service.py:192-219 | ledger and request agree on whether the hold was never taken, is open, was charged or was refunded |
| `ServiceInvariants.ActKeepsGauge` | app/service.py:372-421 | the gauge keeps within zero and the requests in flight, and keeps counting them until one is reported twice |
| `ServiceInvariants.ActKeepsMoney` | app/service.py:382-397 | cost and tokens in the metrics plus what is settled but untold stay the totals of the usage records, with one record per charged request and one counted hit per cached answer |
| `ServiceInvariants.ActKeepsPriced` | app/service.py:162-175 | requests keep running on the model routing answered, at its projected cost, within budget and context, and are served by catalog models |
| `ServiceHistory.ActKeepsHistories` | app/service.py:464-545 | each request stays in step with its history: what a stream delivered is what the provider produced, and what is settled and returned is what served it |
| `ServiceHistory.ActKeepsBills` | app/service.py:382-391 | every charge stays the bill of what served its request: that model's name, the tokens reported, and its price for them |
| `ServiceHistory.ActKeepsAnswersSound` | app/service.py:245-265 | every cached text, and every text on its way to the cache or a caller, is one completed generation's full text for that key |
| `ServiceTheorems.StepKeepsInv` | app/service.py:345-647 | every event of the lifecycle keeps the joint invariant |
| `ServiceTheorems.RunKeepsInv` | app/service.py:345-647 | the joint invariant holds after every sequence of events |
| `ServiceTheorems.EveryExitClosesOnce` | app/service.py:345-630 | every request that ended charged or refunded its reservation exactly once, or never took one |
| `ServiceTheorems.QuiescentIsBalanced` | app/service.py:345-630 | with no request or detached task left no slot is held, nobody waits, no hold is open, the gauge is zero and every settled dollar and token is in the metrics, whatever the cache did |
| `ServiceTheorems.AdmissionsFit` | app/service.py:207-219 | in every run a request that comes for a slot, or is woken to, gets one if and only if the requests holding one are fewer than the capacity; nothing else gives a request a slot |
| `ServiceTheorems.ServiceRunsLedger` | app/service.py:192-219 | the service drives its ledger by a legal run with a clock that never goes back |
| `ServiceTheorems.RequestIsBudgeted` | app/service.py:192-205 | a request that comes with limit x is held if and only if its projected cost fits beside its user's recorded cost and open holds in the window under x plus 1e-9; otherwise it ends unbilled |
| `ServiceTheorems.ServiceSpentIsExact` | app/cost/memory.py:35-39 | at any moment of any run a user's `spent` is the cost on the usage records plus the open holds inside the window |
| `ServiceTheorems.ServiceSpendIsCapped` | app/service.py:192-205 | whatever interleaving ran, the cost on a user's usage records inside any window is at most the largest limit the user's requests came with, the slack and the overruns |
| `ServiceBilling.RequestsAreRouted` | app/service.py:162-175 | every request runs on a model the catalog means for it, and what is held is that model's price for the projected tokens |
| `ServiceBilling.ChargedIsBilledOnce` | app/service.py:382-391 | every charged request has exactly one closing, a charge of its hold, with one usage record carrying the serving model's name, the tokens it reported and, per thousand in and out, its prices |
| `ServiceBilling.StreamIsBilled` | app/service.py:473-492 | a finalized stream was served by the routed model with the text of its chunks and the usage they reported last, or else the projected input and the estimate for that text |
| `ServiceBilling.EstimateIsNearest` | app/tokens.py:25-38 | without a tokenizer, the estimate is the nearest whole number to the length over the setting, the even one of two, and at least one unless the text is empty |
| `ServiceBilling.RequestsAreCounted` | app/metrics.py:35-62 | the request counter is the number of requests started or answered from the cache |
| `ServiceBilling.NobodyShedWithoutDeadline` | app/service.py:207-213 | without an admission deadline nobody is shed |
| `ServiceBilling.MoneyIsConserved` | app/cost/memory.py:100-105 | at quiescence the per-user summary adds up to the cost in the metrics, so do the tokens, with one record per charged request, each billed as above |
| `ServiceBilling.BillingIsEarned` | app/service.py:345-423 | a request is charged if and only if something served it and unbilled if and only if it took no reservation; a cached answer is unbilled, any other answer charged |
| `ServiceBilling.ServedByEvent` | app/service.py:473-492 | what served a request is what an event of the run completed for it: a generation that returned, or a stream that was finalized |
| `ServiceBilling.CompletedIsCharged` | app/service.py:600-626 | a generation that returned and a stream that was finalized, disconnected or broken included, end charged |
| `ServiceBilling.ShedOrFailedIsRefunded` | app/service.py:207-219 | a request that was shed or whose generation failed ends refunded, without an answer |
| `ServiceBilling.SummaryAddsUp` | app/cost/memory.py:100-105 | the per-user totals over all users are the total of the records |
| `ServiceGauge.GaugeNeverExceeds` | app/metrics.py:35-49 | in every run, raising caches included, the in-flight gauge is between zero and the requests in flight |
| `ServiceGauge.GaugeExactCondition` | app/service.py:392-421 | the gauge is exact throughout a run if and only if every second report happens with nobody in flight |
| `ServiceGauge.GaugeCanGoWrong` | app/service.py:392-421 | wherever answers are cached, two requests fit through the gate and a query can be routed, some run from the start makes the gauge wrong |
| `ServiceGauge.GaugeIsExact` | app/metrics.py:35-49 | with a cache that never raises the in-flight gauge is exact throughout every run |
| `ServiceGauge.SecondReportSkewsGauge` | app/service.py:416-421 | from an exact gauge, reporting a settled request again leaves it right if and only if no request is in flight |
| `ServiceGauge.ClampsNeverBind` | app/gate.py:51-54 | in every run a slot is held whenever one is released; and while second reports are harmless, one is in flight whenever a request is first reported finished: neither `max(0, ...)` binds |
| `ServiceAnswers.AnswersAreSound` | app/service.py:177-190 | every answer handed out, cached or not, and every cache entry is the full text of a completed generation for the same prompt, output ceiling and attributed model; the deltas of a stream concatenate to its chunks and to the text it was served with |
| `ServiceAnswers.GenerationsWereCompleted` | app/service.py:506-517 | a generation on record was completed by some event of the run: a buffered call that returned or a stream that ended, never a truncated or failed one |
| `ServiceAnswers.ChunksAreDelivered` | app/service.py:506-515 | the chunks a stream is billed by and checked against are those delivered for it, in order |
| `ServiceAnswers.HitIsOriginal` | app/service.py:547-579 | a cached answer, its usage, and the deltas of its replay put together, are what an event of the run produced in completing a generation, by the model it is attributed to, for a request with the same prompt and output ceiling |
| `ServiceAnswers.KeyIsInjective` | app/cache.py:46-70 | a key stands for the model, the prompt and the output ceiling and for nothing else |
| `ServiceAnswers.StoredIsFound` | app/service.py:177-190 | a stored answer is found by a request routed to the model that gave it, with the same prompt and output ceiling, until it expires and no longer |
| `ServiceAnswers.CacheIsBounded` | app/cache.py:88-118 | in every run the cache holds at most as many answers as configured, or one |
| `ServiceTheorems.TickIsExact` | app/service.py:639-647 | a tick takes the replicas to the fewest that cover the requests holding a slot or waiting for one, within the bounds, once the cooldown of that direction has passed, and nowhere before |
| `ServiceTheorems.TickServesLoad` | app/service.py:639-647 | in any run, after a tick and its resize with anything in between, once the up cooldown has passed and within the maximum, the gate has room for all who held a slot or waited; if no more do by then, nobody sleeps and every waiter gets in without a release |
| `ServiceProgress.NeverStuck` | app/gate.py:39-63 | in every run, as long as some request has not ended, some action is possible that brings its request nearer to the end: when all that are left wait, one has been woken and has a slot |
| `ServiceProgress.DrainsToQuiescence` | app/service.py:345-630 | from every run, finitely many actions of the requests already there end them all, with no arrival, tick or time-out |
| `ServiceTheorems.CapacityFollowsReplicas` | app/service.py:144-145 | between ticks the gate is sized for the current replicas |
| `Service.InferenceService.constructor` | app/service.py:106-142 | starts every component empty and the gate sized for the minimum replicas |
| `Service.InferenceService.Arrive` | app/service.py:162-175 | a routable request enters with its model and projected cost; others leave no trace |
| `Service.InferenceService.FindAnswer` | app/service.py:177-190 | reads the cache under the routed model's key and counts a hit |
| `Service.InferenceService.LookupCache` | app/service.py:177-190 | a hit ends the request unbilled with the cached text and its model, replayed to a streamed caller |
| `Service.InferenceService.TakeHold` | app/service.py:192-205 | takes the ledger step of reserving the projected cost and keeps the reservation when granted |
| `Service.InferenceService.Reserve` | app/service.py:192-205 | holds the projected cost or ends the request unbilled |
| `Service.InferenceService.Acquire` | app/service.py:207-219 | admits at once or queues |
| `Service.InferenceService.Woken` | app/service.py:207-219 | a woken request is admitted or queues again |
| `Service.InferenceService.TimedOut` | app/service.py:207-219 | a request past its deadline leaves the queue, refund next |
| `Service.InferenceService.BeginService` | app/service.py:370-373 | an admitted request is started in the metrics |
| `Service.InferenceService.GenerateBuffered` | app/service.py:374-381 | runs the failover loop and keeps the serving model, text and usage, or fails |
| `Service.InferenceService.DeliverChunk` | app/service.py:506-515 | passes the chunk's text on and remembers the last reported usage |
| `Service.InferenceService.StreamFinished` | app/service.py:517-537 | marks the stream complete |
| `Service.InferenceService.StreamFaulted` | app/service.py:538-543 | a faulty stream stays incomplete |
| `Service.InferenceService.FinalizeStream` | app/service.py:473-492 | fixes the usage, reported or estimated from the text delivered, and keeps the text only of a complete stream |
| `Service.InferenceService.ChargeHold` | app/cost/memory.py:62-87 | takes the ledger step of settling the request's hold at the model's price for the usage |
| `Service.InferenceService.SettleGenerated` | app/service.py:382-391 | charges the serving model's price for the usage it reported |
| `Service.InferenceService.SettleDetached` | app/service.py:600-609 | the detached task charges the routed model's price for the stream's usage |
| `Service.InferenceService.ReleaseHold` | app/service.py:416-417 | refunds a shed or failed request; a settled one stays charged |
| `Service.InferenceService.ReportSettled` | app/service.py:392-397 | reports usage and cost of a settled request |
| `Service.InferenceService.ReportFailed` | app/service.py:416-421 | reports a failed request at no cost, even one already reported |
| `Service.InferenceService.ReportDetached` | app/service.py:619-625 | the detached task reports usage and cost |
| `Service.InferenceService.FileAnswer` | app/service.py:245-265 | stores a text under the key of the model that served it |
| `Service.InferenceService.StoreAnswer` | app/service.py:398-405 | files the answer under the model that served it; a raising cache fails the request |
| `Service.InferenceService.StoreStreamed` | app/service.py:612-618 | files a complete stream's text; a raising cache is only logged |
| `Service.InferenceService.LeaveGate` | app/service.py:422-423 | releases the slot |
| `Service.InferenceService.SampleAndStep` | app/service.py:639-644 | samples in-flight plus queued and steps the autoscaler |
| `Service.InferenceService.ResizeGate` | app/service.py:645-646 | resizes the gate for the new replica count |
| `Service.RunGivesPreconditions` | app/service.py:345-647 | in every reachable state the methods of the service may be called when their turn comes |

## Left out

- RedisAgreement.RedisAnswersAlike: amounts that the ten-digit text represents exactly, and no outage; rounding an amount to ten digits is not modelled.
- RedisAgreement.NextReadDiffersByBoundary: only until the first flipped reservation, from where the two ledgers hold different reservations and have no common run to compare.
- RedisLedger.RedisLedger.SettleScript: the closed flag and the script are one step; in the source the flag is set after the awaited script, so two overlapping closings of one reservation would both reach Redis. The usage hash is not modelled.
- RedisLedger.RedisLedger.ReleaseScript: the closed flag and the script are one step, as for SettleScript.
- RedisLedger.RedisLedger.Spent: the trim and the read are two commands in the source and one step here, so a script of another replica between them is not modelled.
- Router.RouteRequest: filtering and sorting are the specification's functions, only the scan is a loop.
- Failover.GenerateWithFailover: what the breaker answers at each attempt is arbitrary, since other requests move the breakers while an attempt waits; its reports to the breakers are returned, and the breakers' own behaviour is proved in Breaker.
- Service.InferenceService.GenerateBuffered: one step from the first attempt to the result, in which other requests do not move; nothing they could do changes the outcome, because the replies are arbitrary.
- Service.InferenceService.FinalizeStream: without a reported usage, the estimate is the one made without a tokenizer.
- Metrics.Metrics.RequestFinished: the downgraded counter is not modelled.
- GateModel.NoLostWakeup: a woken waiter that times out passes its wake-up on; library versions differ here, and SilentDropCondition says exactly when the other choice loses one.
- SingleFlight.OneRunPerKey: a state machine on values only, since suspended callers are not methods.
- ServiceTheorems.TickServesLoad: that nobody sleeps is claimed only when no more load is there at the resize than was sampled; nothing in the code bounds arrivals between the two.
- Cancellation of a buffered request, or of any request while queueing: `except Exception` does not catch it and the slot or hold is not covered by these handlers.
- Fairness: newcomers may pass woken waiters, and no waiting time is bounded.
- A probe that ends in a client error reports nothing, so no claim is made that half-open is always left.
- Breakers and the rate-limit check inside the lifecycle: attempts meet arbitrary replies there, and a refused check has no effect on anything modelled.
- Which routing error a caller gets says nothing about the rest of the catalog: the nominal primary is checked first.
- A concurrent coroutine is a sequence of events here, not one method; the service class has one method for each stretch between suspensions.
- Redis outages, fail-open and fail-closed branches, script reloading, corrupt members, the usage hash and the local record trimming.
- The Redis response cache, the HTTP providers, the web layer, schemas, factory and Prometheus text: I/O and wiring.
- Complexity scoring and the tokenizer: the tier and token counts are inputs; only the estimate without a tokenizer is modelled.
- Floating-point rounding, hashing and JSON: reals are exact, and a cache key is the tuple it hashes.
- Routing notes, log messages and the remaining counters (rejected, shed, misses, downgraded, failovers, queue depth).
- A characters-per-token setting of zero, by which the code would divide.
