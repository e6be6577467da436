# RateCap: verified model

RateCap limits and sheds load in four tiers. A request passes a shared token bucket
(Tier 1), a per-key concurrency cap with a bounded, polled backlog (Tier 2) and a
fleet-wide cap with a share reserved for critical traffic (Tier 3), all three in the core
and over one Redis; the sidecar in front of the core has a lock-free shedder of its own
(Tier 4), a local token bucket, a cache of denied keys and a hot-reloaded route set. This
project models that machinery and proves what it promises, for every input, every run and
every interleaving of any number of requests.

How it is put together:

- `TokenStore.dfy` is the sorted sets behind Tiers 2 and 3, with the Lua script, `ZREM`, key
  expiry, and calls that fail before or after they take effect. `Limits.dfy` holds the
  shared types and key spaces, `Config.dfy` the configuration checks.
- `ConcurrencyLimiter.dfy` and `FleetShedder.dfy` describe their tier twice: as an automaton
  that makes one store call at a time, and as a class in the source's own form. The
  class's `Check` is proved to do exactly what the automaton does. `SlotOutcomes.dfy` says what
  a Check decides without either, in terms of the leases still running. `Pipeline.dfy` does the same
  for the loop over the tiers.
- `Cluster.dfy` runs the automata of any number of requests on any number of replicas over one
  store, with reloads, admin calls, releases by clients, key expiry and lost replies.
  A run is any sequence of events, and an event that cannot happen changes nothing, so
  the theorems hold for every sequence. `ClusterLedger.dfy` keeps account of every token ever added;
  `ClusterConservation.dfy`, `ClusterBounds.dfy` and `ClusterShadow.dfy` draw the conclusions;
  `ClusterEffects.dfy` says what must come about: releases and reloads take hold, and requests
  finish. `ClusterRefinement.dfy` shows that a tier's Check in such a run is a run of its
  straight-line `Check`, and `ClusterPipeline.dfy` that a whole request is a run of the pipeline's loop.
  `QueueRuns.dfy` is one run in full.
- `RoundTrip.dfy` and `Headers.dfy` follow a reservation from the pipeline through the response
  headers and the client library back to its release; `TokenSigning.dfy` is the token format.
- `PollTiming.dfy`, `RateLimiter.dfy`, `LocalBucket.dfy`, `WorkerShedder.dfy`,
  `Histogram.dfy`, `NegativeCache.dfy` and `Debounce.dfy` model one component each;
  `DynamicRates.dfy` is Tier 1 under any rate, `BucketMirror.dfy` compares the two token
  buckets, `Leases.dfy` says what a cap is worth, and `ConfigLock.dfy` is the lock around a
  limiter's configuration.

Whatever the surroundings decide (clock readings, random draws, which channel a select picks,
whether a call succeeds, what everybody else does in between) is a parameter that the
theorems quantify over. Floating-point numbers are reals, integers are unbounded.

What turned out false of the code, with the exact condition beside it:

- Slots, backlogs and the fleet set share one key space, and a comment says they never
  collide. They do for a request key that is `fleet` or starts with `backlog:`
  (`KeySpacesDisjoint`, `CollidingKeyOverfillsBacklog`, `CollidingKeyOverfillsFleet`).
- Validation means to give every waiter a chance to poll, but accepts an interval equal to the
  wait, and exactly then a waiter can time out unpolled (`UnpolledTimeoutExactlyWhen`).
- The sidecar's bucket says it mirrors the Lua bucket. It does from a clock reading on exactly
  if that reading is not before the bucket's stamp, or nothing is ever admitted
  (`MirrorsExactlyWhen`; `BackwardClockDiffers` is one run). The sidecar's own clock is
  monotonic; the readings that do go backward are the script's, which are the wall clocks
  of the replicas that call it.
- A backlog set is meant to be the queue. It is exactly while no waiter's lease was reaped and every
  lost token has been reaped (`BacklogIsTheQueue`; `BacklogWithoutQueue` is a run in which they part).
- Tier 1 tells a cost above the burst when to come back, and never admits it
  (`EverAdmittedExactlyWhen`).
- The admin call installs any rate. At zero the script fails and Tier 1 lets everything through; below
  zero the burst comes back whenever the key expires (`RatesBoundExactlyWhen`).
- Waiting for `RetryAfter` is not always enough, because it is cut to whole nanoseconds; it
  is enough exactly when nothing was cut (`RetryAfterSufficesExactlyWhen`). The header's whole seconds always are.
- A local bucket whose burst is below one never admits anything (`EverAdmitsExactlyWhen`).
- The negative cache forgets visibly exactly while the clock reads no later than the deadline of
  an entry it has forgotten (`AgreesFromHereExactlyWhen`; `BackwardClockShows` is one run). That
  takes a clock that goes backward, which the default one does not.
- Validation does not look at the request duration. A validated cap bounds the grants that have
  not been given back exactly if the duration is positive (`ValidatedCapsBoundExactlyWhen`).
- A write between the first load of the routes and the start of the watch is missed until the
  next one, and so is any change that raises no event under exactly the watched path, like
  a deletion or a swapped link; `AtRestServesFinalContent` says exactly when the content
  served is the file's.

## Model

| member | source | states |
|---|---|---|
| TokenStore.ScriptBounds | services/core/store/lua/concurrent_limiter.lua:9-25 | A script call that adds a token leaves at most `cap` of them; one that refuses found `cap` or more live; no other token set changes and nothing but the candidate appears |
| TokenStore.PerformBounds | services/core/store/redis.go:95-134 | Whatever becomes of a call, a set grows only through an increment of that key and only up to that call's cap; a refusal means the set is full |
| TokenStore.LeaseLastsExactly | services/core/store/lua/concurrent_limiter.lua:15-20 | A granted token is still there after a later call on its key if and only if that call comes less than its own lease time after the grant |
| TokenStore.SecondRemoveChangesNothing | services/core/store/redis.go:129-134 | Releasing a token again changes nothing |
| TokenStore.RedisStore.IncrConcurrent | services/core/store/redis.go:95-119 | Reply and store are those of the atomic script after everybody else's operations, for delivered, undelivered and lost calls |
| TokenStore.RedisStore.DecrConcurrent | services/core/store/redis.go:129-134 | Exactly the named member leaves exactly the named set, if the call is carried out |
| Limits.KeySpacesDisjoint | services/core/limiter/concurrency.go:19-24 | A request key meets neither the fleet set nor any backlog if and only if it is not `fleet` and does not start with `backlog:`; backlogs never meet each other or the fleet |
| Configs.Validate | services/core/config/config.go:58-89 | Accepts exactly the configurations with positive caps and rate, a percentage in range and, when queueing, a positive backlog and a positive tick no longer than the wait |
| Configs.FirstProblemIsReported | services/core/config/config.go:58-89 | A problem is reported if and only if the configuration has it and none that comes earlier in the order of the checks |
| Leases.CapBoundsALease | services/core/store/lua/concurrent_limiter.lua:15-25 | Whatever was in a set before, requests that all come within one lease time are granted at most the cap, with nothing released |
| Leases.ValidatedCapsBoundExactlyWhen | services/core/config/config.go:58-89 | Validation accepts any request duration, and a validated cap bounds even the grants of a single millisecond if and only if the duration is positive |
| ConcurrencyLimiter.ConcurrencyLimiter.constructor | services/core/limiter/concurrency.go:44-55 | Every field starts as given |
| ConcurrencyLimiter.ConcurrencyLimiter.Reconfigure | services/core/limiter/concurrency.go:62-72 | All seven fields get their new values and nothing else changes; that nobody reads them half-changed is the next row |
| ConfigLock.SnapshotsAreInstalled | services/core/limiter/concurrency.go:62-82 | With the fields read and written one by one under the read-write lock, in every interleaving what a Check copies is one configuration that was installed whole: the one in force when it got the lock |
| ConfigLock.ReaderEndsWithCurrent | services/core/limiter/concurrency.go:79-82 | Whatever the others do, a Check that gets the read lock and reads as often as there are fields ends with the configuration in force |
| ConfigLock.WriterInstalls | services/core/limiter/concurrency.go:62-72 | Likewise a Reconfigure that gets the lock and writes as often as there are fields leaves its own configuration in force |
| ConcurrencyLimiter.ConcurrencyLimiter.Check | services/core/limiter/concurrency.go:74-124 | Verdict and store are those of the automaton driven to its end on one snapshot of the configuration, over any interference between calls |
| ConcurrencyLimiter.ConcurrencyLimiter.AcquireBacklogSlot | services/core/limiter/concurrency.go:130-132 | Takes a place in the key's own backlog set, leased for the queue wait |
| ConcurrencyLimiter.ConcurrencyLimiter.PollUntilAllowedOrDeadline | services/core/limiter/concurrency.go:134-156 | The polling loop ends where the automaton's waiting state ends, with the backlog token still to be given back |
| ConcurrencyLimiter.NothingLostNothingInvented | services/core/limiter/concurrency.go:74-156 | On every branch, what a Check holds changes by exactly the token its call took or gave back, and it only gives honest verdicts |
| ConcurrencyLimiter.AnswersAreLawful | services/core/limiter/concurrency.go:93-104 | Over any run: shadow mode never rejects, queues or is cancelled in a poll; queueing happens only when enabled; a 429 says to wait the full request duration and holds nothing |
| ConcurrencyLimiter.CollidingKeyOverfillsBacklog | services/core/limiter/concurrency.go:19-24 | Requests whose key is another key's backlog key put as many tokens into that backlog as the slot cap allows, whatever its own bound, so the bound can be broken whenever it is below the cap |
| ConcurrencyLimiter.CollidingKeyOverfillsFleet | services/core/limiter/fleetshedder.go:9 | Requests whose key is `fleet` put their slot tokens into the fleet set, as many as the slot cap allows, past a smaller fleet cap |
| SlotOutcomes.ScriptGrantsExactlyWhen | services/core/store/lua/concurrent_limiter.lua:15-25 | A call is granted if and only if fewer than `cap` tokens of the set are younger than the call's lease time; it leaves exactly those, at their readings, and the granted one |
| SlotOutcomes.FreeSlotIsGranted | services/core/limiter/concurrency.go:84-91 | With fewer than `cap` leases of the request duration running, a request gets ALLOW and exactly its own token is added |
| SlotOutcomes.RefusedOutright | services/core/limiter/concurrency.go:93-104 | With no free slot and neither shadow mode nor queueing it gets a 429 naming the request duration |
| SlotOutcomes.ShadowTakesASlot | services/core/limiter/concurrency.go:93-101 | In shadow mode it gets SHADOW_LOG with a slot for the same lease all the same, or without one if MaxInt32 leases are running |
| SlotOutcomes.JoinsTheQueueExactlyWhen | services/core/limiter/concurrency.go:103-113 | Refused its slot, with queueing on and shadow off, it joins the queue if and only if fewer than maxBacklog places of its key's backlog are younger than maxQueueWaitMs at its reading; otherwise it gets the 429 |
| SlotOutcomes.PollGrantsExactlyWhen | services/core/limiter/concurrency.go:150-155 | A poll grants QUEUE if and only if a slot is free at its reading, and the place is given back; otherwise the wait goes on |
| SlotOutcomes.WaitEnds | services/core/limiter/concurrency.go:140-149 | At the deadline the answer is the 429, on a cancelled context the error, and the place is given back |
| SlotOutcomes.FailedPollEndsTheWait | services/core/limiter/concurrency.go:150-155 | A poll that fails, carried out or not, fails the Check, and the place is given back |
| SlotOutcomes.FleetAdmitsExactlyWhen | services/core/limiter/fleetshedder.go:54-76 | A critical request is admitted if and only if fewer than `cap` fleet leases are running, a sheddable one if and only if one more stays within the unreserved share; otherwise it is shed, or, in shadow mode, takes a place for the same lease all the same |
| FleetShedder.FleetShedder.Check | services/core/limiter/fleetshedder.go:45-77 | Verdict and store are those of the fleet automaton on one snapshot |
| FleetShedder.FleetShedder.SetReservedCriticalPct | services/core/limiter/fleetshedder.go:34-43 | Accepts exactly 0 to 100, changes nothing else, and returns the previous value |
| FleetShedder.HeadroomRoundsUp | services/core/limiter/fleetshedder.go:54-57 | The sheddable share is within the cap, and what it leaves is the critical share rounded up |
| FleetShedder.NothingLostNothingInvented | services/core/limiter/fleetshedder.go:45-77 | What a fleet check holds changes by exactly the token its call took |
| Pipelines.Pipeline.Check | services/core/limiter/pipeline.go:13-32 | The loop equals the recursive specification for any list of stateful tiers: same verdict, same world |
| Pipelines.StopsAtFirstRefusal | services/core/limiter/pipeline.go:17-23 | Tiers run up to the first that errors or answers neither ALLOW nor QUEUE, and no further |
| Pipelines.ConsultedTierByTier | services/core/limiter/pipeline.go:17-21 | Each consulted tier answers in the world that the one before it left |
| Pipelines.AnswerIsTheFirstRefusal | services/core/limiter/pipeline.go:20-31 | The answer is ALLOW or QUEUE without an error if and only if every tier was consulted and answered so; otherwise its action, error, wait and tier are those of the last tier consulted, the first that failed or answered REJECT_429, REJECT_503 or SHADOW_LOG |
| Pipelines.PassingAnswer | services/core/limiter/pipeline.go:24-31 | An answer that passes is QUEUE exactly if some tier queued, names the last tier that gave a name, and tells no wait |
| Pipelines.LaterTiersAreNotRun | services/core/limiter/pipeline.go:17-23 | Adding tiers behind a pipeline that stopped changes neither verdicts nor world |
| Pipelines.QueueExactlyWhen | services/core/limiter/pipeline.go:24-31 | The answer is QUEUE exactly when some tier queued and none stopped the request; a refusal beats an earlier QUEUE |
| Pipelines.EveryGrantIsReturned | services/core/limiter/pipeline.go:19-22 | The answer carries exactly the grants of all tiers that ran, even when a later one refuses or fails |
| ClusterLedger.Reachable | services/core/limiter/concurrency.go:74-156 | In every reachable state the store holds exactly the tokens issued and not released or reaped, every holding was issued to its holder, and every token not lost is still in its request's hands or was a backlog token taken out again |
| ClusterConservation.GrantsAreConserved | services/core/limiter/concurrency.go:84-123 | A slot or fleet set is exactly the tokens of ALLOW, QUEUE and SHADOW_LOG decisions, and those whose reply was lost, less those released or reaped |
| ClusterConservation.HandedToOneRequest | services/core/store/redis.go:95-119 | No token is in the hands of two requests |
| ClusterConservation.AnswerCarriesEveryGrant | services/core/limiter/pipeline.go:14-31 | A finished request's answer carries exactly the slot and fleet tokens ever issued to it, lost replies aside, whatever later tiers said |
| ClusterEffects.ReleasedForGood | services/core/grpcserver/server.go:133-142 | Once a reservation of a response has been released, in any order and whatever else happens before and after, its token is out of its set for the rest of the run |
| ClusterEffects.ReleasedRequestHoldsNothing | packages/sdks/go/client.go:142-150 | Once a client has released every reservation of its response, nothing of the request is left in any set, backlogs included, but tokens whose reply or release was lost |
| ClusterEffects.RequestsFinish | services/core/limiter/pipeline.go:13-32 | No request is ever stuck: in any interleaving, one that has taken nine turns more than it made polls that found the slots full is done |
| ClusterConservation.BacklogIsTheQueue | services/core/limiter/concurrency.go:107-121 | A key's backlog set is token by token the requests between backlog acquire and deferred release, over all replicas, if and only if no waiter's lease was reaped and every token lost on its way has been taken out; no two waiters share a token |
| ClusterConservation.WaitersWithinBacklogAndOverdue | services/core/limiter/concurrency.go:107-121 | Whatever was lost or reaped, the requests queued on a key are at most its backlog set and those whose lease was reaped |
| QueueRuns.BacklogWithoutQueue | services/core/limiter/concurrency.go:107-118 | A run in which they part: the reply to a backlog acquire is lost, and the only place is taken with nobody in it |
| ClusterBounds.GrowthNeedsCap | services/core/limiter/concurrency.go:74-156 | No event makes a set grow except a request's own increment, and that only up to its cap |
| ClusterBounds.SlotsAndBacklogsBounded | services/core/limiter/concurrency.go:74-156 | Over every interleaving on any number of replicas, shadow off: slots never exceed c and backlogs never exceed b when no configuration does |
| ClusterBounds.AtMostMaxBacklogWait | services/core/limiter/concurrency.go:126-132 | In every run, at most maxBacklog requests wait on a key fleet-wide, not counting those whose lease was reaped |
| ClusterBounds.SnapshotsAreWhole | services/core/limiter/concurrency.go:79-82 | A Check takes its replica's configuration in one step at entry (`ConfigLock.SnapshotsAreInstalled` justifies the one step) and keeps it to its end through any reload |
| ClusterBounds.GrantWithinSnapshot | services/core/limiter/concurrency.go:84-91 | A grant that shadow mode did not force leaves the set no larger than the cap of the request's own snapshot |
| ClusterBounds.NoGrowthAtOrAboveCap | services/core/limiter/concurrency.go:62-91 | Once nothing in use exceeds c, a slot set that holds c or more never grows |
| ClusterBounds.SlotsBounded | services/core/limiter/concurrency.go:62-91 | The same over any further run, from any reachable state in which nothing in use exceeds c |
| ClusterBounds.WithinOnceEarlierChecksFinish | services/core/limiter/concurrency.go:62-91 | That state is reached: once no replica exceeds c and every Check that was under way then has finished, nothing in use exceeds it |
| ClusterBounds.LoweredCapTakesHold | services/core/limiter/concurrency.go:62-91 | After a cap is lowered to c and the earlier Checks have finished, over any further run a slot set never grows past the larger of c and what they left |
| ClusterBounds.ConfigsStaySafe | services/core/main.go:188-274 | From start-up on, across reloads tier by tier and admin calls, every configuration and snapshot in use is one that validation accepts |
| ClusterEffects.ReloadTakesHold | services/core/main.go:271-273 | A valid reload is in force, whole, once each of the three tiers has been told, in whatever order and whatever else happens in between |
| ClusterEffects.NewChecksUseWhatIsInForce | services/core/limiter/concurrency.go:79-82 | While a replica's configuration is left alone, every slot and fleet Check that begins there works with exactly that configuration |
| ClusterBounds.EffectiveCapInRange | services/core/limiter/fleetshedder.go:54-57 | So every fleet check's effective cap lies between zero and a positive cap |
| ClusterBounds.HeadroomKept | services/core/limiter/fleetshedder.go:45-77 | Over whole runs with any releases, reaping and expiry, live sheddable reservations stay within their share and the total within the cap |
| ClusterBounds.CriticalShedOnlyWhenShareIsUsed | services/core/limiter/fleetshedder.go:54-76 | A critical request is shed only when live critical reservations fill the critical share rounded up |
| ClusterShadow.ShadowAccountingIsExact | services/core/limiter/concurrency.go:93-101 | With shadow mode on, calls succeeding and nothing reaped: every check is let through, and the set holds one token per check less the ones released, whatever the cap |
| ClusterShadow.ShadowReachable | services/core/limiter/fleetshedder.go:64-74 | In such runs no check of the tier rejects, queues or loses a token, at any point |
| ClusterRefinement.InterleavedCheckIsCheck | services/core/limiter/concurrency.go:74-156 | A Check of Tier 2 or Tier 3 in an interleaved run returns and stores what the tier's straight-line Check does with the others' operations slipped in between its calls |
| ClusterRefinement.RunFollowsAutomaton | services/core/limiter/fleetshedder.go:45-77 | At every point of a run, a request inside a tier stands where the tier's automaton stands after the request's own view of the run |
| ClusterRefinement.VerdictsAreKept | services/core/limiter/pipeline.go:17-23 | No event takes away or replaces a verdict a request has collected, or adds two at once |
| ClusterRefinement.TiersFollowInOrder | services/core/limiter/pipeline.go:17-31 | In every interleaved run every verdict but a request's last passes, it goes on only while the last one passes, and it is done only if that does not or no tier is left |
| ClusterPipeline.InterleavedPipelineIsPipeline | services/core/limiter/pipeline.go:13-32 | A request that passed Tier 1 and finished in an interleaved run has the answer of the pipeline's loop over the three tiers, on the configurations it took and its own view of the run, and leaves the store as the loop does |
| PollTiming.EndingIsTheVerdict | services/core/limiter/concurrency.go:140-155 | Each verdict comes with exactly one way of ending: deadline, cancel, store error or grant; the polls counted are the turns taken |
| PollTiming.PollCount | services/core/limiter/concurrency.go:134-156 | At most wait / interval polls, and at least one before a deadline if the interval is shorter than the wait |
| PollTiming.UnpolledTimeoutExactlyWhen | services/core/config/config.go:84-86 | Among validated settings, a deadline without a single poll is possible if and only if interval and wait are equal |
| RateLimiter.Check | services/core/limiter/tokenbucket.go:57-84 | Tier 1 never errors and never reserves; it passes exactly when the store allows or cannot be asked |
| RateLimiter.SharedAdmissionBound | services/core/store/lua/token_bucket.lua:15-38 | Over any sequence of requests under any clock readings, from any stored bucket or none, the admitted cost never exceeds the tokens there were (a full burst if none) plus rate times the forward movement of the readings; tokens stay in [0, burst] |
| RateLimiter.CostsAreChargedExactly | services/core/store/lua/token_bucket.lua:24-35 | Any requests in one millisecond are all admitted if and only if the tokens there are cover their costs together, and what is admitted takes exactly its cost |
| RateLimiter.SecondsAreWorthTheRate | services/core/store/lua/token_bucket.lua:24-26 | Every whole second that passes adds the rate, up to the burst |
| RateLimiter.InOrderAdmissionBound | services/core/store/lua/token_bucket.lua:24-30 | With readings in order that is the time that passed |
| RateLimiter.RemainingIsExact | services/core/store/lua/token_bucket.lua:29-42 | The reported remaining is how many more requests of cost one the same millisecond would admit, the first request of a key included |
| RateLimiter.RetryAfterIsExact | services/core/store/lua/token_bucket.lua:28-35 | After a refusal, through any refused requests in order and no admitted one, the same request is admitted if and only if its cost is within the burst and the advertised milliseconds have passed |
| RateLimiter.EverAdmittedExactlyWhen | services/core/store/lua/token_bucket.lua:24-35 | From any bucket a cost is admitted at some time if and only if it is within the burst, although a larger one is told a wait too |
| DynamicRates.RatesBoundExactlyWhen | services/core/limiter/tokenbucket.go:41-47 | Of the rates the unchecked admin call may install, key expiry included, exactly the positive ones keep every run within a full burst plus rate times elapsed, and the negative ones with an empty burst |
| RateLimiter.ExpiryIsInvisible | services/core/store/lua/token_bucket.lua:15-38 | By the time Redis drops a bucket it is full, so dropping it changes no answer |
| BucketMirror.MirrorsExactlyWhen | services/sidecar/ratelimit/limiter.go:59-73 | From a reading on, the sidecar's bucket gives the script's verdicts whatever forward readings follow if and only if that reading does not lie before the bucket's stamp, or the burst is zero |
| LocalBucket.Limiter.constructor | services/sidecar/ratelimit/limiter.go:21-29 | A new bucket is full |
| LocalBucket.Limiter.Allow | services/sidecar/ratelimit/limiter.go:31-42 | Verdict and bucket are those of the functional bucket |
| LocalBucket.Limiter.RetryAfter | services/sidecar/ratelimit/limiter.go:46-57 | Refills and answers the deficit in whole nanoseconds |
| LocalBucket.Limiter.Serve | services/sidecar/ratelimit/middleware.go:8-19 | One request takes one token or is told whole seconds |
| LocalBucket.AdmissionBound | services/sidecar/ratelimit/limiter.go:31-73 | Under any clock readings tokens stay in [0, burst], and admissions plus tokens left never exceed the start plus the credit for the time updatedAt moved |
| LocalBucket.AllowTakesExactlyOne | services/sidecar/ratelimit/limiter.go:31-42 | Of n requests at one reading exactly as many are admitted as the refilled bucket holds whole tokens, and each takes one |
| LocalBucket.SecondsAreWorthTheRate | services/sidecar/ratelimit/limiter.go:62-73 | Every whole second that passes adds the rate, up to the burst |
| LocalBucket.StretchBound | services/sidecar/ratelimit/limiter.go:31-73 | What any stretch of a run admits, and has left, is covered by what was there when it began and the credit for the movement of the bucket's stamp |
| LocalBucket.WindowBound | services/sidecar/ratelimit/limiter.go:31-73 | Any calls whose clock readings lie in a window, in any order and after any run, are admitted at most burst + rate * window times |
| LocalBucket.RefillsCompose | services/sidecar/ratelimit/limiter.go:62-73 | Any number of lazy refills, in any order of readings, equals one refill at the latest reading |
| LocalBucket.SucceedsExactlyWhenDue | services/sidecar/ratelimit/limiter.go:31-73 | After a refusal Allow succeeds exactly when (1 - tokens) / rate seconds have passed, however often it was asked |
| LocalBucket.RetryAfterSufficesExactlyWhen | services/sidecar/ratelimit/limiter.go:46-57 | Waiting RetryAfter is enough exactly when truncation cut nothing; a nanosecond more always is |
| LocalBucket.RetrySecondsSuffice | services/sidecar/ratelimit/middleware.go:15 | The header's whole seconds always suffice and are at most a second too long |
| LocalBucket.EverAdmitsExactlyWhen | services/sidecar/ratelimit/limiter.go:17-29 | A bucket ever admits anything if and only if its burst is at least one |
| WorkerShedder.Shedder.Allow | services/sidecar/worker/shedder.go:27-40 | The retry loop equals the recursive run over any interference, and terminates once others stop winning |
| WorkerShedder.AllowTakesOneSlotOrNone | services/sidecar/worker/shedder.go:27-40 | Beyond what others did, Allow adds one if it admits and nothing otherwise, never passing the maximum |
| WorkerShedder.InflightIsHolders | services/sidecar/proxy/proxy.go:115-139 | In every interleaving of load, decide, swap and release, inflight is the number of admitted, unreleased handlers and stays in [0, max] |
| WorkerShedder.FailedSwapMeansProgress | services/sidecar/worker/shedder.go:36-38 | A swap fails only if another handler wrote since this one's load |
| WorkerShedder.RetriesBoundedByOthers | services/sidecar/worker/shedder.go:27-40 | A handler's failed swaps never outnumber the others' writes |
| WorkerShedder.MoreLoadNeverHelps | services/sidecar/worker/shedder.go:27-58 | For a fixed draw more load never turns a rejection into an admission |
| WorkerShedder.LaterRampNeverHurts | services/sidecar/worker/shedder.go:46-58 | For a fixed draw a later ramp start never turns an admission into a rejection |
| WorkerShedder.RampShape | services/sidecar/worker/shedder.go:27-58 | Below the ramp every draw admits, below the maximum some draw does, at the maximum none; 100 percent is the hard cutoff |
| WorkerShedder.RampIsLinear | services/sidecar/worker/shedder.go:46-58 | From the whole part of pct percent of the maximum on, exactly the draws at or above a threshold are admitted that rises by equal amounts per unit of load, from 0 there to 1 at the maximum; up to there every draw is, at the maximum none |
| WorkerShedder.NobodyIsRefusedExactlyWhen | services/sidecar/worker/shedder.go:46-58 | Every draw is admitted if and only if the load is at most pct percent of the maximum |
| WorkerShedder.AllowAnswersAtItsLastLoad | services/sidecar/worker/shedder.go:27-40 | Allow goes round again only after a failed swap, and answers by the ramp at the value it loaded last |
| WorkerShedder.CriticalIsNeverShed | services/sidecar/proxy/proxy.go:115-139 | In every interleaving a critical request takes no slot and is never refused |
| WorkerShedder.OverrideNeverRefuses | services/sidecar/proxy/proxy.go:115-131 | Under the global shadow override no request is refused in any run |
| WorkerShedder.HandlerAlone | services/sidecar/proxy/proxy.go:115-139 | An undisturbed handler does what Allow alone does, and gives its slot back when it ends |
| Histograms.BucketsAreMonotone | cli/cmd/histogram.go:35-48 | For any logarithm-like function, buckets are in range and grow with the sample |
| Histograms.PercentileIsOrderStatistic | cli/cmd/histogram.go:58-73 | The scan stops at bucket i if and only if i is the bucket of the rank-th smallest sample |
| Histograms.PercentileGrows | cli/cmd/histogram.go:58-73 | A larger p never gives a smaller bucket |
| Histograms.RankInRange | cli/cmd/histogram.go:64 | For p in [0, 1] the rank is at most the count, and at least one exactly when p and the count are positive |
| Histograms.RankRoundsUp | cli/cmd/histogram.go:64 | The rank is p times the count, rounded up |
| Histograms.BucketBracketsSample | cli/cmd/histogram.go:35-56 | For any strictly growing logarithm with evenly spaced bucket bounds, a sample within the scale lies between the bounds of its bucket; the first and the last bucket take what lies outside |
| Histograms.PercentileBracketsItsSample | cli/cmd/histogram.go:58-73 | So the bound reported and the one before it enclose the sample of that rank, inside the scale |
| Histograms.Histogram.Record | cli/cmd/histogram.go:26-33 | Every bucket keeps counting exactly its samples, and count their number |
| Histograms.Histogram.Percentile | cli/cmd/histogram.go:58-73 | Answers the bound of the first bucket that reaches the rank; it falls through only above the count |
| Histograms.Histogram.Reset | cli/cmd/histogram.go:83-90 | Back to no samples, in place |
| NegativeCache.ForgettingIsInvisible | services/sidecar/negativecache/negativecache.go:31-62 | Over any sequence of calls under a clock that does not go backward, lazy deletion and sweeps change no verdict and no remaining time |
| NegativeCache.DeniedAsLongAsTold | services/sidecar/negativecache/negativecache.go:31-53 | A denial lasts exactly as long as the caller was told, and counts down |
| NegativeCache.AgreesFromHereExactlyWhen | services/sidecar/negativecache/negativecache.go:40-62 | After any sequence of calls under any clock, all further answers agree with the map that never forgets if and only if the clock has passed the deadline of every forgotten entry |
| NegativeCache.Cache.MarkDenied | services/sidecar/negativecache/negativecache.go:31-38 | The new deadline is recorded; afterwards at most 10000 entries are left or all of them were unexpired at the sweep |
| NegativeCache.Cache.IsDenied | services/sidecar/negativecache/negativecache.go:40-53 | Answers and forgets as the functional cache |
| NegativeCache.Cache.SweepLocked | services/sidecar/negativecache/negativecache.go:55-62 | Removes exactly the expired entries |
| TokenSigning.AcceptsExactlyTheSigned | services/core/grpcserver/server.go:67-76 | A string verifies if and only if it is the signature of a dot-free identifier |
| TokenSigning.HexIsInjective | services/core/store/redis.go:53-57 | Different macs print differently |
| TokenSigning.VerifiesUnderAnotherKeyExactlyWhen | services/core/grpcserver/server.go:67-76 | A token signed under one key verifies under another if and only if both keys give its identifier the same mac |
| TokenSigning.DottedIsNeverAccepted | services/core/store/redis.go:53-57 | A signed string with a dot in its identifier never verifies, for any mac |
| TokenSigning.SignedIsNeverBlank | services/core/store/redis.go:53-57 | No token is blank |
| Headers.NamesAreDistinct | services/sidecar/proxy/proxy.go:175-178 | No two reservations share a header name, and no token header is a key header |
| Headers.ReadsWhatWasPrinted | packages/sdks/go/client.go:219-227 | Reading back gives the prefix up to the first blank token, so everything exactly when none is blank |
| Headers.OtherHeadersDoNotMatter | services/sidecar/proxy/proxy.go:207-225 | The retry and shed headers written later disturb no reservation |
| Headers.ResponseWriter.WriteReservations | services/sidecar/proxy/proxy.go:175-178 | The headers say exactly the reservations, index by index, and no other header changes |
| Headers.ReadReservations | packages/sdks/go/client.go:219-227 | The unbounded loop ends on any headers at all, and reads exactly the entries up to the first blank token |
| RoundTrip.Server.ReleaseConcurrency | services/core/grpcserver/server.go:133-142 | Refuses a blank key or a token that does not verify without touching the store, and otherwise removes it |
| RoundTrip.Ticket.Release | packages/sdks/go/client.go:142-150 | Releases every reservation whatever failed before, and counts the failures |
| RoundTrip.EveryReleaseIsTried | packages/sdks/go/client.go:142-150 | Whatever becomes of the single releases, with nobody else writing: exactly the tokens whose own release was acceptable and carried out leave their sets, and the errors counted are the releases that were refused or got no reply |
| RoundTrip.SlotTierAdds | services/core/limiter/concurrency.go:74-156 | A Tier 2 Check whose calls are delivered, alone, and name sets in which no lease has expired by then leaves the store with exactly its grants added, on every path |
| RoundTrip.PipelineAdds | services/core/limiter/pipeline.go:13-32 | Under the same premise on each call the pipeline leaves the store with exactly the answer's tokens added, and a blank token can only be the last |
| RoundTrip.AcquireThenReleaseRestores | packages/sdks/go/client.go:142-150 | For every request, configuration and store, under the same premise on each call: releasing what the client read back leaves every token set as it was before the request, and releasing it twice changes nothing more |
| Debounce.ReloadsWaitOutTheWindow | services/core/config/watcher.go:36-65 | In every run each reload comes at least a full window after the last event processed |
| Debounce.NoStaleValueSurvivesReset | services/core/config/watcher.go:44-56 | After a reset the timer runs for a full window and no fired value is left |
| Debounce.BurstCausesOneReload | services/core/config/watcher.go:44-64 | Events with gaps below the window cause no reload while the timer is pending and exactly one after it |
| Debounce.BurstIsReloaded | services/core/config/watcher.go:44-64 | After a burst from rest, a firing once the window has passed and a turn of the loop with no event received in between leave one reload more and nothing pending; a reload still due at the firing reads what the file holds at that turn and serves it if it parses |
| Debounce.EventsAreReceivedOnce | services/core/config/watcher.go:40-56 | An event is received once; one about the file starts a full window, any other does nothing |
| Debounce.AtRestServesFinalContent | services/sidecar/criticalroutes/criticalroutes.go:81-162 | At rest the last content read that parsed is served. If no change without an event under the watched path came after the last write or reload, the last content read is the file's exactly when nothing slipped in before the watch or a reload came since; if one did, the file is what it left |
| Debounce.NothingAfterStop | services/sidecar/criticalroutes/criticalroutes.go:138-160 | In every run, once stop has returned, which it does only after the loop has exited, nothing is reloaded whatever happens to the file |
| Debounce.StopGetsThrough | services/core/config/watcher.go:70-90 | Once stop is asked for, the loop can exit and stop returns, with nothing reloaded |
| Debounce.Watcher.HandleEvent | services/core/config/watcher.go:40-56 | Stop, drain and reset take the state machine's step |
| Debounce.Watcher.HandleTimer | services/sidecar/criticalroutes/criticalroutes.go:126-133 | A load that fails keeps what was served |
| Debounce.Watcher.Loop | services/core/config/watcher.go:36-76 | The event loop follows the state machine over any steps of the file system, the runtime and stop |

## Left out

- Redis, gRPC, HTTP transport, TLS, telemetry, logging, the command line, Helm and Docker: input and output. A header value that the transport would rewrite (line breaks, spaces at either end) is taken to arrive as it was sent.
- Floating-point rounding and 64-bit overflow: `LocalBucket`, `RateLimiter`, `WorkerShedder` and `Histogram` use reals and unbounded integers, and the histogram's logarithm is any function that grows like one.
- ClusterConservation.GrantsAreConserved: speaks of slot and fleet sets; the backlog sets are `BacklogIsTheQueue`'s.
- ClusterBounds.SlotsAndBacklogsBounded: needs that no request key is `fleet` or starts with `backlog:`, which the code does not check.
- PollTiming.PollCount: assumes store calls that take no time; a slow call makes ticks coalesce and can only lower the count.
- ConcurrencyLimiter.ConcurrencyLimiter.Check: takes the environment as a finite list; when it is used up the caller's context counts as cancelled, and every further call fails.
- RoundTrip.AcquireThenReleaseRestores: needs that nobody else writes in between, that the calls are delivered, and that no call finds an expired lease in the set it names, because that call takes it out for good; and a key that is not blank, which the sidecar asks for before it asks the core.
- RateLimiter.SharedAdmissionBound: costs are positive, as the core's own check leaves them; rate and burst stay as they are during the run.
- RateLimiter.RetryAfterIsExact: says nothing once somebody else's request is admitted in between, because that takes tokens.
- DynamicRates.RatesBoundExactlyWhen: replicas and Redis read one clock there; the waits that the script answers at rates of zero and below are not part of this model, and `RateLimiter` is about positive rates.
- LocalBucket.Limiter.RetryAfter: needs a positive rate, as does LocalBucket.Limiter.Serve; at a rate of zero or below the source converts an infinite or negative number of seconds to a duration, which is not part of this model.
- Debounce.AtRestServesFinalContent: a write and its event are one step, as the kernel queues the event with the write; the window is 50 units of an integer clock.
- Debounce.Timer: a timer that has fired keeps its value until it is received or drained; runtimes that discard it on Stop or Reset behave the same under this loop, which drains it.
- Tier 1 inside the interleaved machine is an arbitrary verdict that errs never and reserves nothing; the refund script is not part of this model.
- CheckRateLimit's refusal of costs below one, priority resolution, cost estimation, the other Retry-After and RateLimit headers, and the action coerced by the global shadow override.
- "The negative cache never rejects what the core would admit": not true of this code, which keys it by key alone and ignores cost and skipped reservations.
- "A tier in shadow mode behaves as if it were absent": not true, since SHADOW_LOG stops the pipeline before the tiers behind it.
- Generated protocol code, the sample application, the benchmark drivers, and the Python library, whose header parser is the Go one over again.
