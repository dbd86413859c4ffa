# HotSot: proofs about the shared layer and the service cores

HotSot is a set of services for cloud kitchens. Most of its files are wiring; this project models the
parts that hold protocols, state machines and exact arithmetic, and proves what they keep. Each module
follows one component. An object that the services change in place is a class whose methods are proved
against specification functions, and the theorems are about those functions, over every run.

| file | component |
|---|---|
| `OptimisticLocking.dfy` | compare-and-set on a version column, with retries, for any number of interleaved clients |
| `CircuitBreaker.dfy` | the four-state breaker, its clock reads and its window of transition times |
| `RedisLocks.dfy` | distributed locks with expiry, with requests and replies lost anywhere |
| `RateLimit.dfy` | the sorted-set rate limiter |
| `PriorityScore.dfy`, `ReorderQueue.dfy`, `KitchenQueue.dfy` | kitchen scores, renumbering, and the three sorted sets beside the rows |
| `StaffAssignment.dfy` | the staff pools of one kitchen |
| `EventDelivery.dfy` | event deduplication and the consume loop |
| `ReplayLog.dfy` | replay of the fallback log |
| `GstChecksum.dfy`, `Compliance.dfy` | number verification and vendor compliance |
| `DriftDetection.dfy` | sliding windows and the drift test |
| `Money.dfy`, `Compensation.dfy` | rounding, GST and payout; capped compensation |
| `Prelude.dfy` | Option and a few facts about sets and sequences |

Clocks, replies and outcomes of foreign calls are parameters. Times and rates are reals, amounts of
money whole paise, and every integer is unbounded, as in Python. A conditional UPDATE with its commit is
one atomic step, and so is one Redis script or pipeline; the TIME that the rate limiter reads is a step
of its own before it.

## What the proofs found

- **Retries** (`OptimisticLocking.NoLostUpdateIff`): the guarantee hangs on `update_fn`: no update is lost exactly
  when every write that commits returned the version of the record it was given.
- **Breaker** (`CircuitBreaking.HalfOpenOnlyBetweenReads`, `OpenUntilStraddled`, `RecoveryNeedsEnoughProbes`): the `state`
  property reports HALF_OPEN without storing it, so the stored move happens only when the timeout runs
  out between two clock reads of one call; until that happens an open breaker never closes, save by
  `reset`. The default of one probe cannot reach the default of two successes.
- **Locks** (`RedisLocks.LostExtensionIsSafeIff`): the documentation of `extend_distributed_lock` speaks of an
  additional time, but EXPIRE replaces what is left; a lost reply is safe exactly when the new deadline
  is not before the old one.
- **Rate limit** (`RateLimiting.CountIsWindowIff`, `ExpiryIsInvisibleIff`, `SecondsCappedIff`, `CallsCappedIff`): TIME and
  the pipeline are two round trips, so a pipeline may run late and overtaken. Counts are those of the
  window, and key expiry is invisible, exactly when every pipeline runs in the second it read. The cap
  on seconds also stands delays of one second, for limits of two and more; with longer ones it fails
  for every limit from two up to the window. Calls within one second share a member, so calls are
  bounded exactly by a limit of one without delays.
- **Kitchen queue** (`KitchenQueues.AgreementKeptIff`, `OtherSpellingBreaks`, `ReorderAgreesIff`, `DuplicatedAfterReorderIff`):
  `set_priority` ignores whether its removal succeeded, and leaves a stale member when it did not; it
  finds the row by UUID but the member by text, so another spelling of an id duplicates the order;
  `reorder_queue` rewrites the rows only, and `QueueManager.reorder` merely counts, so the sets still agree
  exactly when every queued order with a member keeps its score.
- **Staff** (`StaffAssignment.NobodyLostIff`, `RepeatedReleaseIsSafeIff`, `RepeatedRegistrationIsSafeIff`): a member popped
  by a call that then fails is lost; a release or registration that answers False may be repeated only
  if its push did not run, which its caller cannot tell.
- **Event ids** (`EventDelivery.SharedIdIff`, `SkippedAfterAnotherIff`): the fallback id ignores topic and partition,
  although one store serves all consumers of a service.
- **Several loops** (`EventDelivery.WithinTtlIffOverlapping`): two loops over one store handle an id twice within the
  TTL exactly when one looks it up before the other marks it.
- **Dead letters** (`EventDelivery.DeadLettersIffOneTry`): a failed message is committed, so it is not polled
  again and its retry count never passes one.
- **Replay** (`ReplayLog.LimitIsNeverReached`): the raised count is not written back, so trying never reaches
  the limit.
- **GSTIN** (`GstChecksum.NeighbourSwapAcceptedIff`, `Compliance.SwappedGstinIsInvalid`, `GstChecksum.KnownNumber`): the
  checksum alone misses the swap of '0' and 'Z', but within the pattern no such swap is possible. The
  compliance tests take 27AABCU9603R1ZM to be valid; its check character is N, and the code rejects it.
- **Score** (`PriorityScores.ScoreOfPoints`): a comment promises the full distance bonus within 500 metres; the code
  gives it at the door only, and nothing from 500 metres on.
- **Remaining count** (`RateLimiting.RemainingIs`): it is one short for a second call within a second.
- **Payout** (`MoneyAmounts.PayoutIsCoveredIff`): the net payout is never negative exactly for rates below five
  sixths, although the exact net stays positive up to 1 / 1.18.
- **Compliance** (`Compliance.AgreeAfterCheckIff`, `AgreeAfterRegisterIff`, `StatusRoutePassesIff`): the stored status and its
  recomputation always agree on PASSED; on FAILED and PENDING they agree under exact conditions.

## Model

| member | source | states |
|---|---|---|
| `OptimisticLocking.Table.OptimisticUpdate` | shared/optimistic_locking.py:85-137 | on a matching version every column the update names, but for the version, takes its value, every other column, the tenant and every other row stay, and the version is the next; a miss is told apart as not found (no such id, or another tenant's) or conflict, and changes nothing |
| `OptimisticLocking.Table.OptimisticUpdateWithRetry` | shared/optimistic_locking.py:170-202 | for any update function, the row and the answer after all attempts: the update is computed from the row an attempt reads and written over the row it finds |
| `OptimisticLocking.HonestLandsWhenQuiet` | shared/optimistic_locking.py:152-202 | an update function that returns the version it was given lands on the first attempt no foreign commit falls into, every earlier one being disturbed, computed from the row as it is then; with no such attempt only the foreign writes are in the row |
| `OptimisticLocking.RetryKeepsForeignWrites` | shared/optimistic_locking.py:170-202 | whatever the update function returns, a retry that lands writes over everything committed until then, and one that does not leaves just the others' writes |
| `OptimisticLocking.NoLostUpdate` | shared/optimistic_locking.py:85-121 | for any interleaving of any number of clients whose committing writes returned the version they were given, the row is the fold of the commits in version order, each computed from the state just before it, and the version counts the commits |
| `OptimisticLocking.NoLostUpdateIff` | shared/optimistic_locking.py:85-121 | for any interleaving and any update functions, the row is the fold of the commits, and each was computed from the state just before it exactly when every write that commits returned the version of its record |
| `OptimisticLocking.LastWriterWins` | shared/optimistic_locking.py:94-101 | over any run of any clients each column of the row holds the value of the last commit that names it, or else its initial value |
| `OptimisticLocking.DishonestUpdateIsLost` | shared/optimistic_locking.py:170-192 | a run in which that fails: two clients, and a version not read, commit over a stale read |
| `OptimisticLocking.ConflictAccounting` | shared/optimistic_locking.py:103-121 | if writes that conflict returned the version of their record, whatever those that commit returned, n clients together meet at most (n - 1) conflicts per commit, over any number of calls |
| `OptimisticLocking.ExhaustedSawForeignCommits` | shared/optimistic_locking.py:170-202 | under the same premise a client that ran out of retries saw at least that many foreign commits since its call began |
| `OptimisticLocking.RetriesSufficeForFewCalls` | shared/optimistic_locking.py:140-202 | under the same premise, while no more calls are begun than there are retries, no call runs out of them |
| `OptimisticLocking.AttemptsAreBounded` | shared/optimistic_locking.py:170-202 | no call makes more attempts than it has retries, and without retries nothing is committed |
| `CircuitBreaking.CircuitBreaker.Transition` | shared/circuit_breaker.py:230-260 | lands in the requested state or in STRESSED with the doubled timeout, with the pruned times |
| `CircuitBreaking.CircuitBreaker.AllowRequest` | shared/circuit_breaker.py:262-298 | what one admission test changes and answers, from three separate clock reads |
| `CircuitBreaking.CircuitBreaker.RecordSuccess` | shared/circuit_breaker.py:300-321 | what a success changes in each state, the clearing after a close included |
| `CircuitBreaking.CircuitBreaker.RecordFailure` | shared/circuit_breaker.py:323-347 | what a failure changes in each state |
| `CircuitBreaking.CircuitBreaker.Reset` | shared/circuit_breaker.py:400-410 | asks for CLOSED and clears, wherever it lands |
| `CircuitBreaking.CircuitBreaker.ForceOpen` | shared/circuit_breaker.py:412-417 | asks for OPEN and records a failure time |
| `CircuitBreaking.WindowIsExact` | shared/circuit_breaker.py:230-249 | in every run the recorded times are sorted and are exactly the changes asked for since the last close that lie within twice the recovery timeout of the latest |
| `CircuitBreaking.StressedExactlyOnOscillation` | shared/circuit_breaker.py:241-249 | in every run STRESSED is entered exactly by a change that makes six inside the window, and every other change lands where it was asked to |
| `CircuitBreaking.ClosedLeftExactlyAtThreshold` | shared/circuit_breaker.py:300-347 | apart from force_open, CLOSED is left exactly on the threshold-th failure since the last success or close |
| `CircuitBreaking.HalfOpenLeftExactly` | shared/circuit_breaker.py:300-340 | apart from reset and force_open, HALF_OPEN is left exactly on a failure or on the threshold-th success since it was asked for |
| `CircuitBreaking.AdmittedOnlyAfterRecovery` | shared/circuit_breaker.py:195-206 | a request admitted while the stored state is not CLOSED comes at least the recovery timeout after the latest failure, twice that once the breaker has oscillated |
| `CircuitBreaking.AdmittedIff` | shared/circuit_breaker.py:262-298 | exactly when a request is admitted, in any run and each state: always in CLOSED, which it leaves as it is; while probes are left in HALF_OPEN; in OPEN and STRESSED once the timeout in force has passed since the latest failure or force_open, or when it passes between the two clock reads |
| `CircuitBreaking.ProbesAreBounded` | shared/circuit_breaker.py:275-298 | between two zeroings of the probe counter at most half_open_max_requests are admitted |
| `CircuitBreaking.HalfOpenOnlyBetweenReads` | shared/circuit_breaker.py:275-298 | the move out of OPEN or STRESSED is stored exactly when the timeout runs out between the two clock reads of one call, and lands in HALF_OPEN unless that makes six changes inside the window |
| `CircuitBreaking.OpenUntilStraddled` | shared/circuit_breaker.py:195-206 | as long as no timeout runs out between the two clock reads of one call and nobody resets, an open breaker never leaves OPEN or STRESSED, however many requests succeed, and admits at most the probes left |
| `CircuitBreaking.OpenIsForeverOnOneClock` | shared/circuit_breaker.py:275-298 | so it stays open for ever when the clock stands still within each call |
| `CircuitBreaking.RecoveryNeedsEnoughProbes` | shared/circuit_breaker.py:275-315 | from a HALF_OPEN state just entered, probes alone can end the trial exactly when the success threshold is within the probes allowed |
| `RedisLocks.RedisClient.AcquireDistributedLock` | shared/utils/redis_client.py:198-262 | SET NX EX under the owner's value, with its answer and every way the command can be lost |
| `RedisLocks.RedisClient.ReleaseDistributedLock` | shared/utils/redis_client.py:264-313 | the release script's effect and answer |
| `RedisLocks.RedisClient.ExtendDistributedLock` | shared/utils/redis_client.py:315-352 | the extension script's effect and answer; a time that is not positive deletes the key |
| `RedisLocks.OnlyTheStoredValueActs` | shared/utils/redis_client.py:76-91 | while an owner takes no step, no run of steps by others removes, extends or changes its entry before it expires, and nobody acquires the lock before then |
| `RedisLocks.AnsweredIff` | shared/utils/redis_client.py:198-352 | after any run, replies lost anywhere, an answered acquire succeeds exactly when every grant on the key was released or has run out, and an answered release or extension exactly for the owner of a grant that has not |
| `RedisLocks.FreeAfterRelease` | shared/utils/redis_client.py:76-83 | after an answered release by the active owner anybody's answered acquire succeeds |
| `RedisLocks.LockKeysDiffer` | shared/utils/redis_client.py:225-235 | different locks have different keys |
| `RedisLocks.MutualExclusion` | shared/utils/redis_client.py:198-352 | over any interleaving of acquire, release, extend and time passing, with requests and replies lost, no two owners are active on one key |
| `RedisLocks.LostExtensionIsSafeIff` | shared/utils/redis_client.py:85-91 | after an extension whose reply is lost, exclusion holds for ever exactly when the new deadline is not before the one granted |
| `RateLimiting.RateLimiter.CheckRateLimit` | shared/utils/redis_client.py:667-698 | the state, verdict and remaining count of one call, from the second that TIME answered and the moment the pipeline runs; without both answers it is denied |
| `RateLimiting.RemainingIs` | shared/utils/redis_client.py:692-695 | the remaining count is the room left for further seconds, one short when the call read a second already counted |
| `RateLimiting.InstantsAreOrdered` | shared/utils/redis_client.py:682-690 | instants are compared to the microsecond, as key expiry does |
| `RateLimiting.CountIsSurvivors` | shared/utils/redis_client.py:684-692 | in any order and with any delays, the count read is the number of seconds with an earlier call whose member no later call, this one included, trimmed or found expired |
| `RateLimiting.CountIsWindow` | shared/utils/redis_client.py:684-692 | when every pipeline runs in the second it read, the count is the number of distinct seconds with an earlier call in the window that ends now |
| `RateLimiting.CountIsWindowIff` | shared/utils/redis_client.py:682-692 | the count is that of the window in every run with such delays exactly when there are none, or the window is empty |
| `RateLimiting.ExpiryIsInvisible` | shared/utils/redis_client.py:689-690 | when every pipeline runs in the second it read, the expiry of the key never changes what a call reads |
| `RateLimiting.ExpiryIsInvisibleIff` | shared/utils/redis_client.py:682-690 | it changes nothing in any run with such delays exactly when there are none, or the window is empty |
| `RateLimiting.AdmittedSecondsAreCapped` | shared/utils/redis_client.py:691-693 | without delays, or with delays of one second and a limit of two at least, any span of one window holds at most limit distinct seconds with an admitted call |
| `RateLimiting.SecondsCappedIff` | shared/utils/redis_client.py:682-693 | the cap holds in every run with such delays exactly then, or when the limit is zero or no less than the window |
| `RateLimiting.CallsCappedIff` | shared/utils/redis_client.py:682-693 | the limit bounds the calls admitted per window in every run with such delays exactly when it is zero, or the window is empty, or it is one and there are no delays |
| `PriorityScores.ScoreIsMonotone` | services/kitchen-service/app/core/engine.py:44-75 | no factor that grows more urgent ever lowers the score |
| `PriorityScores.ScoreOfPoints` | services/kitchen-service/app/core/engine.py:44-75 | the score is, to the nearest hundredth, the sum of the points for tier, distance, delay risk, age, batch and boost, up to 200 |
| `PriorityScores.HalvesGoToEven` | services/kitchen-service/app/core/engine.py:75-75 | a score halfway between two hundredths goes to the even one |
| `PriorityScores.TypeFollowsScore` | services/kitchen-service/app/core/engine.py:76-84 | a higher score is never in a less urgent queue |
| `PriorityScores.TypeOfScore` | services/kitchen-service/app/core/engine.py:77-84 | immediate from 80 on, normal from 50 on, batch below |
| `PriorityScores.ScoreRange` | services/kitchen-service/app/core/engine.py:33-75 | with factors in their documented ranges the score lies within 0 and 200, has two decimal places, and is the capped sum to the nearest hundredth |
| `ReorderQueues.Rescore` | services/kitchen-service/app/routes/queue.py:175-191 | every entry gets its score and type recomputed, and the count is the number of entries whose score or type differs from before |
| `ReorderQueues.AssignPositions` | services/kitchen-service/app/routes/queue.py:193-196 | positions number the entries by falling score, ties in their prior order |
| `ReorderQueues.ReorderQueue` | services/kitchen-service/app/routes/queue.py:163-198 | the whole pass: scores with the types that match them, how many of them changed, and the positions |
| `ReorderQueues.TargetIs` | services/kitchen-service/app/routes/queue.py:175-191 | the score and type each entry is given, by its own time and boost |
| `ReorderQueues.RescoredIs` | services/kitchen-service/app/routes/queue.py:178-185 | rescoring comes to 45 points, one more for every 45 seconds waited up to twenty, and the boost, up to 200 |
| `ReorderQueues.AgeIsCutOff` | services/kitchen-service/app/routes/queue.py:178-178 | the age is the whole seconds waited, cut off towards zero |
| `ReorderQueues.StableOrderSorts` | services/kitchen-service/app/routes/queue.py:194-194 | the order is a permutation of the entries, sorted by falling score, and stable |
| `ReorderQueues.NumberedByOrder` | services/kitchen-service/app/routes/queue.py:193-196 | one entry is numbered before another exactly when its score is higher, or the same and it stood earlier |
| `ReorderQueues.PositionsAreAPermutation` | services/kitchen-service/app/routes/queue.py:193-196 | every position from one to n is taken by exactly one entry |
| `ReorderQueues.UrgentQueuesFirst` | services/kitchen-service/app/routes/queue.py:175-196 | after rescoring nobody in a less urgent queue is numbered before anybody in a more urgent one |
| `ReorderQueues.OlderNeverScoresLower` | services/kitchen-service/app/routes/queue.py:175-185 | an entry at least as old with at least as large a boost never scores lower |
| `KitchenQueues.QueueManager.Enqueue` | services/kitchen-service/app/core/engine.py:118-137 | ZADD into one set, and the position counted from the highest score when both commands are answered; -1 otherwise, though the member may be in |
| `KitchenQueues.QueueManager.Dequeue` | services/kitchen-service/app/core/engine.py:139-157 | the first member of the order leaves its set when ZREM runs, and the answer is True only when that is known |
| `KitchenQueues.QueueManager.GetQueue` | services/kitchen-service/app/core/engine.py:159-177 | the three sets one after the other, each from its highest score down, a set that cannot be read passed over |
| `KitchenQueues.ListingIsComplete` | services/kitchen-service/app/core/engine.py:159-177 | get_queue lists each member of every set that it can read, under its queue type, and nothing else |
| `KitchenQueues.Kitchen.SetPriority` | services/kitchen-service/app/routes/queue.py:253-300 | the row's new score, type and boost, found by UUID, and the move between the sets, found by the id as written, as far as each of the four commands gets |
| `KitchenQueues.LastRequestWins` | services/kitchen-service/app/routes/queue.py:266-300 | over any run the row has exactly the score its last set_priority asked for, explicit ones as they are and others from the factors given, the type of that score and the last boost given, and the member carries the row's score |
| `KitchenQueues.PrioritizedKeepsAgreement` | services/kitchen-service/app/routes/queue.py:286-300 | set_priority keeps every set sorted, with at most one member an order, under its row's type and score, when its removal runs and the id is written as before |
| `KitchenQueues.AgreementKeptIff` | services/kitchen-service/app/routes/queue.py:257-306 | with Redis failing anywhere and ids written in any way, it keeps this exactly when the removal runs under the spelling of the member, or there is nothing to remove, or the member that stays has the new score and no second one joins it |
| `KitchenQueues.OtherSpellingBreaks` | services/kitchen-service/app/core/engine.py:139-157 | with Redis up, another spelling of an id with a member always breaks it |
| `KitchenQueues.QueuesRefineOneList` | services/kitchen-service/app/core/engine.py:118-177 | over any run of set_priority from empty sets whose removals run and whose ids are each written one way, each order has at most one member, it has one exactly when its last set_priority added one, and get_queue lists what it can read in nonincreasing score across the sets |
| `KitchenQueues.ExactlyThoseSet` | services/kitchen-service/app/routes/queue.py:292-300 | with Redis up throughout, exactly the orders that were set have a member |
| `KitchenQueues.OneMemberIff` | services/kitchen-service/app/routes/queue.py:293-300 | an order with one member still has one after set_priority exactly when that member was in the set its row names |
| `KitchenQueues.DuplicatedAfterReorderIff` | services/kitchen-service/app/routes/queue.py:175-210 | after reorder_queue the next set_priority of an order leaves it twice exactly when rescoring had moved its row |
| `KitchenQueues.ReorderAgreesIff` | services/kitchen-service/app/routes/queue.py:175-198 | after reorder_queue the sets still agree with the rows exactly when every queued order with a member kept its score |
| `KitchenQueues.ReorderMoves` | services/kitchen-service/app/routes/queue.py:175-191 | a row that rescoring moves from the immediate to the batch queue, and the disagreement it leaves |
| `StaffAssignment.StaffAssignmentEngine.AssignStaff` | services/kitchen-service/app/core/engine.py:397-422 | the head of the pool is taken and marked busy, with either command lost on its way or run without a reply; an id is handed out only when both are answered |
| `StaffAssignment.StaffAssignmentEngine.ReleaseStaff` | services/kitchen-service/app/core/engine.py:424-441 | the busy mark goes and the member joins the end of the pool, as far as the two commands get |
| `StaffAssignment.StaffAssignmentEngine.RegisterStaff` | services/kitchen-service/app/core/engine.py:443-455 | the member joins the end of the pool when RPUSH runs, answered or not |
| `StaffAssignment.NoDoubleBooking` | services/kitchen-service/app/core/engine.py:397-455 | over any run, replies lost anywhere, no member is held by two orders or both held and available, no pool lists a member twice, and each registered member is held, available or lost, only one of these |
| `StaffAssignment.PoolsAreFifo` | services/kitchen-service/app/core/engine.py:405-455 | each pool serves first in, first out |
| `StaffAssignment.HeadIsHandedOut` | services/kitchen-service/app/core/engine.py:405-415 | when both commands are answered the head of a nonempty pool is handed out to the order and marked busy for half an hour |
| `StaffAssignment.ReleasedIsAvailable` | services/kitchen-service/app/core/engine.py:424-435 | an answered release puts the member at the end of the pool, and nobody holds it any more |
| `StaffAssignment.LostForGood` | services/kitchen-service/app/core/engine.py:405-422 | a member popped by a call that does not hand it out is never available or held again |
| `StaffAssignment.NobodyLostIff` | services/kitchen-service/app/core/engine.py:397-455 | over any run every registered member is available or held exactly when no call popped a member it did not hand out |
| `StaffAssignment.RepeatedReleaseIsSafeIff` | services/kitchen-service/app/core/engine.py:424-441 | after a release, releasing again keeps the pools free of duplicates exactly when the first RPUSH had not run |
| `StaffAssignment.RepeatedRegistrationIsSafeIff` | services/kitchen-service/app/core/engine.py:443-455 | after a registration, registering again keeps them so exactly when the first RPUSH had not run |
| `EventDelivery.EventDedupStore.IsDuplicate` | shared/utils/kafka_client.py:113-136 | the answer, and the entry forgotten when it is found expired |
| `EventDelivery.EventDedupStore.MarkProcessed` | shared/utils/kafka_client.py:138-148 | the id counts as processed until the TTL is over |
| `EventDelivery.EventDedupStore.CleanupExpired` | shared/utils/kafka_client.py:150-173 | exactly the expired entries go, and are counted |
| `EventDelivery.KafkaConsumer.HandleFailure` | shared/utils/kafka_client.py:880-918 | the retry count rises, or the message goes to the dead letter queue and its count is forgotten |
| `EventDelivery.KafkaConsumer.ConsumeLoop` | shared/utils/kafka_client.py:794-852 | the fold of one turn over the messages polled while running |
| `EventDelivery.AtMostOncePerTtl` | shared/utils/kafka_client.py:107-148 | in one loop two successful handlings of messages that share an id lie more than the TTL apart |
| `EventDelivery.WithinTtlIffOverlapping` | shared/utils/kafka_client.py:654-661 | in several loops over one store, with cleanups anywhere, two successful handlings of one id lie more than the TTL apart exactly when the later one was looked up after the other was marked |
| `EventDelivery.DuplicateIffRecentlyHandled` | shared/utils/kafka_client.py:809-833 | after any run a message is skipped exactly when a message that shares its id was handled successfully no longer than the TTL ago |
| `EventDelivery.SharedIdIff` | shared/utils/kafka_client.py:855-878 | two messages share an id exactly when both carry the same one, or neither carries one and key text and offset are the same, whatever topic and partition, or one carries what the other's key and offset read like |
| `EventDelivery.KeylessReadsNone` | shared/utils/kafka_client.py:874-878 | a message without id and key counts under None and its offset, as one with the key None does |
| `EventDelivery.SkippedAfterAnotherIff` | shared/utils/kafka_client.py:809-821 | after any run and one more handling, another message is skipped exactly when its event was handled before or it shares the id of that one and comes within the TTL; a new event id is never skipped |
| `EventDelivery.EachCommittedOnce` | shared/utils/kafka_client.py:809-847 | every message polled is committed once, in order |
| `EventDelivery.DeadLettersIffOneTry` | shared/utils/kafka_client.py:835-918 | all failed messages reach the dead letter queue when at most one try is allowed, and none otherwise |
| `EventDelivery.DeadLetterEveryMaxRetries` | shared/utils/kafka_client.py:880-918 | a message that failed again and again would be dead-lettered on every max_retries-th failure |
| `EventDelivery.CleanupIsInvisible` | shared/utils/kafka_client.py:150-173 | inserting cleanup_expired anywhere, between turns or while a handler is awaited, changes nothing that is handled, committed, counted or dead-lettered |
| `ReplayLog.KafkaRecoveryService.ReplayFallbackLog` | shared/utils/kafka_client.py:483-573 | one pass over the log: what is sent, what is kept, and the two counts |
| `ReplayLog.PassCounts` | shared/utils/kafka_client.py:497-573 | replayed + failed is the number of lines that are not blank, and replayed the number published |
| `ReplayLog.PassPublishesExactly` | shared/utils/kafka_client.py:497-565 | a pass publishes exactly the entries tried fewer than three times whose publishing succeeds, in order, and keeps exactly those whose publishing failed and the lines it cannot read |
| `ReplayLog.PassConserves` | shared/utils/kafka_client.py:497-565 | what a pass keeps is the log with lines left out, unchanged and in order; entries that can be published are divided between published and kept |
| `ReplayLog.ReplayConserves` | shared/utils/kafka_client.py:483-573 | over any number of passes with any outcomes every entry below the limit is published once or still in the log |
| `ReplayLog.LimitIsNeverReached` | shared/utils/kafka_client.py:507-552 | while publishing fails the first pass drops what can never be published and later passes change nothing |
| `GstChecksum.ValidateGstChecksum` | services/compliance-service/app/routes/compliance.py:195-222 | the loop accepts exactly the strings whose fifteenth character is the check character of the first fourteen; short strings are refused |
| `GstChecksum.ExactlyOneCheckCharacter` | services/compliance-service/app/routes/compliance.py:210-220 | each prefix of fourteen characters has exactly one accepted check character |
| `GstChecksum.SingleChangeIsRejected` | services/compliance-service/app/routes/compliance.py:210-220 | every change of one character is rejected |
| `GstChecksum.NeighbourSwapAcceptedIff` | services/compliance-service/app/routes/compliance.py:210-220 | a swap of two different neighbours is accepted exactly when they are '0' and 'Z' |
| `GstChecksum.ValueIsPlace` | services/compliance-service/app/routes/compliance.py:203-210 | a character's value is its place among digits and capitals |
| `GstChecksum.KnownNumber` | services/compliance-service/app/routes/compliance.py:211-220 | 27AABCU9603R1Z has the check character N |
| `Compliance.FssaiRoundTrip` | services/compliance-service/app/routes/compliance.py:74-136 | a licence number put together from its parts is read back into them, or refused for the first part out of range, whatever white space surrounds it |
| `Compliance.FssaiStaysValid` | services/compliance-service/app/routes/compliance.py:110-117 | a licence valid in one year is valid in every later one |
| `Compliance.GstRoundTrip` | services/compliance-service/app/routes/compliance.py:139-192 | a tax number put together from its parts, in any case and with any white space around it, is read back into them with its one check character, and refused for a bad state or any other check character |
| `Compliance.MistypedGstinIsInvalid` | services/compliance-service/app/routes/compliance.py:139-192 | one mistyped character makes a valid number invalid |
| `Compliance.SwappedGstinIsInvalid` | services/compliance-service/app/routes/compliance.py:139-192 | swapping any two different neighbours makes a valid number invalid, '0' and 'Z' included |
| `Compliance.ComplianceService.RegisterVendorCompliance` | services/compliance-service/app/routes/compliance.py:1283-1403 | what registration stores; updating a record and creating one come to the same |
| `Compliance.ComplianceService.RunComplianceCheck` | services/compliance-service/app/routes/compliance.py:654-742 | the answer of a check and what it stores, a record for an unknown vendor included; an unknown kind is refused |
| `Compliance.ComplianceService.CheckFssaiCompliance` | services/compliance-service/app/routes/compliance.py:745-864 | a vendor's licence check answers with the recomputed licence status, PENDING when nothing is on file |
| `Compliance.ComplianceService.CheckGstCompliance` | services/compliance-service/app/routes/compliance.py:867-982 | the same for the tax number |
| `Compliance.ComplianceService.CheckDpdpCompliance` | services/compliance-service/app/routes/compliance.py:985-1080 | PASSED for the flag, else FAILED when consent or policy is missing |
| `Compliance.ComplianceService.CheckRbiCompliance` | services/compliance-service/app/routes/compliance.py:1083-1172 | PASSED for the flag, else FAILED when one of the three items is missing |
| `Compliance.ComplianceService.UpdateVendorCompliance` | services/compliance-service/app/routes/compliance.py:1421-1494 | the flag follows the answer and the stored status is recomputed from the flags |
| `Compliance.RunKeepsSound` | services/compliance-service/app/routes/compliance.py:1283-1494 | over any run in which years do not go back, no flag says more than what is on file, and stored status and onboarding follow the flags |
| `Compliance.StoredAgreesWithRecomputation` | services/compliance-service/app/routes/compliance.py:225-367 | over any run the stored status is PASSED exactly when check_compliance_status says so, then and in any later year |
| `Compliance.PassedExactly` | services/compliance-service/app/routes/compliance.py:1283-1494 | over any run what is on file is what was last given, and the store says PASSED exactly when the last licence was valid in the year it was given, the last tax number is valid, and the last form states everything else |
| `Compliance.ChecksFlipNothing` | services/compliance-service/app/routes/compliance.py:654-742 | checks alone, however many, flip no verified flag and touch nothing on file |
| `Compliance.ChecksAnswerTheFlags` | services/compliance-service/app/routes/compliance.py:745-1172 | a check answers PASSED exactly for what is marked verified and FAILED exactly for what is given and does not hold, and the store says PASSED exactly when all four would |
| `Compliance.CheckWithdrawsFlags` | services/compliance-service/app/routes/compliance.py:1445-1466 | of any record a check withdraws the flag of a number that does not hold, and changes no other flag |
| `Compliance.UnknownIsPending` | services/compliance-service/app/routes/compliance.py:249-258 | everything about an unknown vendor is PENDING, also the record a check leaves |
| `Compliance.AgreeAfterCheckIff` | services/compliance-service/app/routes/compliance.py:1468-1492 | after a check the store and the recomputation give the same status exactly when there is a failure both see, or neither or both of an early licence and a policy without consent |
| `Compliance.AgreeAfterRegisterIff` | services/compliance-service/app/routes/compliance.py:1327-1341 | after a registration they give the same status exactly when the recomputation sees no failure |
| `Compliance.StatusRoutePassesIff` | services/compliance-service/app/routes/compliance.py:370-518 | the status route says PASSED for what the store passes, and beyond that exactly for a licence registered before its year with all else verified; and FAILED exactly for a number on file that does not hold or an item missing |
| `Compliance.StoreAndRecomputationCanDiffer` | services/compliance-service/app/routes/compliance.py:1302-1341 | both differences occur, on a concrete form |
| `DriftDetection.FeatureDistributionTracker.Update` | shared/utils/ml_validation.py:74-94 | a finite observation slides into its feature's window, anything else is ignored, and no other feature changes |
| `DriftDetection.FeatureDistributionTracker.GetDistribution` | shared/utils/ml_validation.py:148-184 | count, mean and sample variance of the window |
| `DriftDetection.FeatureDistributionTracker.DetectDrift` | shared/utils/ml_validation.py:96-146 | the drift test on the feature's window; unknown features, small windows and values that are not finite never drift |
| `DriftDetection.DriftsIff` | shared/utils/ml_validation.py:127-146 | a value drifts when its squared distance from the mean exceeds z squared variances, or it differs from the mean of a window without spread |
| `DriftDetection.MeanAndVarianceAre` | shared/utils/ml_validation.py:165-178 | the window balances around the mean, and the variance is what its squares exceed those of the mean by, over n - 1 |
| `DriftDetection.WindowIsLastFinite` | shared/utils/ml_validation.py:74-94 | over any run the window is the last finite observations, as many as it has room for |
| `DriftDetection.FlagsObeyChebyshev` | shared/utils/ml_validation.py:96-146 | with enough samples, a positive threshold and some spread, fewer than (n - 1) / z^2 elements of the window are flagged by its own test |
| `DriftDetection.ConstantWindow` | shared/utils/ml_validation.py:127-146 | a window without spread flags none of its elements, and every other value |
| `MoneyAmounts.RoundIsNearest` | shared/money.py:55-68 | rounding moves an amount by half a paisa at most, and treats amounts below zero as those above |
| `MoneyAmounts.PlusMinus` | shared/money.py:174-184 | a sum is refused exactly when it is below zero, and otherwise taking the addend away gives the amount back |
| `MoneyAmounts.GstSplitsExactly` | shared/money.py:309-354 | the tax is within half a paisa, its parts add up to it, and within a state cgst exceeds sgst by at most one paisa |
| `MoneyAmounts.PayoutConserves` | shared/money.py:384-406 | commission, its GST and net payout add up to the revenue, the net is within 1.09 paise of revenue * (1 - 1.18 * rate), and it alone is in the default currency |
| `MoneyAmounts.PartsAreNearest` | shared/money.py:398-400 | the commission is within half a paisa of revenue * rate, and its tax within half a paisa of 18 percent of it |
| `MoneyAmounts.PayoutIsNotNegative` | shared/money.py:384-406 | for a rate below five sixths the payout is made and the net is not negative |
| `MoneyAmounts.PayoutIsCoveredIff` | shared/money.py:384-406 | the payout is made and not negative for every revenue exactly for rates from zero to below five sixths |
| `MoneyAmounts.HighRateCanOverdraw` | shared/money.py:384-406 | at a rate of 0.84 three paise are overdrawn by one, although the exact net is positive |
| `CompensationRules.CompensationSaturates` | services/compensation-service/app/core/engine.py:72-93 | for any sequence of reasons the total is the sum of the rules' shares cut off at the order amount and the maximum |
| `CompensationRules.FirstCall` | services/compensation-service/app/core/engine.py:42-93 | on a first call, saying nothing of earlier compensation is the same as saying there was none |
| `CompensationRules.FirstCompensation` | services/compensation-service/app/core/engine.py:19-93 | a first call gives back all, a half, a fifth or a tenth of the order by its reason, rounded, cut off at the order amount and 5000 rupees |
| `CompensationRules.CapFlagIsExact` | services/compensation-service/app/core/engine.py:72-105 | the cap flag says exactly that something of the rule's share was cut off |
| `CompensationRules.OrderOfCallsIsImmaterial` | services/compensation-service/app/core/engine.py:72-93 | the total does not depend on the order of the reasons |

## Left out

- Routes as plumbing, sessions, clients of Kafka, Razorpay and Redis, files, logging, tracing, tokens and hashing.
- `update_data` that names the id or tenant columns, deleted rows, stale reads from a session's identity map, and a version read back after a later commit.
- The branch of `update_kitchen` that writes without a version check, and `services/compliance-service/app/core/vendor_update.py`, which the routes do not call.
- The breaker's metrics counters, `call` and `protect`, and the registry of breakers; for locks and rate limits the breaker in front of Redis is only whether it allows the call.
- Queue positions in `set_priority`: its documentation says that they are updated in the database, but the code leaves them alone.
- JSON encoding of the sorted sets' members: among equal scores they are ordered by UUID, spelling and time.
- Floating point: scores, times, windows and standard deviations are real numbers, and deviations are compared squared; infinities and NaN occur only as observations to be ignored.
- Commits that fail in the consume loop, redelivery after a restart, and consumers without a dedup store.
- Writing the log back when that fails, and logging to it while a pass runs.
- `PredictionValidator`, `RuleBasedETAFallback` and `MLDriftMonitor`: they clamp single predictions and count events, and hang on rules of thumb for travel and cooking times.
- Making Money from strings and other types, division and comparison, and the limit of 28 digits.
- Compliance.ComplianceService.RunComplianceCheck: models checks of vendors only, and not the row that records each check; a check of another entity touches no vendor record.
- In compliance the 20-character limit of the columns, time stamps, warnings and details.
- The order and payment transition tables, the batch engine and the throughput monitor.
- OptimisticLocking.NoLostUpdate: assumes that every writer of the row goes through optimistic_update, since the code guards no other way.
- RedisLocks.MutualExclusion: assumes owners with distinct values who work only before the deadline last granted to them; the code cannot enforce either.
- EventDelivery.DeadLettersIffOneTry: assumes that Kafka hands out each position once, as it does while every message is committed and the consumer is not restarted.
- StaffAssignment.NoDoubleBooking: assumes that each id is registered once and released by the order that holds it, and not again once its push ran, which the engine leaves to its callers; `RepeatedReleaseIsSafeIff` says what happens otherwise.
- KitchenQueues.QueuesRefineOneList: is about runs in which every removal gets through and each id is written one way; `AgreementKeptIff` says what is left otherwise.
- `enqueue` and `dequeue` called from other services: the agreement is proved for runs of `set_priority`.
