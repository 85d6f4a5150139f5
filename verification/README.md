# TalentLens backend: a verified model

This project models the parts of the TalentLens serving backend that hold state or
arithmetic, and proves properties of them for all inputs and all runs:

- the durable task queue, and the screening runs whose workers drain it (`WorkflowQueue`,
  `ScreeningRuns`);
- the provider token buckets and the request limiter, both sliding windows
  (`SlidingWindow`, `RateLimiter`, `RequestLimiter`);
- the tamper-evident audit chain, and the locking protocol that writes it
  (`AuditChain`, `AuditProtocol`);
- rubric weights, the content hash, the version lifecycle and its four calls, and what the order
  of submitted rows changes (`Weights`, `WeightOrder`, `ContentHash`, `RubricStore`, `RubricCalls`,
  `RowOrder`);
- judging in batches, score aggregation and its rules, its link to the stored rubrics, screening
  runs that are interrupted and resumed, the scores they store, and evidence quotes (`Judging`,
  `Scoring`, `ScoreRules`, `ApprovedRubrics`, `Screening`, `JudgedScores`, `Evidence`);
- the JSON object scanner and the answer parser on top of it (`JsonScanner`, `ModelAnswers`);
- page offsets, sections, word chunks, the chunk tree, its origins and page ranges, and batched
  embedding (`Pages`, `Sections`, `WordChunks`, `Chunking`, `ChunkOrigins`, `ChunkPages`,
  `Indexing`);
- rank fusion and grouping by candidate (`Fusion`).

`Wrappers`, `Sorting`, `Sums`, `Batching` and `Text` hold the vocabulary shared by these.

## How the model is built

Objects whose methods change fields are classes (`WorkflowRunner`, `TokenBucket`,
`RateLimitScheduler`, `Limiter`, `AuditLog`, `RubricService`, `ScreeningRun`), loops are methods
with invariants, and each of them is tied by its postcondition to a pure specification function
of the old state. The theorems are lemmas about those functions: invariants over every
sequence of steps, refinement of an unbounded memory, round trips, conservation of a budget or of
a text's words, independence of order.

- **Two kinds of theorem.** Invariants and laws over whole runs are stated about the specification
  functions. Beside them, for each operation, a lemma says what it does in terms of its arguments
  and the columns it reads and writes, with the constants written out and without the functions
  that compute it: what a failed task waits for, what a registered key allows, which fields of an
  event a digest tells apart, what an edit stores, what a verdict earns, what an answer is read as.

- **Queue.** Every method of the runner is one transaction, hence one step. Reports by workers
  that were given up are ordinary steps, because `complete` and `fail` look at neither the status
  nor the claimant. `ScreeningRuns` puts the runs' statuses and the workers around the queue:
  admission, claim, the committed status and the report are separate steps between which a
  worker may stop and others may act. Runs are numbered in the order of admission.
- **Limiters.** The stored lists are pruned; the model keeps the full history beside them and
  states decisions, waits and bounds about the history. The clock is a nondecreasing real, read
  separately by a check and by the consumption that follows it, and by each of the three buckets
  of a wait.
- **Audit.** The digest is an arbitrary function of the hashed payload. Nothing is assumed of it:
  where security rests on collisions being hard to find, the theorem names two payloads of the
  chains at hand that collide.
- **Weights.** Input weights are exact numbers, results whole units of 0.0001. Points are whole
  hundredths. Requirement rows are values inside their version.
- **Screening.** A judge is a function from a profile and a batch to an answer, which may be
  missing. An attempt's judge is any part of it. Attempts see of a judge only the score it leads
  to for each profile (`Screening.ScorerOf`). `Scoring.Requirement` is the columns of a stored row
  that aggregation reads; `ApprovedRubrics` derives it from the store's rows.
- **JSON.** Balanced text is a grammar of neutral characters, string literals and braced groups;
  the scanner is proved sound and complete for it.
- **Chunking.** Chunk identifiers are positions; the source draws fresh random names.

## Where the code and its documentation part

- `normalize_weights` documents that left-over units go to the largest weights; the code gives
  them to the largest fractional parts, and ties to the earlier row
  (serving/app/services/rubric.py:143-151). `Weights.LargestWeightIsPassedOver` shows weights 6
  and 1, where the rules differ; `Weights.DocumentedRuleAgreesIff` says exactly when they agree.
- The content hash is documented as independent of row order. It is a function of the
  normalized criteria only, but normalization breaks ties by position. The hashed text of an
  accepted submission is the same in every order of its rows if and only if every tie that
  position decides is between rows of equal weight and equal hashed content
  (`RowOrder.TextIgnoresOrderIff`); `RowOrder.EqualRowsExchanged` shows two orders that hash
  different text. Order also decides acceptance: `WeightOrder.OrderDecidesAcceptance` shows
  weights accepted in one order and refused in another, `WeightOrder.AcceptedInEveryOrderIff`
  says exactly when that cannot happen.
- "At most one approved version per job" fails when a second draft is approved beside an
  approved version: `RubricStore.OneApprovedFailsReachably` gets there from a new job, and
  `RubricStore.OneApprovedIffNoSecondApproval` gives the exact condition.
- "Done is final" fails for a late failure report, and only for that
  (`WorkflowQueue.DoneUnlessReportedFailed`); `WorkflowQueue.DoneIsNotFinal` gets there from the
  empty queue.
- A `queued` run need not have a pending task: its task is also claimed while it executes or
  after a crash (`ScreeningRuns.ClaimedRunIsQueued`), or failed for good after a retryable failure
  of the last attempt (`ScreeningRuns.ExhaustedRunIsQueued`). Over every run these are the only
  cases as long as no worker writes or reports after losing its claim
  (`ScreeningRuns.QueuedRunsAreAccountedFor`). A late worker can leave a run queued with a task
  that is done (`ScreeningRuns.LateWriteStrandsRun`); `ScreeningRuns.AlwaysAccountedIff` says
  exactly which steps do.
- Cutting off the newest audit events is not detected (`AuditChain.TruncationIsNotDetected`).
- `execute_screening_run` returns the scores in the order they were stored the first time and in
  rank order when called again on a completed run. `Screening.SecondCallReorders` shows two
  candidates for which the lists differ; they are the same if and only if no candidate scores
  higher than one with a smaller id (`Screening.SecondCallRepeatsFirstIff`), and after
  interruptions if and only if the rows were stored best first
  (`Screening.FurtherCallRepeatsIff`).
- The "outermost" JSON object is the first braced group of the answer: a group of braces in the
  introduction is taken instead (`JsonScanner.PlaceholderIsExtracted`,
  `JsonScanner.ExtractSucceedsIffGroup`).
- The check that embeddings are aligned compares totals only
  (`Indexing.TotalCheckMissesShiftedVectors`, `Indexing.AlignedIffEachBatchExact`).
- Page numbers of chunks are documented as counted from zero; the parser counts from one.

## Model

| member | source | states |
|---|---|---|
| WorkflowQueue.StepKeepsInv | serving/app/services/workflow_runner.py:73-246 | every step of any worker, late reports included, keeps `attempt` within the retry limit plus the run's resumptions, strictly below it while pending |
| WorkflowQueue.StepKeepsRows | serving/app/services/workflow_runner.py:73-246 | no step loses a task or changes its run, stage or retry limit |
| WorkflowQueue.ReadyIdsAreReady | serving/app/services/workflow_runner.py:155-169 | a claim takes at most the limit, only pending rows whose start time has come, in id order |
| WorkflowQueue.ReadyIdsAreOldest | serving/app/services/workflow_runner.py:155-169 | a ready row is passed over only when older ready rows used up the limit |
| WorkflowQueue.ClaimedRow | serving/app/services/workflow_runner.py:154-178 | a row is taken if and only if it is of the run and stage, pending and due, and fewer such rows than the limit come before it; a taken row is claimed by this worker, now, with one attempt more, any other is left alone |
| WorkflowQueue.EnqueuedRow | serving/app/services/workflow_runner.py:83-97 | new rows wait unclaimed, without a start time, for the first of three attempts |
| WorkflowQueue.FailedRow | serving/app/services/workflow_runner.py:193-229 | a quota failure restarts after what the provider asked, at least a second, or a minute when it asked nothing, and gives the attempt back; a transient failure with attempts left restarts after 1, 1, 2, 4 up to 256 and then 300 seconds; any other is final; the claim is cleared and the failure noted |
| WorkflowQueue.RecoveredRow | serving/app/services/workflow_runner.py:99-133 | exactly the rows claimed before the cutoff become pending and unclaimed, and their run counts one resumption more |
| WorkflowQueue.UnrecoveredRun | serving/app/services/workflow_runner.py:99-133 | a run without an old claim keeps its checkpoint |
| WorkflowQueue.AttemptIsClaimsLessRefunds | serving/app/services/workflow_runner.py:99-229 | over every run, `attempt` grows by claims less quota refunds and `resumed_count` by recoveries |
| WorkflowQueue.RunKeepsInv | serving/app/services/workflow_runner.py:73-246 | the bounds hold at the end of every run |
| WorkflowQueue.ClaimsAreBounded | serving/app/services/workflow_runner.py:99-229 | total claims of a task never exceed its retry limit plus resumptions plus refunds |
| WorkflowQueue.HeldTasksAreNotClaimed | serving/app/services/workflow_runner.py:135-180 | a task that is not pending is not handed out until something puts it back |
| WorkflowQueue.NoDoubleClaim | serving/app/services/workflow_runner.py:135-180 | between two claims of a task a failure report or recovery requeued it |
| WorkflowQueue.NotBeforeIsRespected | serving/app/services/workflow_runner.py:155-229 | a task with a start time is not handed out before it, recoveries notwithstanding |
| WorkflowQueue.DoneUnlessReportedFailed | serving/app/services/workflow_runner.py:182-229 | a done task stays done in a step if and only if the step is not a failure report for it |
| WorkflowQueue.DoneIsNotFinal | serving/app/services/workflow_runner.py:99-229 | from the empty queue, a task done by its second claimant is put back by the first one's late failure and handed out again |
| WorkflowQueue.DoneStaysDone | serving/app/services/workflow_runner.py:182-229 | without reports for it, a done task stays done and is never claimed over a whole run |
| WorkflowQueue.DelayDoublesUpToCap | serving/app/services/workflow_runner.py:29-31 | retry delays start at one second, double with each attempt and stop at 300 |
| WorkflowQueue.StepConservesBudget | serving/app/services/workflow_runner.py:73-229 | each claim spends one unit of the remaining retry budget; only enqueues, refunds and recoveries add to it |
| WorkflowQueue.ClaimsSpendTheBudget | serving/app/services/workflow_runner.py:73-229 | over every run budget left plus claims handed out equals initial budget plus what was added |
| WorkflowQueue.QueueRunsDry | serving/app/services/workflow_runner.py:73-229 | once enqueues, quota refunds and recoveries stop, at most the budget many claims remain |
| ScreeningRuns.ClaimedTaskStays | serving/app/routers/screening.py:428-444 | a claimed task stays as it is over every sequence of steps that neither report on it nor recover it |
| ScreeningRuns.DrainSettlesOldestReady | serving/app/routers/screening.py:428-444 | a drain settles the oldest ready task of the run as done, requeued later or failed, whatever others do between claim and report, and leaves their tasks as they left them |
| ScreeningRuns.ReportedRow | serving/app/routers/screening.py:437-444 | success stores the outcome; a quota failure restarts after a minute, a transient one after the backoff, an empty code counting as unknown; any other is final |
| ScreeningRuns.WrittenStatus | serving/app/routers/screening.py:447-526 | an execution commits once, completed, queued for the six reschedulable codes, or failed, and nothing else; only a failure after a successful commit overwrites it |
| ScreeningRuns.BeginClaims | serving/app/routers/screening.py:428-436 | a new worker claims its run's task if and only if that is ready, and then holds it |
| ScreeningRuns.WorkerLeaves | serving/app/routers/screening.py:437-444 | a worker reports exactly what it wrote and is gone, or is gone without a report |
| ScreeningRuns.PlayIsQueueRun | serving/app/workers/screening.py:17-24 | every run of admissions, workers and sweeps is a run of the queue, so the bounds on attempts and claims hold for it |
| ScreeningRuns.PlayKeepsInStep | serving/app/routers/screening.py:428-526 | over every run, a claim holder's written status is the run's status until it reports, and a queued run has a task to wait for, late acts excepted |
| ScreeningRuns.QueuedRunsAreAccountedFor | serving/app/routers/screening.py:511-526 | over every run without a late act on it, a queued run has no pending task if and only if its task is claimed or a retryable failure used up the last attempt |
| ScreeningRuns.AccountedIffNotStranded | serving/app/routers/screening.py:428-526 | one step, late or not, leaves a queued run with nothing to wait for if and only if it queues a run whose task is settled or settles the task of a run that stays queued |
| ScreeningRuns.AlwaysAccountedIff | serving/app/routers/screening.py:428-526 | over every run, late acts included, a queued run has a task to wait for at every moment if and only if no such step occurs |
| ScreeningRuns.ClaimedRunIsQueued | serving/app/routers/screening.py:136-160 | from the start, a run that was admitted and claimed is queued without a pending task |
| ScreeningRuns.ExhaustedRunIsQueued | serving/app/services/workflow_runner.py:218-226 | from the start, three network failures leave a run queued with a failed task |
| ScreeningRuns.LateWriteStrandsRun | serving/app/routers/screening.py:511-517 | from the start, a worker whose claim was recovered leaves a run queued whose task is done |
| WorkflowQueue.WorkflowRunner.EnqueueTasks | serving/app/services/workflow_runner.py:73-97 | appends pending tasks with fresh ascending ids |
| WorkflowQueue.WorkflowRunner.ClaimTasks | serving/app/services/workflow_runner.py:135-180 | marks exactly the selected rows claimed, by this worker, now, one attempt more |
| WorkflowQueue.WorkflowRunner.SelectReady | serving/app/services/workflow_runner.py:155-169 | returns the oldest ready ids up to the limit |
| WorkflowQueue.WorkflowRunner.CompleteTask | serving/app/services/workflow_runner.py:182-191 | sets status and outcome of the task whatever its status and claimant |
| WorkflowQueue.WorkflowRunner.FailTask | serving/app/services/workflow_runner.py:193-229 | the failure step on the task it names, every other row untouched; what it writes is `FailedRow` |
| WorkflowQueue.WorkflowRunner.RecoverClaimed | serving/app/services/workflow_runner.py:99-133 | the recovery step, returning the runs that had an old claim; what it writes is `RecoveredRow` |
| WorkflowQueue.WorkflowRunner.Beat | serving/app/services/workflow_runner.py:231-247 | creates or refreshes the run's checkpoint and nothing else |
| ScreeningRuns.BeginDrain | serving/app/routers/screening.py:430-433 | claims at most one task of the run, the oldest ready one |
| ScreeningRuns.SettleDrain | serving/app/routers/screening.py:437-444 | reports success as completion and a failure with its code, an empty code as unknown, whoever holds the task |
| SlidingWindow.ExpiredCount | serving/app/services/rate_limiter.py:49-66 | at least n stamps of an ordered list have expired if and only if the n-th oldest has |
| SlidingWindow.GrantKeepsWindows | serving/app/services/rate_limiter.py:31-40 | granting what the pruned list left room for keeps every window within capacity |
| RateLimiter.PrunedInv | serving/app/services/rate_limiter.py:31-36 | after pruning the stored list is the full grant history filtered to the window |
| RateLimiter.DecisionIgnoresPruning | serving/app/services/rate_limiter.py:31-36 | the pruned bucket decides as one that never forgets |
| RateLimiter.ConsumedInv | serving/app/services/rate_limiter.py:38-40 | consuming what had room keeps the window bound over the whole history |
| RateLimiter.OldestNeededDecides | serving/app/services/rate_limiter.py:49-66 | room opens exactly when the needed-th oldest stamp leaves the window |
| RateLimiter.WaitIsLeast | serving/app/services/rate_limiter.py:49-66 | the estimated wait is zero if and only if there is room, sound, and least above the one-second floor; oversized requests never get room |
| RateLimiter.LongestWaitIsOneOfThem | serving/app/services/rate_limiter.py:141-145 | the wait is no less than each of the three and equal to one of them |
| RateLimiter.ReserveStep | serving/app/services/rate_limiter.py:106-127 | a reservation is granted if and only if all three histories leave room; refused, it consumes from none |
| RateLimiter.ReservationsStayWithinBudget | serving/app/services/rate_limiter.py:31-40 | over every sequence of reservations no window of TPM, RPM or RPD exceeds capacity, and each stored list is the filtered history |
| RateLimiter.LongestWaitSuffices | serving/app/services/rate_limiter.py:129-145 | with each bucket pruned at its own clock reading, a reservation that fits and comes the longest wait after the last reading is granted |
| RateLimiter.WaitingGetsTheReservation | serving/app/services/rate_limiter.py:106-145 | the same from any state of the key: three readings, three prunings, the longest wait, then the reservation |
| RateLimiter.NewKeyInv | serving/app/services/rate_limiter.py:90-104 | a newly registered key starts sound; its limits are `RegisteredLimitsHold` |
| RateLimiter.RegisteredLimitsHold | serving/app/services/rate_limiter.py:90-127 | from a newly registered key, over every ordered sequence of requests, at most tpm tokens and rpm requests are granted in any 60 seconds and at most rpd requests in any 86400, zero standing for 1000000, 1500 and 1500 |
| RateLimiter.RefusedOnlyOverLimit | serving/app/services/rate_limiter.py:90-127 | after any requests the next is granted if and only if its tokens and itself fit these limits beside what the last minute and the last day were granted |
| RateLimiter.TokenBucket.HasCapacity | serving/app/services/rate_limiter.py:31-36 | prunes in place and answers as the whole history would |
| RateLimiter.ConsumptionTakesItsTokens | serving/app/services/rate_limiter.py:38-40 | a consumption takes exactly its own tokens from what any later request is allowed until the window has passed over it, and nothing afterwards |
| RateLimiter.TokenBucket.Consume | serving/app/services/rate_limiter.py:38-40 | after a check that found room the window bound is kept, and every later decision, at any time, is that of the bucket before with the taken tokens asked for in addition while they still count |
| RateLimiter.TokenBucket.TryConsume | serving/app/services/rate_limiter.py:42-47 | grants all tokens if the history has room, otherwise none |
| RateLimiter.TokenBucket.EstimatedWait | serving/app/services/rate_limiter.py:49-66 | prunes in place and returns the wait |
| RateLimiter.ReserveFrom | serving/app/services/rate_limiter.py:106-127 | checks all three buckets before consuming from any |
| RateLimiter.RateLimitScheduler.RegisterKey | serving/app/services/rate_limiter.py:90-104 | gives the key three unshared buckets, in the state `RegisteredLimitsHold` is about, and leaves other keys alone |
| RateLimiter.RateLimitScheduler.TryReserve | serving/app/services/rate_limiter.py:106-127 | registers an unknown key with defaults, then reserves; other keys are untouched |
| RateLimiter.RateLimitScheduler.EstimatedWait | serving/app/services/rate_limiter.py:129-145 | each bucket pruned at its own reading, the longest of the three waits, zero for an unknown key; a reservation that fits is granted after it |
| RequestLimiter.StepRefines | serving/app/main.py:98-125 | one call answers as a limiter that never forgets, eviction included |
| RequestLimiter.ReferenceStaysWithinLimit | serving/app/main.py:119-125 | the reference admits at most 20 requests of a key in any 60-second window |
| RequestLimiter.EvictionIsInvisible | serving/app/main.py:98-125 | for every request sequence the evicting limiter gives the answers of the reference, which stays within the limit |
| RequestLimiter.FreshStart | serving/app/main.py:98-125 | the same from an empty process |
| RequestLimiter.RefusedExactlyAtTwenty | serving/app/main.py:98-125 | from an empty process a request is refused if and only if 20 requests of its key were admitted in the 60 seconds before it |
| RequestLimiter.AtMostTwentyAdmitted | serving/app/main.py:98-125 | no 60 seconds see more than 20 admissions of a key |
| RequestLimiter.IdleKeysAreDropped | serving/app/main.py:114-117 | with more than 10000 keys tracked, exactly the other keys idle for 60 seconds are dropped |
| RequestLimiter.StampsAfter | serving/app/main.py:119 | keeps exactly the stamps inside the window, in order |
| RequestLimiter.Limiter.IsRateLimited | serving/app/main.py:98-125 | evicts, prunes and records in place as the step does |
| AuditChain.LockKeyIsFirstEightBytes | serving/app/services/audit.py:17-20 | keys are signed 64-bit and shared by two tenants if and only if their first eight bytes agree |
| AuditChain.VerifyAuditChain | serving/app/services/audit.py:104-123 | returns nothing if and only if every event continues the one before it with its own hash, else the first that does not |
| AuditChain.FirstBreakIsUnique | serving/app/services/audit.py:104-123 | the reported event is determined |
| AuditChain.ChainedLinks | serving/app/services/audit.py:104-123 | in a sound chain the first event has no link and every later one carries the hash before it |
| AuditChain.PayloadTellsContents | serving/app/services/audit.py:23-49 | the hashed payload tells apart links, tenants, users, actions, resources, times, details, addresses and requests, a missing field counting as an empty one, and nothing else |
| AuditChain.TruncationIsNotDetected | serving/app/services/audit.py:104-123 | every prefix of a sound chain verifies |
| AuditChain.HeadCommitsToHistory | serving/app/services/audit.py:23-123 | two sound chains with the same head hold the same tenant and contents, field by field, the same links and hashes at every position, or two of their payloads collide |
| AuditChain.AlteredEventIsReported | serving/app/services/audit.py:36-123 | an event altered in tenant, user, action, resource, time, details, address or request is the one reported unless its payload collides with the original; one altered in none of these goes unreported |
| AuditChain.RehashedEventIsReportedNext | serving/app/services/audit.py:104-123 | recomputing the altered event's own hash moves the report to the next event |
| AuditChain.RecordingKeepsChain | serving/app/services/audit.py:64-101 | recording from the head keeps a chain sound |
| AuditChain.AuditLog.LastHash | serving/app/services/audit.py:66-72 | the hash of the tenant's latest event |
| AuditChain.AuditLog.RecordAuditEvent | serving/app/services/audit.py:52-101 | appends one event with the tenant and content given, linked to the tenant's latest hash, and keeps every tenant's chain sound |
| AuditProtocol.OneHolder | serving/app/services/audit.py:64-65 | uncommitted events of one tenant belong to one transaction |
| AuditProtocol.TakeLockKeepsInv | serving/app/services/audit.py:64-65 | taking a lock, shared keys included, keeps the invariant |
| AuditProtocol.ReadLastKeepsInv | serving/app/services/audit.py:66-72 | what a lock holder reads as last event stays the last until it appends |
| AuditProtocol.AppendKeepsInv | serving/app/services/audit.py:73-101 | appending to what was read keeps the tenant's chain sound |
| AuditProtocol.CommitKeepsInv | serving/app/services/audit.py:52-101 | committing keeps committed chains sound |
| AuditProtocol.RollbackKeepsInv | serving/app/services/audit.py:52-101 | rolling back leaves a sound prefix of every chain |
| AuditProtocol.RunKeepsInv | serving/app/services/audit.py:52-101 | every interleaving keeps the invariant |
| AuditProtocol.RecordingIsStored | serving/app/services/audit.py:52-101 | a transaction that can take the lock can record and commit; its event is stored last with the tenant and content given, and what others stored stays |
| AuditProtocol.RollbackRemovesOwn | serving/app/services/audit.py:52-101 | a rollback removes exactly the uncommitted rows of the transaction |
| AuditProtocol.CommittedChainsAlwaysVerify | serving/app/services/audit.py:52-123 | at every moment of every interleaving each tenant's committed events in id order verify |
| Weights.RemainderGoesToFractions | serving/app/services/rubric.py:141-151 | the left-over units are fewer than the shares and each goes to a share with a fractional part |
| Weights.RoundedHaveLargestFractions | serving/app/services/rubric.py:143-151 | rounded shares have the largest fractional parts, earlier rows first on ties |
| Weights.ApportionmentIsExact | serving/app/services/rubric.py:136-151 | exactly 10000 units, each share within one unit, nothing for a zero share |
| Weights.ApportionmentIsMonotone | serving/app/services/rubric.py:136-151 | a larger share never gets fewer units and equal shares differ by at most one |
| Weights.ApportionmentDistortsLeast | serving/app/services/rubric.py:102-151 | no other way to hand out 10000 whole units has a smaller total distance to the exact shares |
| Weights.NormalizedWeights | serving/app/services/rubric.py:102-166 | a successful normalization has all these properties, with a unit for every positive weight |
| Weights.LargestRemainderIsUnique | serving/app/services/rubric.py:136-151 | rounding shares by largest remainder, earlier rows first on ties, has one result |
| Weights.NormalizesToLargestRemainder | serving/app/services/rubric.py:120-166 | weights are accepted with given units if and only if none is negative, their sum is not zero, and the units are that rounding and leave no positive weight without one; the other error cases exactly |
| Weights.RepresentableWeightsNormalize | serving/app/services/rubric.py:120-166 | weights worth at least one unit of the total each are never refused |
| Weights.NormalizationIgnoresScale | serving/app/services/rubric.py:102-166 | a positive factor changes neither the result nor the error |
| Weights.NormalizationIsIdempotent | serving/app/services/rubric.py:102-166 | normalized weights normalize to themselves |
| Weights.DocumentedRuleAgreesIff | serving/app/services/rubric.py:110-151 | giving the left-over units to the largest weights agrees with the code if and only if the rows rounded up weigh most, earlier rows first |
| Weights.LargestWeightIsPassedOver | serving/app/services/rubric.py:143-151 | weights 6 and 1 become 0.8571 and 0.1429, where the documented rule gives 0.8572 and 0.1428 |
| WeightOrder.OnlyTiesMove | serving/app/services/rubric.py:143-151 | a row that loses its extra unit to another by a reordering had the same fractional part |
| WeightOrder.OrderFreeIffCleanCut | serving/app/services/rubric.py:143-151 | apportionment commutes with every reordering if and only if no tie at the cut is decided by position |
| WeightOrder.AcceptedInEveryOrderIff | serving/app/services/rubric.py:143-164 | accepted weights are accepted in every order if and only if no row below one unit owes its unit to its position |
| WeightOrder.OrderDecidesAcceptance | serving/app/services/rubric.py:143-164 | weights 0.5, 1.5 and 9998 are accepted, and refused with the first two exchanged |
| WeightOrder.NormalizationMovesAlong | serving/app/services/rubric.py:102-166 | with a clean cut reordered weights get the reordered units |
| Weights.HandOut | serving/app/services/rubric.py:150-151 | adds exactly one unit at each chosen position |
| Weights.LargestRemainder | serving/app/services/rubric.py:136-151 | the loop computes the apportionment |
| Weights.NormalizeWeights | serving/app/services/rubric.py:102-166 | results and error cases of normalization |
| ContentHash.JoinedLinesDetermineParts | serving/app/services/rubric.py:184-200 | the joined text determines its lines |
| ContentHash.PayloadIffSameCriteria | serving/app/services/rubric.py:169-200 | two sets hash the same text if and only if they hold the same criteria, in any order |
| ContentHash.FingerprintIffSameCriteria | serving/app/services/rubric.py:169-200 | equal criteria hash equally, and equal hashes mean equal criteria or a collision of these two texts |
| RubricStore.RescopedIsSound | serving/app/services/rubric.py:269-295 | a rescoped set is nonempty, numbered in order and sums to exactly one |
| RubricStore.CopyRescopesToItself | serving/app/services/rubric.py:538-587 | copying a stored set and rescoping the copy gives the set back |
| RubricStore.NextNumberIsFree | serving/app/repositories/rubric.py:125-144 | the highest number of a job is its count of versions, so the next is free |
| RubricStore.MintCopies | serving/app/services/rubric.py:487-561 | minting succeeds exactly for approved versions of the tenant, and the successor holds the same requirements |
| RubricStore.CreateAppends | serving/app/services/rubric.py:325-390 | creating appends one draft with the next number and changes nothing else |
| RubricCalls.RescopeStoresSubmission | serving/app/services/rubric.py:269-295 | row i carries proposal i's text, category, must-have flag, years and seniority, its place and its normalized weight |
| RubricCalls.CreateStoresSubmission | serving/app/services/rubric.py:325-390 | creating succeeds if and only if the job is the tenant's and the weights of a nonempty submission normalize; it adds a draft with the next number, fail cap 40 and the submitted rows |
| RubricCalls.EditStoresSubmission | serving/app/services/rubric.py:417-427 | an edit succeeds if and only if the version is a draft of the tenant and the weights of a nonempty submission normalize; it replaces that version's rows by the submitted ones and changes nothing else |
| RubricCalls.ApproveFreezesDraft | serving/app/services/rubric.py:464-472 | approving succeeds if and only if the version is a draft of the tenant; it sets status and hash and changes nothing else |
| RubricCalls.MintSupersedes | serving/app/services/rubric.py:487-561 | minting succeeds if and only if the version is approved and the tenant's; it adds a draft with the next number and the same rows and cap, and marks the old version superseded |
| RubricCalls.SameTextIffSameColumns | serving/app/services/rubric.py:184-200 | two stored sets hash the same text if and only if their rows agree in stripped text, category, must-have flag, weight, years and seniority, in any order |
| RubricCalls.SameHashIffSameColumns | serving/app/services/rubric.py:184-200 | so they hash alike if and only if they do, or the digest collides on these two texts |
| RubricStore.CallKeepsInv | serving/app/services/rubric.py:325-561 | every call keeps versions numbered 1 to max, nonempty sets of exactly 10000 units, and a hash exactly on versions that are not drafts |
| RubricStore.CallEvolves | serving/app/services/rubric.py:325-561 | one call moves status only forward and leaves published versions alone |
| RubricStore.HistoryIsImmutable | serving/app/services/rubric.py:203-218 | over every run of calls, approved and superseded versions keep criteria and hash for ever |
| RubricStore.UneditedSuccessorKeepsHash | serving/app/services/rubric.py:538-587 | a successor approved without an edit carries its predecessor's hash |
| RowOrder.MovingUnitsKeepsCriteria | serving/app/services/rubric.py:150-200 | moving extra units between rows of equal share and equal content never shows in the multiset of criteria |
| RowOrder.TextIgnoresOrderIff | serving/app/services/rubric.py:143-200 | the hashed text of an accepted submission is the same in every order of its rows if and only if every tie decided by position is between rows of equal share and equal hashed content |
| RowOrder.ReorderingKeepsHash | serving/app/services/rubric.py:169-200 | under that condition every reordering is accepted and keeps the hash, for any digest |
| RowOrder.SplitTieChangesText | serving/app/services/rubric.py:143-200 | exchanging two rows that differ and whose tie position decided is refused or changes the hashed text |
| RowOrder.EqualRowsExchanged | serving/app/services/rubric.py:143-200 | three rows of equal weight, the first two exchanged, are accepted in both orders and hash different text |
| RubricStore.OneApprovedIffNoSecondApproval | serving/app/services/rubric.py:438-484 | a call keeps at most one approved version per job if and only if it does not approve beside an approved one |
| RubricStore.OneApprovedFailsReachably | serving/app/services/rubric.py:325-484 | creating and approving two drafts of a new job ends with two approved versions |
| RubricStore.RubricService.MaxVersionForJob | serving/app/repositories/rubric.py:125-144 | the highest number of the job's versions, zero for none |
| RubricStore.RubricService.ReplaceRequirements | serving/app/repositories/rubric.py:168-195 | the version's set becomes the rescoped proposals, or nothing is written |
| RubricStore.RubricService.CreateDraft | serving/app/services/rubric.py:325-390 | the new store and the error cases of creating |
| RubricStore.RubricService.UpdateDraft | serving/app/services/rubric.py:393-435 | the new store and the error cases of editing, which `EditStoresSubmission` spells out |
| RubricStore.RubricService.ApproveRubric | serving/app/services/rubric.py:438-484 | the new store and the error cases of approving |
| RubricStore.RubricService.MintNextVersion | serving/app/services/rubric.py:487-561 | the new store and the error cases of minting |
| Batching.BatchesPartition | serving/app/services/screening.py:55-57 | batches are nonempty, all but the last full, and put back together are the list in order |
| Judging.AcceptedAnswerIsPermutation | serving/app/services/screening.py:246-257 | an answer of the batch's length that covers exactly the batch is a permutation, so nothing is overwritten |
| Judging.JudgedBatchAnswers | serving/app/services/screening.py:246-257 | each requirement of a judged batch carries a recognized verdict the judge gave under its position |
| Judging.JudgedBatchesInOrder | serving/app/services/screening.py:211-257 | judged batches flatten to the requirements in order |
| Judging.JudgedRubricIsComplete | serving/app/services/screening.py:211-274 | a judged rubric has exactly one recognized verdict per requirement, so indexing verdicts never fails |
| Judging.OwnVerdict | serving/app/services/screening.py:211-257 | requirement i gets the verdict batch i/6 answered under position i%6 |
| Judging.JudgedIffAnswersValid | serving/app/agents/semantic_matching.py:298-316 | a rubric is judged if and only if each six of its requirements gets as many answers, each known, one under every position |
| Judging.JudgedCarriesVerdicts | serving/app/services/screening.py:211-257 | requirement i then carries the verdict answered to its own six under its own position |
| Judging.JudgeRubric | serving/app/services/screening.py:211-257 | the batch loop computes the judged rubric and stops at the first failed batch |
| Scoring.IndexedIffWellFormed | serving/app/services/scoring.py:142-187 | verdicts are accepted if and only if all are recognized, known and given once, and then recorded as given |
| Scoring.AcceptedIffOneVerdictEach | serving/app/services/scoring.py:142-187 | indexing succeeds if and only if every requirement has exactly one verdict |
| Scoring.ScoreIsCappedSum | serving/app/services/scoring.py:266-307 | the published score is computed from the sum of points and the must-haves whatever the order of rows; which value that is says `ScoreFollowsRules` |
| Scoring.AggregationIgnoresOrder | serving/app/services/scoring.py:231-307 | the whole result is independent of the order of verdicts and requirements |
| Scoring.PointsWithinWeight | serving/app/services/scoring.py:272-277 | points lie between zero and the weight and exceed exact credit by at most half a hundredth |
| Scoring.RoundingAddsAtMostHalfEach | serving/app/services/scoring.py:272-277 | the raw score exceeds the exact weighted sum by at most half a hundredth per partial verdict |
| Scoring.ScoreIsPercentage | serving/app/services/scoring.py:266-307 | on normalized weights the score lies in 0 to 100 and is 100.00 when all are met |
| Scoring.ScoreIsMonotone | serving/app/services/scoring.py:266-307 | improving verdicts never lowers the score, cap included |
| ScoreRules.ScoredIffJudgedOnce | serving/app/services/scoring.py:142-228 | a score is given if and only if the rubric is approved, of formula v1, with rows of its own whose weights sum to one but for a unit, and each row has exactly one recognized verdict |
| ScoreRules.ScoreFollowsRules | serving/app/services/scoring.py:266-307 | the raw score sums the weight for met, half of it rounded up for partial and nothing otherwise; if some must-have is not met the score is the smaller of raw score and cap, otherwise the raw score; the cap is reported as applied if and only if it changed the score |
| ScoreRules.BreakdownExplainsRows | serving/app/services/scoring.py:266-292 | the breakdown explains every row once in display order with its verdict and points, and names exactly the must-haves not met |
| ApprovedRubrics.StoredSetIsNormalized | serving/app/services/scoring.py:190-228 | a set as the life cycle stores it is normalized as aggregation requires |
| ApprovedRubrics.ApprovedVersionsScore | serving/app/services/scoring.py:190-307 | every approved version reached by any sequence of calls is scored given one recognized verdict per row: between 0 and 100, and 100.00 when all are met |
| Scoring.IndexVerdictsLoop | serving/app/services/scoring.py:142-187 | the loop accepts and refuses verdicts as specified |
| Scoring.Tally | serving/app/services/scoring.py:266-292 | one pass accumulates raw score, failed must-haves and breakdown |
| Scoring.AggregateScore | serving/app/services/scoring.py:231-307 | the loops compute the aggregation that `ScoredIffJudgedOnce` and `ScoreFollowsRules` are about |
| Screening.NewestOfEachCandidate | serving/app/services/screening.py:60-80 | every listed candidate is screened once, with a profile at least as new as any other of theirs |
| Screening.CandidateProfiles | serving/app/services/screening.py:77-80 | the dictionary keeps each candidate's first row, in order |
| Screening.RanksFollowScores | serving/app/services/screening.py:325-329 | ranks are distinct, between 1 and n, and ordered by score, then id |
| Screening.EveryRankIsTaken | serving/app/services/screening.py:325-329 | every rank from 1 to n is given |
| Screening.RankingIgnoresOrder | serving/app/services/screening.py:325-329 | ranks do not depend on the order rows were stored in |
| Screening.ScoreEachIsSound | serving/app/services/screening.py:189-323 | stored rows are never repeated, never lost and carry the judge's score |
| Screening.AttemptKeepsConsistent | serving/app/services/screening.py:127-334 | every attempt leaves the run partial and sound, or complete and equal to an uninterrupted one |
| Screening.AttemptsStayConsistent | serving/app/services/screening.py:127-334 | so does every sequence of attempts |
| Screening.ResumedRunEqualsUninterrupted | serving/app/services/screening.py:141-187 | any split and any interruptions end with the scores and ranks of one uninterrupted run |
| Screening.FurtherCallReturnsRanking | serving/app/services/screening.py:141-147 | a further call on a completed run changes nothing and returns the same rows in rank order |
| Screening.FurtherCallRepeatsIff | serving/app/services/screening.py:141-147 | the call after the one that completes a run returns the same list if and only if the rows were stored best first |
| Screening.SecondCallRepeatsFirstIff | serving/app/services/screening.py:60-80 | for a run completed by its first call: if and only if no candidate scores higher than one with a smaller id |
| Screening.SecondCallReorders | serving/app/services/screening.py:325-334 | two candidates and a judge for which the second call returns another list |
| JudgedScores.ScoreFollowsJudge | serving/app/services/screening.py:211-282 | a candidate gets a score if and only if the judge answers each six of the rows validly and the rubric is scorable; it is the capped score of the verdicts the judge gave |
| JudgedScores.StoredScoresFollowJudge | serving/app/services/screening.py:163-323 | every row after an attempt was stored before it or holds the score the attempt's judge leads to |
| JudgedScores.FirstAttemptStoresJudgedScores | serving/app/services/screening.py:163-323 | a first attempt stores for candidates of its list the scores of the verdicts its judge gave |
| JudgedScores.AttemptCompletesIff | serving/app/services/screening.py:141-334 | an attempt completes the run and returns its rows if and only if every candidate without a row gets a score; a completed run is not touched |
| Screening.ScoreCandidate | serving/app/services/screening.py:211-274 | judges the whole rubric for one candidate and aggregates |
| Screening.Unscored | serving/app/services/screening.py:163-170 | the profiles without a stored score, in order |
| Screening.AssignRanks | serving/app/services/screening.py:325-329 | numbers the sorted rows from one |
| Screening.ScreeningRun.ScoreAll | serving/app/services/screening.py:189-323 | stores one score after another and stops at the first failure |
| Screening.ScreeningRun.Execute | serving/app/services/screening.py:127-334 | status, rows and result of one attempt, at most one row per candidate |
| Evidence.Find | serving/app/services/screening.py:341-342 | the first occurrence at or after a position |
| Evidence.VerifySpan | serving/app/services/scoring.py:315-366 | a span verifies if and only if the quote is nonempty and sits exactly there |
| Evidence.QuoteResolvesIffUnique | serving/app/services/screening.py:337-351 | a quote resolves if and only if it occurs exactly once, to that occurrence, and verification never raises |
| Evidence.VerifiedSpanDeterminesQuote | serving/app/services/scoring.py:315-366 | a verified span reads back as the quote and verifies no other |
| JsonScanner.GroupIsExtracted | serving/app/agents/jd_analyst.py:152-194 | a balanced group of any nesting comes out exactly, after any prefix without opening braces and before any suffix |
| JsonScanner.ReadLayers | serving/app/agents/jd_analyst.py:172-192 | a successful scan with d groups open has read exactly balanced text closing d groups |
| JsonScanner.ExtractedIsGroup | serving/app/agents/semantic_matching.py:250-278 | whatever is extracted is a balanced group |
| JsonScanner.ExtractSucceedsIffGroup | serving/app/agents/extraction.py:100-128 | extraction succeeds if and only if a balanced group follows a prefix without opening braces; the other error is reported if and only if there is no brace |
| JsonScanner.PlaceholderIsExtracted | serving/app/agents/jd_analyst.py:152-194 | a placeholder in braces in the introduction is extracted whatever follows |
| JsonScanner.ExtractJsonObject | serving/app/agents/jd_analyst.py:152-194 | the three-variable loop computes the extraction |
| ModelAnswers.PrintIsBalanced | serving/app/agents/jd_analyst.py:152-194 | a printed JSON value of any nesting, strings escaped, is balanced text |
| ModelAnswers.PrintedObjectIsExtracted | serving/app/agents/jd_analyst.py:152-194 | a printed JSON object comes out whole |
| ModelAnswers.ExtractedIsBraced | serving/app/agents/jd_analyst.py:226-230 | what is decoded starts with a brace, so a decoder can only give an object |
| ModelAnswers.AllOrNothing | serving/app/agents/jd_analyst.py:245-258 | every requirement in order, or the position of the first invalid one |
| ModelAnswers.AnswerIsTheList | serving/app/agents/jd_analyst.py:226-258 | an answer is the list under "requirements", each item validated in its place; an empty list, more than 200 items and the first invalid item are reported as such |
| ModelAnswers.AnswerWithoutList | serving/app/agents/jd_analyst.py:216-236 | without a decodable object, or without a list under "requirements", that is reported |
| ModelAnswers.PrintedAnswerIsRead | serving/app/agents/jd_analyst.py:197-258 | a printed payload within prose is read as that payload |
| ModelAnswers.ParseJdAnalystResponse | serving/app/agents/jd_analyst.py:197-258 | results and error cases of reading an answer |
| Pages.Assemble | serving/app/services/parser.py:118-169 | text, offsets and the low-yield flag of a parsed document |
| Pages.ParsedOcrPages | serving/app/services/ocr_fallback.py:71-95 | the same text and offsets as `Assemble` for the same page texts |
| Pages.PagesSliceBack | serving/app/services/parser.py:140-148 | every page, empty ones included, is read back at its offsets; pages are separated exactly by the separator |
| Pages.OffsetResolvesToItsPage | serving/app/services/chunking.py:137-142 | an offset resolves to a page if and only if it lies between that page's start and the next |
| Pages.EveryCharacterIsOnItsPage | serving/app/services/chunking.py:124-142 | every character of page k of the joined text resolves to page k |
| Pages.ResolvePageLoop | serving/app/services/chunking.py:124-142 | the last page starting at or before the offset, zero without pages |
| Text.JoinedWords | serving/app/services/chunking.py:235-241 | words joined by spaces split back into themselves |
| Sections.LinesJoinBack | serving/app/services/chunking.py:154 | the lines of a text join back to it |
| Sections.SectionsKeepWords | serving/app/services/chunking.py:145-198 | sections hold exactly the words of the lines that are not dropped headings, in order |
| Sections.SectionsStayInside | serving/app/services/chunking.py:145-198 | section spans lie inside the document, in order, without overlap, as long as their text |
| Sections.SectionsAreHeaded | serving/app/services/chunking.py:161-177 | a section carries the label detected on the line it starts at, or opens the document |
| Sections.SectionsHoldTheirLines | serving/app/services/chunking.py:145-198 | every section holds exactly the lines from its heading, or from the top, to the next heading that follows a line |
| Sections.SegmentIntoSections | serving/app/services/chunking.py:145-198 | the loop computes the sections |
| WordChunks.SentencesKeepWords | serving/app/services/chunking.py:227 | splitting into sentences keeps every word |
| WordChunks.SentencesAreCutAtEnds | serving/app/services/chunking.py:227 | a text is cut wherever white space follows a full stop, exclamation or question mark, and nowhere else; only that white space is dropped |
| WordChunks.PiecesKeepWords | serving/app/services/chunking.py:201-257 | the chunks of a text concatenate to its words, and none is blank |
| WordChunks.PiecesAreWrittenOut | serving/app/services/chunking.py:219-257 | a text within the target is one stripped piece; any other is written out word by word with single spaces |
| WordChunks.PiecesFit | serving/app/services/chunking.py:232-245 | a chunk is within the target or is one sentence |
| WordChunks.PiecesAreGreedy | serving/app/services/chunking.py:232-245 | no two neighbouring chunks would fit the target together |
| WordChunks.PiecesStayInside | serving/app/services/chunking.py:201-257 | spans are one character apart and inside the room of the stripped text |
| WordChunks.PackSentences | serving/app/services/chunking.py:226-257 | the packing loop computes the chunks |
| WordChunks.SplitIntoWordChunks | serving/app/services/chunking.py:201-257 | short texts stay whole, blank ones vanish, others are packed |
| Chunking.AddFamily | serving/app/services/chunking.py:298-355 | a parent followed by its children, a small parent being its own child |
| Chunking.ChunkDocument | serving/app/services/chunking.py:260-356 | the nested loops compute the numbered chunk tree |
| Chunking.FamilyHolds | serving/app/services/chunking.py:298-355 | children lie inside their parent, fit the target and hold exactly its words |
| Chunking.ChunkingConservesWords | serving/app/services/chunking.py:260-356 | indices are 0 to n-1, spans nest inside the document, every parent has a child, and parents and children each hold exactly the document's words |
| ChunkOrigins.ChunksArePieces | serving/app/services/chunking.py:293-352 | every parent is a piece of a section at the parents' target size, every child a piece of its parent at the children's, each under the heading of its section |
| ChunkOrigins.ParentsFit | serving/app/services/chunking.py:293-318 | a parent lies inside its section and is within the parents' target or one sentence of it |
| ChunkPages.LaterOffsetLaterPage | serving/app/services/chunking.py:124-142 | a later offset never resolves to an earlier page |
| ChunkPages.ChunkPagesNest | serving/app/services/chunking.py:308-349 | every chunk of a document starts and ends on existing pages, in order, and a child's pages lie within its parent's |
| Indexing.CapKeepsParents | serving/app/services/indexing.py:222-235 | the cap keeps every parent and exactly the first children, in order |
| Indexing.KeptIffAmongFirst | serving/app/services/indexing.py:222-235 | a chunk is kept if and only if it is a parent or fewer children than the cap come before it |
| Indexing.CapOrphansNone | serving/app/services/indexing.py:222-235 | a kept child's parent is kept |
| Indexing.ChildrenGetTheirOwnVectors | serving/app/services/indexing.py:246-275 | when every call returns one vector per text, each kept child is stored with the vector of its own text and parents with none |
| Indexing.StoredVectorHasOrigin | serving/app/services/indexing.py:246-275 | whenever indexing succeeds, the row of child j carries the vector at position j of the concatenated answers, which is one place of one answer |
| Indexing.RefusedIffTotalDiffers | serving/app/services/indexing.py:246-258 | indexing is refused if and only if the calls together did not return as many vectors as there are kept children |
| Indexing.AlignedIffEachBatchExact | serving/app/services/indexing.py:249-258 | when the total is right, every child is stored with the vector computed for its own text if and only if every call returned one vector per text |
| Indexing.TotalCheckMissesShiftedVectors | serving/app/services/indexing.py:254-258 | a short batch followed by a long one passes the check with a text stored under another's vector |
| Indexing.EmbedInBatches | serving/app/services/indexing.py:249-252 | concatenates the answers batch by batch |
| Indexing.IndexChunks | serving/app/services/indexing.py:222-275 | rows stored, or the refusal of a wrong total |
| Fusion.FusionIsUnion | serving/app/services/search.py:93-127 | exactly the ids of the weighted lists, once each, descending, each with the sum of its credits |
| Fusion.FusedScoreIsEarned | serving/app/services/search.py:110-125 | a fused chunk scores the sum, over its appearances, of the list's weight over the constant plus its rank from one, and comes from the document of its best scored appearance |
| Fusion.ChosenScoresHighest | serving/app/services/search.py:113-119 | the kept chunk has the highest individual score of its id |
| Fusion.PoolEqualsRecall | serving/app/services/retrieval_funnel.py:130-136 | the funnel's initial pool equals its recall count |
| Fusion.AheadScoresHigher | serving/app/services/search.py:113-117 | a chunk ahead of another wherever the other is listed never scores lower |
| Fusion.LeaderSeenFirst | serving/app/services/search.py:110-125 | a chunk ahead of another wherever the other is listed is first seen before it |
| Fusion.AheadEverywhereComesOutAhead | serving/app/services/search.py:110-127 | and comes out ahead of it, by the stability of the sort when no weight is positive, with a strictly higher score once the other earns any credit |
| Fusion.ReciprocalRankFusion | serving/app/services/search.py:93-127 | the accumulating loops compute the fusion |
| Fusion.GroupsPartition | serving/app/services/search.py:146-148 | every chunk falls in its own document's group, as often as it occurs, and in no other |
| Fusion.TopIsLargest | serving/app/services/search.py:153-157 | no choice of n nonnegative scores sums to more than the first n in descending order |
| Fusion.CandidateScoreIsLargest | serving/app/services/search.py:151-177 | a candidate's score is the largest sum of at most that many of its chunks |
| Fusion.CandidatesAreDocuments | serving/app/services/search.py:146-179 | each document is returned once, in descending score |
| Fusion.GroupByCandidate | serving/app/services/search.py:130-179 | the grouping loops compute the candidates |

## Left out

- HTTP routing, authentication, streaming, metrics, logging and the web client: input and output only.
- SQL, vector and text search, migrations and row-level security: stores are sequences and maps, a transaction is one step. `SKIP LOCKED` and the database locks of claiming are that atomicity.
- Column widths and floating point: scores, weights and times are exact; the 28-digit limit of decimals is not modelled.
- Language model and embedding providers, OCR and document parsing libraries: functions given from outside.
- SHA-256, JSON encoding of hashed payloads and random identifiers: arbitrary digests of structured payloads, an injective line encoding for criteria, and positions as names.
- Decoding JSON and validating one requirement against its schema are parameters of `ModelAnswers`; the printer models `json.dumps` with its default separators.
- `ready_runs`, `resume_stale`, the agent cache and round-robin over API keys: thin loops over the modelled operations.
- Two creations racing for one version number: the unique constraint refuses one of them and its transaction rolls back, so only calls one after another are modelled.
- WorkflowQueue.WorkflowRunner.EnqueueTasks: does not carry the payload, tenant and agent columns of a task, which no step of the queue reads.
- RubricStore.RubricService.ReplaceRequirements: a version's rows are one value; that the source deletes and reinserts them, and so gives them new identities, is not modelled.
- Chunking.ChunkDocument: does not carry token estimates, which nothing in the chunker reads; page ranges are functions of the spans and stated in `ChunkPages`.
- ScreeningRuns.Step: the run row of a claimed task exists; the source reports success for a run that was deleted or belongs to another tenant. The status `running`, never committed, is not a state.
- Token counts, cost, recommendations and stage counts of a screening run, and the verdict rows it stores beside the scores.
- The set of profiles is the same at every attempt of a run; candidates added between attempts are not modelled.
- Heading patterns are an arbitrary detector; sanitisation and quarantine are not modelled.
- Negative chunk caps and negative fusion constants, which no caller passes.
- Reranking, the failover chain, orchestration, rubric templates, the demo scorer and evaluation metrics.
