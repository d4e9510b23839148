# ForgeGate: the workflow execution protocol and its limiters, verified

A Dafny model of ForgeGate's workflow service and of the shared counters around it, with proofs about
whole runs of it. `dafny verify dfyconfig.toml` checks everything.

## What is modelled

**The execution protocol** (`WorkflowStore`, `Protocol`). The state of one workflow execution is its
`WorkflowExecution` and `StepExecution` rows, its jobs, its dead letters, the live workers with a program
counter each, what recovery scans have read so far, and the requests sent to providers. Every database
write, queue operation and request is one event; a run is any sequence of enabled events. Workers and
scans act on stale reads, workers crash between any two events, the queue takes jobs back, loses them or
fails them, scans act arbitrarily late, dead letters are replayed. Nothing bounds the number of
actors, the length of a run, the number of steps or the retry configuration.

- `Invariants` and `RunSafety`: what every run keeps: the row automaton with fencing, monotone
  execution lifecycle, one live job, and the bound on rows and requests per step.
- `Completion`, `HappyPath` and `Trust`: what the lease gives when heartbeats are on time, and exactly which
  assumptions make `completed` mean that every step succeeded.
- `Carrier`, `CarrierConditions` and `CurrentStep`: exactly when an execution is always in exactly one place, and
  what its row then tells of its progress.
- `Recovery`: how long a heartbeat protects a row, and what a scan makes of a dead worker's.
- `Revival`: exactly when an execution in the dead-letter queue can still complete.
- `IdempotencyKey` and `Provider`: many executions of many tenants against one provider that
  deduplicates on the header.
- `Engine`: `executeExecution` and the recovery scan as the loops of guarded writes that they are. A
  ghost trace ties each of their steps to an event of the protocol, and `Await` stands for whatever other
  actors do meanwhile, so the theorems about runs hold of this code.
- `RetryScheduler` and `HttpClassifier` (with `Decimals`): budgets, delays, Retry-After, classification.
- `Queue`, `QueueProjection` and `JobHistory`: the queue service over many executions; seen from one of them it
  is the protocol's queue; what a dead letter tells of its job's runs.

**The outbound limiters** (`CounterProtocol`, `OutboundLimiters`, `LimiterRefinement`): calls that
increment, check and roll back several shared counters, interleaved at every INCR and DECR; the two limiter
classes; and the proof that a call nobody interrupts does what its contract says. `RateStretches` and
`LeakedLeases` are about time: admissions over any interval, and counters whose lease holders have crashed.

**The gateway limiter** (`GatewayLimiter`), **API idempotency** (`IdempotencyProtocol`, `ApiIdempotency`)
and **pagination** (`Pagination`).

## Assumptions on runs

`Completion.Discipline` lists what a theorem may ask of a run beyond being one; each assumption is made or
not made on its own. `timely`: no live worker's heartbeat is older than H and no scan uses a lease below H.
`deadOnly`: the queue takes back, fails or loses only jobs whose workers are dead. `noSkip`: no step is
skipped as active on another host. `cleanPickup`: jobs are started only when no row is RUNNING. `crashFree`:
no worker crashes. `endsWritten`: no worker's write of a row's end state fails. Theorems that do not mention
a discipline hold of every run.

`Trust.CompletionTrustedIff` says which of them are needed: for every non-empty workflow, `completed` means
that all steps succeeded exactly if step orders start from 1 and heartbeats are timely, and either no step
is skipped, or the queue takes back dead workers' jobs only and either every pick-up is clean or no worker
crashes or fails to write an end. `CarrierConditions.ExactlyOneCarrierIff` says the same of conservation.

## Where the code and its documentation differ

- docs/IDEMPOTENCY.md:64 says a duplicate worker fails its claim. In every run the claim succeeds
  (`RunSafety.RowsHaveOneOwner`): the unique key stops the duplicate one write earlier, at row creation.
- docs/architecture/system-design.md:24 and 206 call the gateway's limiter a sliding window. It is a fixed
  window, and the bound over an arbitrary interval is 2 * max - 1, which is attained.
- docs/architecture/system-design.md:139 says 503 always uses the deferral budget. The code classifies it
  as transient, and it uses that budget exactly when it carries a usable Retry-After.
- docs/architecture/system-design.md:118-121 shows a RETRYING step state; rows have none. A retry
  makes a new row. Line 277 says heartbeats every 10 s; the code beats every 5 s.
- `completed` does not by itself mean that every step succeeded: a step of order below 1 is never run, a
  step active on another worker is passed over, and a lost success write is not noticed. The latter two
  happen in some run of every workflow that has a step and whose orders start from 1.
- A replay starts again at attempt 1, and the unique key lets no attempt number of a step be used twice: a
  dead-lettered execution can never complete when a step that has not succeeded, and that `currentStep` has
  not passed, has a row under each of them.
- A rejected call of the outbound concurrency limiter renews the expiry of the counter that rejects it, so
  the leases of crashed holders are never freed under traffic steadier than once a minute.
- A key of the API idempotency store can lead to two execution rows, when enqueueing the first one fails.
- Dead-letter pages hand out a `nextCursor` and ignore it.

## Model

| member | source | states |
|---|---|---|
| Invariants.ActSteps | apps/workflow-service/src/workflow-engine/workflow-engine.service.ts:101-378 | any worker action moves only its own row, one transition of the row automaton at most, and sends at most one request, for the row it owns |
| Invariants.EventStepsDb | apps/workflow-service/src/workflow-engine/workflow-engine.service.ts:195-347 | any event of any actor moves every row along the row automaton, never removes one, and never lowers `currentStep` or the version |
| Invariants.EventKeepsInv | apps/workflow-service/src/workflow-engine/workflow-engine.service.ts:55-443 | every event keeps the invariant of rows, jobs, workers and requests that all run theorems rest on |
| RunSafety.RunEvolvesRow | apps/workflow-service/src/workflow-engine/workflow-engine.service.ts:280-347 | fencing: over any run an ended row is frozen, so a timed-out worker's late writes change nothing; a claimed row is never unclaimed; versions never decrease |
| RunSafety.VersionTracksStatus | apps/workflow-service/src/workflow-engine/workflow-engine.service.ts:218-347 | in every reachable row the version is 1 for PENDING, 2 for RUNNING, 3 for SUCCEEDED and FAILED, 2 or 3 for TIMED_OUT |
| RunSafety.EndIsOnRecord | apps/workflow-service/src/workflow-engine/workflow-engine.service.ts:289-345 | over every run, the row whose end its owner has written says for good whether the attempt succeeded, timed out or failed otherwise |
| RunSafety.LostSuccessIsRecordedAsFailure | apps/workflow-service/src/workflow-engine/workflow-engine.service.ts:289-345 | a success whose write fails is recorded as a failure, and thrown as one |
| RunSafety.RowsHaveOneOwner | apps/workflow-service/src/workflow-engine/workflow-engine.service.ts:217-264 | two live workers never hold the same row, and a worker that has created its row never fails to claim it |
| RunSafety.LifecycleIsMonotone | apps/workflow-service/src/workflow-engine/workflow-engine.service.ts:195-206 | over every run `currentStep` and `version` never decrease, and a completed or failed execution changes status or `currentStep` only if the run contains a replay |
| RunSafety.VersionDetectsChange | apps/workflow-service/src/workflow-engine/workflow-engine.service.ts:195-206 | optimistic locking: over every run without a replay, an equal version means an unchanged status and `currentStep` |
| RunSafety.SideEffectsBounded | prisma/schema.prisma:208-236 | over every run, with any number of retries, recoveries and replays, requests sent for a step <= its rows <= max(1, maxNormalRetries); steps that are not HTTP send none |
| RunSafety.AtMostOneLiveJob | apps/workflow-service/src/queue/queue.service.ts:310-410 | retries, scans and replays never leave an execution with two live jobs |
| Completion.TimelyRunKeepsLease | apps/workflow-service/src/workflow-engine/workflow-engine.service.ts:266-278 | with timely heartbeats, over any run every beating worker still owns its RUNNING row and no scan suspects it |
| Completion.ScanSparesLiveWorkers | apps/workflow-service/src/workflow-engine/workflow-engine.service.ts:449-482 | lease safety: a scan with a lease of at least H, even one that acts on an old read, never changes a live worker's row |
| Completion.ActiveXorStale | apps/workflow-service/src/workflow-engine/workflow-engine.service.ts:176-184 | with the 30 s lease a reachable RUNNING row is exactly one of active and stale at every instant |
| Recovery.BeatHoldsForALease | apps/workflow-service/src/workflow-engine/workflow-engine.service.ts:266-278 | over every run, a row claimed or beaten for is, while RUNNING, not stale to any scan for that scan's lease, and active to every worker for 30 s |
| Recovery.StaleStepIsHandedOn | apps/workflow-service/src/workflow-engine/workflow-engine.service.ts:449-507 | from any state, an undisturbed scan times a stale row out, makes a running execution `retrying` at the next version, leaves it with one live job, a fresh one if it had none, and changes nothing else |
| Recovery.RecoveryFollowsScan | apps/workflow-service/src/workflow-engine/workflow-engine.service.ts:468-506 | over every run, nothing is re-enqueued as stale before a scan has timed a row out and, if it had read the execution as running, has written to the execution too |
| Recovery.StalledJobCostsAnAttempt | apps/workflow-service/src/queue/queue.service.ts:120-212 | a job the queue gives up on is retried as the next attempt while lifetime and attempts last, and dead-lettered otherwise |
| Completion.CompletedMeansAllSucceeded | apps/workflow-service/src/workflow-engine/workflow-engine.service.ts:143-391 | crash-safe completion: with orders from 1, timely heartbeats and no skips, for any number of workers, crashes at any write, failures, retries, scans and replays, every step before `currentStep` has a SUCCEEDED row and `completed` means every step has |
| Completion.CleanPickupNeverSkips | apps/workflow-service/src/workflow-engine/workflow-engine.service.ts:176-193 | if only dead workers' jobs are taken back, and jobs are started only when no row is RUNNING, the skip branch is never taken |
| Completion.CleanPickupIsCrashSafe | apps/workflow-service/src/workflow-engine/workflow-engine.service.ts:143-391 | so crash-safe completion needs only that a dead worker's row is timed out before its job is picked up again |
| Completion.SkipCompletesWithoutTheStep | apps/workflow-service/src/workflow-engine/workflow-engine.service.ts:186-193 | from any state in which a worker skips the last step as active elsewhere, it goes on to `completed` without that step's success, whatever else is assumed |
| Completion.LostWriteCompletesWithoutTheStep | apps/workflow-service/src/workflow-engine/workflow-engine.service.ts:289-299 | from any state in which a worker no longer owns the last step's row, its success write is dropped and it goes on to `completed`, whatever else is assumed |
| HappyPath.EveryWorkflowCanComplete | apps/workflow-service/src/workflow-engine/workflow-engine.service.ts:143-391 | every workflow has a run, under every discipline, that completes; it has done exactly the steps of order 1 and up, `currentStep` ends at the last order, and the version has counted the claim, each rise of `currentStep` and the completion |
| HappyPath.StepGoesWell | apps/workflow-service/src/workflow-engine/workflow-engine.service.ts:143-299 | from any state in which a step is due, an undisturbed worker has a run that takes it: its row SUCCEEDED, itself at the next step, `currentStep` at the step's order unless already beyond, the execution's version one more exactly if that moved it, and nothing else changed but the requests |
| Trust.TrustedRunCompletes | apps/workflow-service/src/workflow-engine/workflow-engine.service.ts:143-391 | under any trusted choice of assumptions every run keeps `currentStep` safe and completes only with all steps succeeded |
| Trust.UntrustedMisleads | apps/workflow-service/src/workflow-engine/workflow-engine.service.ts:176-358 | under any other choice, or with an order below 1, every non-empty workflow has a run from its trigger to `completed` with a step not succeeded: by a late heartbeat, a live worker's job picked up again, a crash, or a failing write of a row's end |
| Trust.CompletionTrustedIff | apps/workflow-service/src/workflow-engine/workflow-engine.service.ts:143-391 | so `completed` can be trusted, over all runs under the assumptions made, if and only if these are the trusted ones and all step orders start from 1 |
| Carrier.ExactlyOneCarrier | apps/workflow-service/src/queue/queue.service.ts:120-212 | in crash-free runs (`Carrier.IsCrashFree`) an execution always has exactly one carrier: one live job, or `completed`, or `failed` with exactly one unreplayed dead letter |
| CarrierConditions.ExactlyOneCarrierIff | apps/workflow-service/src/queue/queue.service.ts:120-338 | for every workflow with a step to run, that holds over all runs under the assumptions made if and only if these include timely heartbeats, no job lost or taken back from a live worker, no crash, and no failing write of a row's end |
| Carrier.CrashFreePickupIsClean | apps/workflow-service/src/workflow-engine/workflow-engine.service.ts:176-193 | in crash-free runs no job is started while a row is RUNNING |
| CurrentStep.RowTellsProgress | apps/workflow-service/src/workflow-engine/workflow-engine.service.ts:101-206 | in crash-free runs the execution is `running` on a first attempt and `retrying` on a later one while its worker is at it, `currentStep` is not before the step the worker is at, and that of a completed execution is the highest order of its steps |
| Revival.ExhaustedStepNeverSucceeds | prisma/schema.prisma:208-236 | from any state in which every attempt number of a step has a row that is not SUCCEEDED and is ended or without a worker, no run makes the step succeed |
| Revival.ExhaustedNeverCompletes | apps/workflow-service/src/queue/queue.service.ts:345-419 | so no number of replays, recoveries and retries, in any run whatever, completes a dead-lettered execution (no worker, no RUNNING row, not completed) one of whose steps is not before `currentStep` and has such a row under every attempt number |
| Revival.ShelvedCanCompleteIff | apps/workflow-service/src/queue/queue.service.ts:345-419 | over every run and under any assumptions, a dead-lettered execution with no worker and no RUNNING row can still complete if and only if it is completed, or every step not succeeded and not before `currentStep` has an attempt number without a row: any of them while its lifetime lasts, only the first afterwards |
| Revival.TrustedShelvedCanCompleteIff | apps/workflow-service/src/queue/queue.service.ts:345-419 | under a trusted choice of assumptions the condition is about every step not succeeded |
| IdempotencyKey.KeysAreInjective | apps/workflow-service/src/workflow-engine/idempotency.ts:10-19 | with two of the three kinds of ids free of colons, two keys are equal if and only if tenant, execution and step are (up to the fallback names) |
| IdempotencyKey.KeysIdentifyStepsIff | apps/workflow-service/src/workflow-engine/idempotency.ts:10-19 | keys identify steps over all ids if and only if two of the three kinds are free of colons; generated execution and step ids are, so a tenant's id may be anything |
| Provider.DeduplicationIsExact | apps/workflow-service/src/workflow-engine/workflow-engine.service.ts:580-593 | where keys identify steps, a deduplicating provider applies a delivered step's effect once and an undelivered one's never |
| Provider.EffectAppliedAtMostOnce | apps/workflow-service/src/workflow-engine/workflow-engine.service.ts:561-708 | over every interleaving of all executions, each keyed step's effect is applied once if a request of it was delivered and not at all otherwise; no step's effect is swallowed by another's; only idempotent HTTP steps are keyed |
| Provider.EffectAppliedExactlyOnceOnCompletion | apps/workflow-service/src/workflow-engine/workflow-engine.service.ts:381-391 | and exactly once when the execution has completed under a trusted choice of assumptions |
| Engine.WorkflowEngine.ExecuteExecution | apps/workflow-service/src/workflow-engine/workflow-engine.service.ts:55-443 | under any interference at its awaits, the method's steps are a run of the protocol that ends the worker in Returned or Threw as the method returns or throws; hence `completed` is trustworthy whenever the run meets a trusted choice of assumptions, and after a return from a crash-free run the execution is completed with `currentStep` at its highest order |
| Engine.WorkflowEngine.RunSteps | apps/workflow-service/src/workflow-engine/workflow-engine.service.ts:101-391 | a run that returns without an error and was not aborted has gone through every step |
| Engine.WorkflowEngine.RunStep | apps/workflow-service/src/workflow-engine/workflow-engine.service.ts:143-358 | one turn of the loop takes the worker's program counter to the next step, or to Threw with the error it reports |
| Engine.WorkflowEngine.IsDue | apps/workflow-service/src/workflow-engine/workflow-engine.service.ts:145-193 | the two reads: the step is run only if neither skipped by order, nor succeeded, nor active on another host |
| Engine.WorkflowEngine.ClaimStep | apps/workflow-service/src/workflow-engine/workflow-engine.service.ts:195-264 | the step's row is claimed, or somebody else's, or its insert fails; each leaves the worker where the protocol says |
| Engine.WorkflowEngine.ExecuteStep | apps/workflow-service/src/workflow-engine/workflow-engine.service.ts:561-708 | a refused call leaves no request of this attempt in the log, any other HTTP call one, and the outcome is the provider's or the fault's |
| Engine.WorkflowEngine.MarkOne | apps/workflow-service/src/workflow-engine/workflow-engine.service.ts:467-495 | the guarded write to one stale row is one event of the trace, true exactly if that event times the row out; then, and exactly if the execution was read as running, the next write of the scan makes it `retrying` at the next version if it still is running |
| Engine.WorkflowEngine.MarkStale | apps/workflow-service/src/workflow-engine/workflow-engine.service.ts:449-507 | under any interference every row of the batch gets one write of this scan and is at its end afterwards; recovery is asked for if and only if one of these writes, and not somebody else's, has timed a row out; those rows are TIMED_OUT, and each is followed by the write that takes an execution read as running out of `running` |
| RetryScheduler.EveryRetryChargesExactlyOneBudget | apps/workflow-service/src/workflow-engine/http-retry-scheduler.ts:31-133 | every retry charges exactly one unit to exactly one budget, a refusal none; permanent failures are never retried |
| RetryScheduler.JobRetriesWhatItCanAfford | apps/workflow-service/src/workflow-engine/http-retry-scheduler.ts:46-132 | for every configuration and every sequence of failures, a job retries exactly the longest beginning of them that is within lifetime, free of permanent failures and within both budgets together |
| RetryScheduler.RunsBoundedByBudgets | apps/workflow-service/src/workflow-engine/http-retry-scheduler.ts:61-132 | for every configuration and every sequence of failures, the runs a job leads to are at most one more than what both budgets have left |
| RetryScheduler.FreshJobSettles | apps/workflow-service/src/queue/queue.service.ts:280-305 | a fresh job settles within max(1, maxNormalRetries) + maxRateLimitDeferrals runs; 8 with the defaults |
| RetryScheduler.DelaysAreClamped | apps/workflow-service/src/workflow-engine/http-retry-scheduler.ts:90-103 | no delay exceeds the cap; a Retry-After is obeyed exactly between floor and cap and clamped outside; without one attempt a waits initial * 2^(a - 1) plus its draw, up to the cap |
| RetryScheduler.BackoffIsMonotone | apps/workflow-service/src/workflow-engine/http-retry-scheduler.ts:21-29 | a later attempt never waits less, for all jitter draws, when jitter <= initial delay |
| RetryScheduler.TotalBackoffBounded | apps/workflow-service/src/workflow-engine/http-retry-scheduler.ts:21-29 | n backoffs wait at most initial * (2^n - 1) + n * jitter, and at most n * maxDelay |
| RetryScheduler.TotalDelayBounded | apps/workflow-service/src/workflow-engine/http-retry-scheduler.ts:61-132 | whatever its failures, all retries of a job together wait at most what is left of both budgets times maxDelay |
| RetryScheduler.NormalRetriesBackOff | apps/workflow-service/src/workflow-engine/http-retry-scheduler.ts:113-132 | the retries a job actually makes without deferral wait exactly the successive backoffs of its attempts, so the bounds on total backoff are bounds on the job |
| RetryScheduler.NormalRetriesWaitExactly | apps/workflow-service/src/workflow-engine/http-retry-scheduler.ts:21-29 | as long as no wait reaches the cap, the n retries a job makes without deferral take exactly initial * (2^n - 1) plus their draws |
| RetryScheduler.ReasonTellsWhy | apps/workflow-service/src/workflow-engine/http-retry-scheduler.ts:43-132 | the reason of a decision determines, and is determined by, lifetime, the budget the failure draws on and what is left of that |
| RetryScheduler.DefaultNormalRetries | apps/workflow-service/src/workflow-engine/http-retry-scheduler.ts:3-10 | with the defaults, failures that defer nothing get three runs, one and two seconds apart plus less than 200 ms each |
| RetryScheduler.DefaultDeferrals | apps/workflow-service/src/workflow-engine/http-retry-scheduler.ts:3-10 | with the defaults, failures that ask for a minute or more get five deferrals of exactly 60 s |
| HttpClassifier.RetryAfterRoundTrip | apps/workflow-service/src/workflow-engine/http-step-classifier.ts:61-77 | any safe integer, printed and padded with any whitespace, parses back to itself if non-negative and to null if negative |
| HttpClassifier.RetryAfterIsWhatItMeans | apps/workflow-service/src/workflow-engine/http-step-classifier.ts:61-77 | the parsed value is s if and only if the trimmed header is the printing of s, or no number's printing and a date that the least whole number of seconds reaching it is s; it is null if and only if no s is meant |
| HttpClassifier.MeansNothingIff | apps/workflow-service/src/workflow-engine/http-step-classifier.ts:61-77 | and that is so if and only if the header is absent or empty, prints a negative number, or is neither a number nor a date |
| HttpClassifier.IntegerBranchReadsPrintings | apps/workflow-service/src/workflow-engine/http-step-classifier.ts:61-67 | the integer branch reads n if and only if the string is n's own printing |
| HttpClassifier.DelaySecondsNeedsNoLeadingZero | apps/workflow-service/src/workflow-engine/http-step-classifier.ts:61-67 | of the runs of digits that section 10.2.3 of RFC 9110 allows, exactly those without a needless leading zero are read as delay-seconds |
| HttpClassifier.AnswersAreChargedByStatus | apps/workflow-service/src/workflow-engine/http-step-classifier.ts:79-149 | 429 and 529 defer, another 5xx defers if and only if its Retry-After means a time, 408 never does, and exactly the other 4xx are final |
| HttpClassifier.CategoryTellsWhere | apps/workflow-service/src/workflow-engine/http-step-classifier.ts:83-231 | category and status tell where the fault lies: rate limit, network, time-out, or for good |
| HttpClassifier.RequestFaultsAreToldApart | apps/workflow-service/src/workflow-engine/http-step-classifier.ts:141-231 | without an answer, one of the listed codes or words anywhere in the message, in any case of letters, tells connection, certificate and time-out trouble apart, in this order |
| HttpClassifier.TimedOutStepsCostAnAttempt | apps/workflow-service/src/workflow-engine/workflow-engine.service.ts:306-345 | across classification, failure write and scheduler: a step whose row ends TIMED_OUT has cost an attempt; deferred and final faults end FAILED |
| HttpClassifier.AlikeFaultsUseUpTheirBudget | apps/workflow-service/src/workflow-engine/http-retry-scheduler.ts:46-132 | within its lifetime, a job whose faults all draw on one budget is retried exactly as often as that budget allows, and never if they are final |
| HttpClassifier.OverloadCostsNoAttempt | apps/workflow-service/src/workflow-engine/http-retry-scheduler.ts:67-86 | a provider that keeps answering 429 or 529 is asked exactly maxRateLimitDeferrals more times, whatever the attempt limit |
| HttpClassifier.PlainServerErrorsCostAttempts | apps/workflow-service/src/workflow-engine/http-step-classifier.ts:127-138 | a provider that answers 5xx other than 529 without a Retry-After that means a time gets exactly max(1, maxNormalRetries) runs |
| HttpClassifier.SilenceCostsAttempts | apps/workflow-service/src/workflow-engine/http-step-classifier.ts:151-232 | a provider that never answers gets exactly max(1, maxNormalRetries) runs, unless its certificate is at fault |
| HttpClassifier.PrintedSecondsAreWaited | apps/workflow-service/src/workflow-engine/http-retry-scheduler.ts:73-103 | from header to delay: 429 and every 5xx with a printed number of seconds wait that long, within floor and cap, and charge one deferral |
| Decimals.PrintIsCanonical | apps/workflow-service/src/workflow-engine/http-step-classifier.ts:64-66 | printing a natural number gives a canonical numeral whose value is that number |
| Decimals.CanonicalIsPrinted | apps/workflow-service/src/workflow-engine/http-step-classifier.ts:64-66 | and every canonical numeral is the printing of its value |
| Decimals.ParseIntReads | packages/common/src/pagination.ts:23-31 | of leading spaces, a sign, digits and whatever follows, the signed value of the digits is read, and nothing exactly if there are no digits |
| Queue.QueueService.EnqueueWorkflowExecution | apps/workflow-service/src/queue/queue.service.ts:280-305 | adds one waiting job with fresh budgets and changes nothing else |
| Queue.QueueService.RecoverStaleExecutions | apps/workflow-service/src/queue/queue.service.ts:310-338 | re-enqueues exactly the listed executions without a live job, once each even if listed twice; afterwards all listed ones have a live job, none gets a second, old jobs are untouched |
| Queue.QueueService.OnJobFailed | apps/workflow-service/src/queue/queue.service.ts:120-212 | states both queues and the statuses in full: the job is failed and followed by exactly one of its next job, with the decided budgets and delay, or one dead letter, and nothing else changes; no execution's single carrier is lost or duplicated |
| Queue.QueueService.ReplayDlqJob | apps/workflow-service/src/queue/queue.service.ts:345-419 | succeeds if and only if the letter exists, may be touched by the requesting tenant, has an execution without a live job, and is not replayed, and is refused for the first of these that fails; then the letter is replaced by one fresh job, otherwise nothing changes |
| Queue.FailureKeepsCarrier | apps/workflow-service/src/queue/queue.service.ts:134-209 | whatever is decided, a failed job leaves every execution with exactly one carrier if it had one |
| Queue.ReplayKeepsCarrier | apps/workflow-service/src/queue/queue.service.ts:370-410 | so does a replay |
| JobHistory.LetterTellsHistory | apps/workflow-service/src/queue/queue.service.ts:134-207 | over every sequence of failures, there is a dead letter exactly if the last run has failed; it is the triggering tenant's, and its retry and deferral counts add up to the runs there were; the delays enqueued are those decided |
| QueueProjection.FailureProjects | apps/workflow-service/src/queue/queue.service.ts:120-212 | seen from its execution, the failed handler over many executions is the protocol's |
| QueueProjection.ReplayProjects | apps/workflow-service/src/queue/queue.service.ts:345-419 | so is a replay that is not refused, which the protocol enables |
| QueueProjection.RecoveryProjects | apps/workflow-service/src/queue/queue.service.ts:318-330 | and the re-enqueueing of a stale execution |
| QueueProjection.OtherExecutionsProject | apps/workflow-service/src/queue/queue.service.ts:98-209 | what happens to jobs of other executions changes nothing for this one |
| CounterProtocol.CountersAreExact | apps/workflow-service/src/workflow-engine/outbound-concurrency-limiter.ts:128-189 | under any interleaving of INCRs and DECRs each counter equals the calls that have incremented it and not yet decremented it (plus, for the rate limiter, the window's admissions) |
| CounterProtocol.LimitsAreKept | apps/workflow-service/src/workflow-engine/workflow-engine.service.ts:641-707 | leases on a key, hence requests in flight in its scope, and calls admitted in one window never exceed the limit |
| CounterProtocol.ClampNeverFires | apps/workflow-service/src/workflow-engine/outbound-concurrency-limiter.ts:172-189 | no release takes a counter below zero |
| CounterProtocol.RejectionIsJustified | apps/workflow-service/src/workflow-engine/outbound-rate-limiter.ts:127-161 | a call is rejected at a key only while at least `limit` other calls hold, probe or were admitted on it |
| CounterProtocol.RefusedCallOwesNothing | apps/workflow-service/src/workflow-engine/outbound-rate-limiter.ts:137-151 | when a refused call returns, every counter is accounted for by the other calls |
| RateStretches.StretchBound | apps/workflow-service/src/workflow-engine/outbound-rate-limiter.ts:127-161 | over any stretch of any run a key admits at most limit * (1 + the ends of its window in it) calls; so at most 2 * limit in any interval of window length |
| RateStretches.StretchBoundIsTight | apps/workflow-service/src/workflow-engine/outbound-rate-limiter.ts:127-161 | for every key and limit a run with one end of the window attains 2 * limit |
| LeakedLeases.AskIsACall | apps/workflow-service/src/workflow-engine/outbound-concurrency-limiter.ts:128-170 | what the two next results say of one counter is what the contract of `Acquire` leaves of the counter that decides a call |
| LeakedLeases.LeakedKeyIsFreedOnlyByAPause | apps/workflow-service/src/workflow-engine/outbound-concurrency-limiter.ts:128-153 | once as many lease holders of a key have crashed as its limit, a call is admitted on it if and only if nobody asked for 60 s before: rejected calls renew the leaked counter's time to live |
| LeakedLeases.SteadyTrafficStarves | apps/workflow-service/src/workflow-engine/outbound-concurrency-limiter.ts:128-153 | so traffic with gaps below 60 s is rejected for ever |
| OutboundScopes.ScopesAreTheLimitedOnes | apps/workflow-service/src/workflow-engine/outbound-concurrency-limiter.ts:85-126 | the scopes checked are exactly the limited ones, in order step, tenant_provider, tenant, provider, global, each on its own counter |
| OutboundScopes.ScopeKeysDiffer | apps/workflow-service/src/workflow-engine/outbound-concurrency-limiter.ts:85-126 | two scopes of one call never share a counter, whatever the ids contain |
| OutboundScopes.LimitersShareNoCounter | apps/workflow-service/src/workflow-engine/outbound-concurrency-limiter.ts:91-126 | nor do the two limiters, for any callers and scopes |
| OutboundScopes.CountersIdentifyUsersIff | apps/workflow-service/src/workflow-engine/outbound-concurrency-limiter.ts:91-126 | calls share a scope's counter exactly if they are of the same tenant, provider, both, or step of it, if and only if all but one kind of the ids in its key are free of colons |
| OutboundScopes.QuotaBindsItsOwn | apps/workflow-service/src/workflow-engine/outbound-concurrency-limiter.ts:91-126 | a configured quota binds exactly the calls of those it is configured for, if and only if it is positive, and changes the scopes of nobody else's |
| OutboundScopes.OverruledQuotaIsIgnored | apps/workflow-service/src/workflow-engine/outbound-rate-limiter.ts:91-125 | a step's own quota overrules the configured one, and the rate limiter has no quota per tenant |
| LimiterContract.ReleaseUndoesAcquire | apps/workflow-service/src/workflow-engine/outbound-concurrency-limiter.ts:172-189 | a release restores every counter to what it was before the acquisition |
| ConcurrencyLimiterClass.OutboundConcurrencyLimiter.Acquire | apps/workflow-service/src/workflow-engine/outbound-concurrency-limiter.ts:76-170 | succeeds exactly when every limited scope is below its limit and then adds one to exactly those counters; otherwise all counters are as before and the first full scope is named; either way exactly the counters up to the first full one have 60 s to live again |
| ConcurrencyLimiterClass.OutboundConcurrencyLimiter.Release | apps/workflow-service/src/workflow-engine/outbound-concurrency-limiter.ts:172-189 | lowers exactly the lease's counters by one, not below zero; times to live stay, except that a counter set to zero loses its own |
| RateLimiterClass.OutboundRateLimiter.CheckAndConsume | apps/workflow-service/src/workflow-engine/outbound-rate-limiter.ts:76-164 | the same all-or-nothing contract over rate windows: of the counters asked exactly those at zero start their window, and no running one starts anew |
| LimiterRefinement.UninterruptedCallMeetsContract | apps/workflow-service/src/workflow-engine/outbound-concurrency-limiter.ts:128-170 | for both limiters, from any state of the shared counters, an uninterrupted call through the interleaved protocol does what the contract says, and is rejected exactly at the first full scope, the one its result names |
| GatewayLimiter.RedisRateLimiterGuard.CanActivate | apps/api-gateway/src/rate-limiter/rate-limiter.guard.ts:34-63 | admits while the key's live counter is within the maximum, leaving other keys' counters alone; over the whole history of requests no key has had more than 199 admissions in any 60 s interval |
| GatewayLimiter.KeysIdentifyCallersIff | apps/api-gateway/src/rate-limiter/rate-limiter.guard.ts:36-38 | requests share a counter exactly if tenant and address agree, if and only if tenants or addresses are free of underscores |
| GatewayLimiter.AnyIntervalBound | apps/api-gateway/src/rate-limiter/rate-limiter.guard.ts:34-57 | for every trace and every interval of window length at most 2 * max - 1 requests of one key are admitted |
| GatewayLimiter.WindowAdmitsItsFirst | apps/api-gateway/src/rate-limiter/rate-limiter.guard.ts:34-57 | within a counter's own window exactly its first max requests are admitted |
| GatewayLimiter.BoundIsTight | apps/api-gateway/src/rate-limiter/rate-limiter.guard.ts:34-57 | for every maximum and every window of at least two time units a trace attains 2 * max - 1 |
| IdempotencyProtocol.OneOperationAtATime | apps/workflow-service/src/execution/api-idempotency.service.ts:124-171 | for any interleaving of callers at most one runs the operation of a key, and a key is in progress if and only if one does |
| IdempotencyProtocol.CallersAgree | apps/workflow-service/src/execution/api-idempotency.service.ts:131-190 | all callers of a key that return get the same execution, and it has a job |
| IdempotencyProtocol.OneKeyOneJob | apps/workflow-service/src/execution/execution.service.ts:26-71 | two jobs of one key are the same job unless an operation returned undefined after enqueueing one; of two rows of one key, one is abandoned by a failed enqueueing or forgotten in that way; no abandoned row has a job |
| IdempotencyProtocol.FailureFreesKey | apps/workflow-service/src/execution/api-idempotency.service.ts:167-170 | after a failed operation the next caller runs it again |
| IdempotencyProtocol.FailedEnqueueOpensSecondRow | apps/workflow-service/src/execution/execution.service.ts:47-56 | in every run, whenever enqueueing fails after the row was created, the next caller of the key can create a second row while the first stays without a job |
| IdempotencyProtocol.UndefinedResultOpensSecondJob | apps/workflow-service/src/execution/api-idempotency.service.ts:131-155 | in every run, whenever a generic operation is about to return undefined, the next caller of the key can enqueue a second job |
| IdempotencyProtocol.UndefinedResultServesNobody | apps/workflow-service/src/execution/api-idempotency.service.ts:131-188 | from any reachable state in which a key holds an undefined result, no run without a newcomer gives those who wait for it anything but an error, and a newcomer runs the operation again |
| ApiIdempotency.ApiIdempotencyService.ProcessInMemory | apps/workflow-service/src/execution/api-idempotency.service.ts:124-171 | under any interference at its awaits a call is a caller of the protocol that ends as the method does; an execution it answers with has its job and is what the key now yields |
| ApiIdempotency.ApiIdempotencyService.Operate | apps/workflow-service/src/execution/api-idempotency.service.ts:148-170 | the record is completed or removed exactly as the operation succeeds or fails |
| ApiIdempotency.ApiIdempotencyService.ExecuteOperation | apps/workflow-service/src/execution/execution.service.ts:26-61 | row first, then job; where it stops is where the plan says it fails |
| ApiIdempotency.ApiIdempotencyService.PollInMemory | apps/workflow-service/src/execution/api-idempotency.service.ts:173-190 | ends in a result, in an error because the key was freed, or in an error after at least five seconds, with at most 167 looks |
| Pagination.ClampsAgree | packages/common/src/pagination.ts:23-50 | for every raw limit the parsed one is between 1 and 100, and building a page does not change it |
| Pagination.ParametersAreHonoured | packages/common/src/pagination.ts:23-40 | as a number or as text, a limit from 1 to 100 and a skip from 0 on are taken as they are; higher limits become 100, other limits 50, other skips 0, an empty cursor none |
| Pagination.PagesStartWhereAsked | packages/common/src/pagination.ts:42-81 | a page holds exactly the asked slice, and says there is more if and only if items remain |
| Pagination.NextPageStartsAfterThis | apps/workflow-service/src/execution/execution.service.ts:108-125 | following `nextCursor` starts right after the last item shown |
| Pagination.WalkReadsTheRest | apps/workflow-service/src/execution/execution.service.ts:92-154 | from any query on, following `nextCursor` ends and concatenates to the rest of the list |
| Pagination.WalkRebuildsList | apps/workflow-service/src/execution/execution.service.ts:92-154 | from the first page on, for every raw limit, it concatenates to exactly the list, and only the last page says there is no more |
| Pagination.OffsetWalk | apps/workflow-service/src/queue/queue.service.ts:484-489 | stepping the offset by the page size ends and concatenates to all that is left of the list |
| Pagination.DlqPagesAreOffsetPages | apps/workflow-service/src/queue/queue.service.ts:447-489 | a dead-letter page is that walk's page for the clamped limit, whatever cursor is sent along |
| Pagination.DlqCursorGoesNowhere | apps/workflow-service/src/queue/queue.service.ts:447-489 | following a dead-letter page's cursor yields the first page forever; the walk ends if and only if the list fits on one page |

## Left out

- Engine.WorkflowEngine.ExecuteExecution: database calls do not fail in the method form; the protocol's `DoThrow` event covers such failures at every write, and the run theorems include it.
- Carrier.ExactlyOneCarrier: a database or queue call that takes effect and then throws all the same; in the model a failing call has no effect. A completion write of that kind would leave a completed execution with a live job.
- Completion.ScanSparesLiveWorkers: clocks that differ between hosts; all actors share one.
- Revival.ShelvedCanCompleteIff: executions with a row that is still RUNNING; a scan times those out first.
- IdempotencyProtocol.OneKeyOneJob: a row or job call of the trigger that takes effect and then throws all the same, which would free the key and give it two jobs.
- Steps of equal order: the database leaves their order open, the model reads one fixed sequence.
- The failure log write (apps/workflow-service/src/workflow-engine/workflow-engine.service.ts:421-427), whose own failure can replace a permanent error by one that is retried.
- Queue.QueueService.OnJobFailed: the handler is one uninterrupted operation (job to failed, decision, next job or letter, status); so are recovery's check and enqueue, a replay, and a trigger, here and in the protocol.
- Queue.QueueService.ReplayDlqJob: two concurrent replays of one letter, whose check and write are not one step, and the audit log.
- Provider.EffectAppliedAtMostOnce: steps without the idempotency header, for which at most `SideEffectsBounded` requests is all there is.
- CounterProtocol.LimitsAreKept: Redis errors (fail-open, swallowed decrements), a lease that outlives its 60 s TTL, and a window that ends inside a call; the invariants do not survive them.
- HttpClassifier.IntegerBranchReadsPrintings: numbers beyond the safe integers and dates, which the runtime decides (a parameter); sub-reasons, messages and URLs of the classification, and letters outside ASCII in error codes and messages.
- GatewayLimiter.RedisRateLimiterGuard.CanActivate: Redis failures, and a crash between INCR and EXPIRE.
- IdempotencyProtocol.CallersAgree: expiry of records; the Redis branch, which is not at-most-once (no second look after taking the lock, and a thrown operation runs again in memory); how storage keys are composed; calls without a key, which just run the operation.
- Pagination.WalkRebuildsList: lists that change between two pages, fractional limits.
- The payload threaded through the steps, cached outputs, and payload sanitizing: no property above depends on them.
- The branches for a database client without `updateMany`, and `replayDeadLetterExecution`, which nothing reaches.
- BullMQ's delays and scheduling: a delayed job may start at any time; its delay is only computed.
- The scan's batch size: a scan may read any set of stale rows, of any size.
- Authorization, metrics, logging, health, configuration, the auth and notification services.
