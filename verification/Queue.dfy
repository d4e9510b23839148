/**
 QueueService: the workflow queue and the dead-letter queue, shared by many executions. A trigger, a
 failed job, the recovery of stale executions (check and enqueue) and a replay are each taken as one
 uninterrupted operation.
 */
module Queue {
  import opened Wrappers
  import opened WorkflowStore
  import opened RetryScheduler

  type ExecutionId = string
  type TenantId = string

  datatype JobState = Waiting | Delayed(ms: int) | Active | JobDone | JobFailed

  datatype Job = Job(execution: ExecutionId, tenant: TenantId, attempt: nat, deferrals: nat, state: JobState) {
    predicate Live() { state.Waiting? || state.Delayed? || state.Active? }
  }

  function FreshJob(execution: ExecutionId, tenant: TenantId): Job {
    Job(execution, tenant, 1, 0, Waiting)
  }

  datatype DeadLetter = DeadLetter(execution: ExecutionId, tenant: TenantId, retryCount: nat, deferralCount: nat,
                                   replayed: bool)

  type Jobs = map<nat, Job>
  type Letters = map<nat, DeadLetter>
  type Executions = map<ExecutionId, ExecutionStatus>

  predicate IsLiveJobOf(jobs: Jobs, id: nat, e: ExecutionId) {
    id in jobs && jobs[id].execution == e && jobs[id].Live()
  }

  predicate IsLetterOf(letters: Letters, id: nat, e: ExecutionId) {
    id in letters && letters[id].execution == e && !letters[id].replayed
  }

  predicate HasLiveJob(jobs: Jobs, e: ExecutionId) {
    exists id :: id in jobs && IsLiveJobOf(jobs, id, e)
  }

  predicate HasLetter(letters: Letters, e: ExecutionId) {
    exists id :: id in letters && IsLetterOf(letters, id, e)
  }

  ghost predicate AtMostOneLiveJob(jobs: Jobs, e: ExecutionId) {
    forall a, b :: IsLiveJobOf(jobs, a, e) && IsLiveJobOf(jobs, b, e) ==> a == b
  }

  ghost predicate AtMostOneLetter(letters: Letters, e: ExecutionId) {
    forall a, b :: IsLetterOf(letters, a, e) && IsLetterOf(letters, b, e) ==> a == b
  }

  predicate IsCompleted(executions: Executions, e: ExecutionId) {
    e in executions && executions[e].Completed?
  }

  /** Exactly one live job, or completed, or exactly one unreplayed dead letter; and only one of the three. */
  ghost predicate Carried(jobs: Jobs, letters: Letters, executions: Executions, e: ExecutionId) {
    && AtMostOneLiveJob(jobs, e) && AtMostOneLetter(letters, e)
    && One(HasLiveJob(jobs, e)) + One(HasLetter(letters, e)) + One(IsCompleted(executions, e)) == 1
  }

  /** A job of one execution, added or overwritten, is nothing to another. */
  lemma OtherJobsAgree(jobs: Jobs, id: nat, job: Job, f: ExecutionId)
    requires f != job.execution && (id in jobs ==> jobs[id].execution == job.execution)
    ensures HasLiveJob(jobs[id := job], f) <==> HasLiveJob(jobs, f)
    ensures AtMostOneLiveJob(jobs[id := job], f) <==> AtMostOneLiveJob(jobs, f)
  {
    SameLiveJobs(jobs, jobs[id := job], f);
  }

  lemma SameLiveJobs(jobs: Jobs, jobs': Jobs, f: ExecutionId)
    requires forall k :: IsLiveJobOf(jobs', k, f) <==> IsLiveJobOf(jobs, k, f)
    ensures HasLiveJob(jobs', f) <==> HasLiveJob(jobs, f)
    ensures AtMostOneLiveJob(jobs', f) <==> AtMostOneLiveJob(jobs, f)
  {
  }

  lemma AddedJob(jobs: Jobs, id: nat, job: Job, f: ExecutionId)
    requires id !in jobs && job.Live()
    ensures HasLiveJob(jobs[id := job], f) <==> HasLiveJob(jobs, f) || f == job.execution
    ensures AtMostOneLiveJob(jobs, f) && (f == job.execution ==> !HasLiveJob(jobs, f)) ==>
              AtMostOneLiveJob(jobs[id := job], f)
  {
    var jobs' := jobs[id := job];
    if f != job.execution {
      OtherJobsAgree(jobs, id, job, f);
    } else {
      assert IsLiveJobOf(jobs', id, f);
      assert forall k :: IsLiveJobOf(jobs', k, f) ==> k == id || IsLiveJobOf(jobs, k, f);
    }
  }

  lemma EndedJob(jobs: Jobs, id: nat, job: Job, f: ExecutionId)
    requires id in jobs && jobs[id].Live() && !job.Live() && job.execution == jobs[id].execution
    requires AtMostOneLiveJob(jobs, f)
    ensures AtMostOneLiveJob(jobs[id := job], f)
    ensures HasLiveJob(jobs[id := job], f) <==> HasLiveJob(jobs, f) && f != job.execution
  {
    var jobs' := jobs[id := job];
    if f != job.execution {
      OtherJobsAgree(jobs, id, job, f);
    } else {
      assert IsLiveJobOf(jobs, id, f);
      assert forall k :: IsLiveJobOf(jobs', k, f) ==> k != id && IsLiveJobOf(jobs, k, f);
    }
  }

  lemma FiledLetter(letters: Letters, id: nat, letter: DeadLetter, f: ExecutionId)
    requires id !in letters && !letter.replayed
    requires AtMostOneLetter(letters, f) && (f == letter.execution ==> !HasLetter(letters, f))
    ensures AtMostOneLetter(letters[id := letter], f)
    ensures HasLetter(letters[id := letter], f) <==> HasLetter(letters, f) || f == letter.execution
  {
    var letters' := letters[id := letter];
    assert IsLetterOf(letters', id, letter.execution);
    assert forall k :: IsLetterOf(letters', k, f) <==> IsLetterOf(letters, k, f) || (k == id && f == letter.execution);
    if k :| k in letters && IsLetterOf(letters, k, f) {
      assert IsLetterOf(letters', k, f);
    }
  }

  lemma RemovedLetter(letters: Letters, id: nat, f: ExecutionId)
    requires id in letters && !letters[id].replayed && AtMostOneLetter(letters, f)
    ensures AtMostOneLetter(letters - {id}, f)
    ensures HasLetter(letters - {id}, f) <==> HasLetter(letters, f) && f != letters[id].execution
  {
    var letters' := letters - {id};
    assert IsLetterOf(letters, id, letters[id].execution);
    assert forall k :: IsLetterOf(letters', k, f) <==> IsLetterOf(letters, k, f) && k != id;
    if k :| k in letters && IsLetterOf(letters, k, f) && k != id {
      assert IsLetterOf(letters', k, f);
    }
  }

  datatype ReplayResult =
    | Replayed(job: nat)
    | NotFound
    | CrossTenant
    | StillActive
    | AlreadyReplayed

  class QueueService {
    var workflowQueue: Jobs
    var dlqQueue: Letters
    var executions: Executions
    var nextId: nat

    ghost predicate Valid()
      reads this
    {
      && (forall id :: id in workflowQueue ==> id < nextId)
      && (forall id :: id in dlqQueue ==> id < nextId)
    }

    ghost predicate IsCarried(e: ExecutionId)
      reads this
    {
      Carried(workflowQueue, dlqQueue, executions, e)
    }

    constructor ()
      ensures Valid() && workflowQueue == map[] && dlqQueue == map[] && executions == map[]
    {
      workflowQueue, dlqQueue, executions, nextId := map[], map[], map[], 0;
    }

    method EnqueueWorkflowExecution(e: ExecutionId, tenant: TenantId) returns (id: nat)
      requires Valid()
      modifies this`workflowQueue, this`nextId
      ensures Valid() && id !in old(workflowQueue)
      ensures workflowQueue == old(workflowQueue)[id := FreshJob(e, tenant)]
    {
      id := nextId;
      nextId := nextId + 1;
      workflowQueue := workflowQueue[id := FreshJob(e, tenant)];
    }

    /**
     The loop of recoverStaleExecutions over what the scan has returned: it enqueues exactly the
     executions without a live job, once each even if the list repeats them; afterwards every listed
     execution has a live job, and none that had at most one has two.
     */
    method RecoverStaleExecutions(staleList: seq<(ExecutionId, TenantId)>)
      returns (reenqueuedCount: nat, reenqueuedIds: seq<ExecutionId>)
      requires Valid()
      modifies this`workflowQueue, this`nextId
      ensures Valid() && reenqueuedCount == |reenqueuedIds|
      ensures forall i, j :: 0 <= i < j < |reenqueuedIds| ==> reenqueuedIds[i] != reenqueuedIds[j]
      ensures forall e :: e in reenqueuedIds <==> Listed(staleList, e) && !HasLiveJob(old(workflowQueue), e)
      ensures forall e :: HasLiveJob(workflowQueue, e) <==> HasLiveJob(old(workflowQueue), e) || Listed(staleList, e)
      ensures forall e :: AtMostOneLiveJob(old(workflowQueue), e) ==> AtMostOneLiveJob(workflowQueue, e)
      ensures forall id :: id in old(workflowQueue) ==>
                id in workflowQueue && workflowQueue[id] == old(workflowQueue[id])
      ensures forall id :: id in workflowQueue && id !in old(workflowQueue) ==> IsFreshFor(workflowQueue[id], staleList)
    {
      reenqueuedCount, reenqueuedIds := 0, [];
      for n := 0 to |staleList|
        invariant Valid() && reenqueuedCount == |reenqueuedIds|
        invariant forall i, j :: 0 <= i < j < |reenqueuedIds| ==> reenqueuedIds[i] != reenqueuedIds[j]
        invariant forall e :: e in reenqueuedIds <==> Listed(staleList[..n], e) && !HasLiveJob(old(workflowQueue), e)
        invariant forall e :: HasLiveJob(workflowQueue, e) <==>
                    HasLiveJob(old(workflowQueue), e) || Listed(staleList[..n], e)
        invariant forall e :: AtMostOneLiveJob(old(workflowQueue), e) ==> AtMostOneLiveJob(workflowQueue, e)
        invariant forall id :: id in old(workflowQueue) ==>
                    id in workflowQueue && workflowQueue[id] == old(workflowQueue[id])
        invariant forall id :: id in workflowQueue && id !in old(workflowQueue) ==>
                    IsFreshFor(workflowQueue[id], staleList)
      {
        var (e, tenant) := staleList[n];
        ListedGrows(staleList, n);
        var alreadyQueued := HasLiveJob(workflowQueue, e);
        if !alreadyQueued {
          ghost var before := workflowQueue;
          var id := EnqueueWorkflowExecution(e, tenant);
          forall f {
            AddedJob(before, id, FreshJob(e, tenant), f);
          }
          reenqueuedCount := reenqueuedCount + 1;
          reenqueuedIds := reenqueuedIds + [e];
        }
      }
      assert staleList[..|staleList|] == staleList;
    }

    /** The failed handler: the job's execution goes on to its next job or its dead letter, never both or neither. */
    method OnJobFailed(jobId: nat, error: StepError, elapsedMs: int, draw: int) returns (decision: RetryDecision)
      requires Valid() && jobId in workflowQueue && workflowQueue[jobId].state.Active?
      modifies this
      ensures Valid()
      ensures forall f :: old(IsCarried(f)) ==> IsCarried(f)
      ensures var job := old(workflowQueue[jobId]);
              && decision == DecideRetry(error, job.attempt, job.deferrals, elapsedMs, draw, DEFAULT_POLICY)
              && (old(IsCarried(workflowQueue[jobId].execution)) ==>
                    CarrierMoves(workflowQueue, dlqQueue, job.execution, decision))
              && var ended := old(workflowQueue)[jobId := job.(state := JobFailed)];
              && (decision.shouldRetry ==>
                    && workflowQueue == ended[old(nextId) := NextJob(job, decision)]
                    && dlqQueue == old(dlqQueue) && executions == old(executions))
              && (!decision.shouldRetry ==>
                    && workflowQueue == ended
                    && dlqQueue == old(dlqQueue)[old(nextId) := LetterFor(job)]
                    && executions == AfterFailure(old(executions), job.execution))
    {
      ghost var jobs, letters, statuses := workflowQueue, dlqQueue, executions;
      var job := workflowQueue[jobId];
      decision := DecideRetry(error, job.attempt, job.deferrals, elapsedMs, draw, DEFAULT_POLICY);
      workflowQueue := workflowQueue[jobId := job.(state := JobFailed)];
      var id := nextId;
      nextId := nextId + 1;
      if decision.shouldRetry {
        workflowQueue := workflowQueue[id := NextJob(job, decision)];
      } else {
        dlqQueue := dlqQueue[id := LetterFor(job)];
        MarkAsFailed(job.execution);
      }
      forall f | Carried(jobs, letters, statuses, f)
        ensures IsCarried(f) && (f == job.execution ==> CarrierMoves(workflowQueue, dlqQueue, f, decision))
      {
        FailureKeepsCarrier(jobs, letters, statuses, jobId, id, decision, f);
      }
    }

    /** The letter is the requesting tenant's; who names no tenant, or an empty one, may ask for any. */
    predicate MayTouch(jobId: nat, requestTenant: Option<TenantId>)
      requires jobId in dlqQueue
      reads this
    {
      requestTenant == None || requestTenant == Some("") || requestTenant == Some(dlqQueue[jobId].tenant)
    }

    /** Nothing speaks against replaying the letter. */
    predicate MayReplay(jobId: nat, requestTenant: Option<TenantId>)
      reads this
    {
      && jobId in dlqQueue && MayTouch(jobId, requestTenant)
      && !HasLiveJob(workflowQueue, dlqQueue[jobId].execution)
      && !dlqQueue[jobId].replayed
    }

    /**
     Replay of a dead letter: refused without any effect, or the letter is gone and its execution has one
     fresh job. Another tenant learns of a letter that it is not theirs and nothing else; a letter of the
     tenant's own whose execution is live is refused for that, replayed or not.
     */
    method ReplayDlqJob(jobId: nat, requestTenant: Option<TenantId>) returns (result: ReplayResult)
      requires Valid()
      modifies this
      ensures Valid()
      ensures result.Replayed? <==> old(MayReplay(jobId, requestTenant))
      ensures !result.Replayed? ==>
                workflowQueue == old(workflowQueue) && dlqQueue == old(dlqQueue) && executions == old(executions)
      ensures result.NotFound? <==> jobId !in old(dlqQueue)
      ensures result.CrossTenant? <==> jobId in old(dlqQueue) && !old(MayTouch(jobId, requestTenant))
      ensures jobId in old(dlqQueue) && old(MayTouch(jobId, requestTenant)) ==>
                var letter := old(dlqQueue[jobId]);
                && (result.StillActive? <==> HasLiveJob(old(workflowQueue), letter.execution))
                && (result.AlreadyReplayed? <==> letter.replayed && !HasLiveJob(old(workflowQueue), letter.execution))
      ensures result.Replayed? ==>
                var letter := old(dlqQueue[jobId]);
                && result.job !in old(workflowQueue) && dlqQueue == old(dlqQueue) - {jobId}
                && workflowQueue == old(workflowQueue)[result.job := FreshJob(letter.execution, letter.tenant)]
                && HasLiveJob(workflowQueue, letter.execution)
                && executions == AfterReplay(old(executions), letter.execution)
      ensures forall f :: old(IsCarried(f)) ==> IsCarried(f)
    {
      if jobId !in dlqQueue {
        return NotFound;
      }
      var letter := dlqQueue[jobId];
      var e := letter.execution;
      if requestTenant.Some? && requestTenant.value != "" && letter.tenant != requestTenant.value {
        return CrossTenant;
      }
      if HasLiveJob(workflowQueue, e) {
        return StillActive;
      }
      if letter.replayed {
        return AlreadyReplayed;
      }
      ghost var jobs, letters, statuses := workflowQueue, dlqQueue, executions;
      dlqQueue := dlqQueue - {jobId};
      LogReplayEvent(e);
      var id := EnqueueWorkflowExecution(e, letter.tenant);
      AddedJob(jobs, id, FreshJob(e, letter.tenant), e);
      forall f | Carried(jobs, letters, statuses, f)
        ensures IsCarried(f)
      {
        ReplayKeepsCarrier(jobs, letters, statuses, jobId, id, f);
      }
      return Replayed(id);
    }

    method LogReplayEvent(e: ExecutionId)
      modifies this`executions
      ensures executions == AfterReplay(old(executions), e)
    {
      if e in executions {
        executions := executions[e := Running];
      }
    }

    method MarkAsFailed(e: ExecutionId)
      modifies this`executions
      ensures executions == AfterFailure(old(executions), e)
    {
      if e in executions && !executions[e].Completed? {
        executions := executions[e := Failed];
      }
    }
  }

  /** The job a retry decision leads to. */
  function NextJob(job: Job, decision: RetryDecision): Job {
    job.(attempt := decision.newNormalAttemptCount, deferrals := decision.newRateLimitDeferralsCount,
         state := Delayed(decision.delayMs))
  }

  function LetterFor(job: Job): DeadLetter {
    DeadLetter(job.execution, job.tenant, job.attempt, job.deferrals, false)
  }

  function AfterFailure(executions: Executions, e: ExecutionId): Executions {
    if e in executions && !executions[e].Completed? then executions[e := Failed] else executions
  }

  /** A retry keeps the execution in the workflow queue; anything else moves it to the dead letters. */
  predicate CarrierMoves(jobs: Jobs, letters: Letters, e: ExecutionId, decision: RetryDecision) {
    && (HasLiveJob(jobs, e) <==> decision.shouldRetry)
    && (HasLetter(letters, e) <==> !decision.shouldRetry)
  }

  lemma FailureKeepsCarrier(jobs: Jobs, letters: Letters, executions: Executions, jobId: nat, id: nat,
                            decision: RetryDecision,
                            f: ExecutionId)
    requires jobId in jobs && jobs[jobId].Live() && id !in jobs && id !in letters
    requires Carried(jobs, letters, executions, f)
    ensures var job := jobs[jobId];
            var ended := jobs[jobId := job.(state := JobFailed)];
            var jobs' := if decision.shouldRetry then ended[id := NextJob(job, decision)] else ended;
            var letters' := if decision.shouldRetry then letters else letters[id := LetterFor(job)];
            var executions' := if decision.shouldRetry then executions else AfterFailure(executions, job.execution);
            && Carried(jobs', letters', executions', f)
            && (f == job.execution ==> CarrierMoves(jobs', letters', f, decision))
  {
    var job := jobs[jobId];
    var ended := jobs[jobId := job.(state := JobFailed)];
    assert IsLiveJobOf(jobs, jobId, job.execution);
    EndedJob(jobs, jobId, job.(state := JobFailed), f);
    if decision.shouldRetry {
      AddedJob(ended, id, NextJob(job, decision), f);
    } else {
      FiledLetter(letters, id, LetterFor(job), f);
    }
  }

  function AfterReplay(executions: Executions, e: ExecutionId): Executions {
    if e in executions then executions[e := Running] else executions
  }

  lemma ReplayKeepsCarrier(jobs: Jobs, letters: Letters, executions: Executions, jobId: nat, id: nat, f: ExecutionId)
    requires jobId in letters && !letters[jobId].replayed && id !in jobs
    requires !HasLiveJob(jobs, letters[jobId].execution)
    requires Carried(jobs, letters, executions, f)
    ensures var DeadLetter(e, tenant, _, _, _) := letters[jobId];
            Carried(jobs[id := FreshJob(e, tenant)], letters - {jobId}, AfterReplay(executions, e), f)
  {
    var DeadLetter(e, tenant, _, _, _) := letters[jobId];
    AddedJob(jobs, id, FreshJob(e, tenant), f);
    assert IsLetterOf(letters, jobId, e);
    RemovedLetter(letters, jobId, f);
  }

  predicate IsFreshFor(job: Job, staleList: seq<(ExecutionId, TenantId)>) {
    (job.execution, job.tenant) in staleList && job == FreshJob(job.execution, job.tenant)
  }

  predicate Listed(staleList: seq<(ExecutionId, TenantId)>, e: ExecutionId) {
    exists i :: 0 <= i < |staleList| && staleList[i].0 == e
  }

  lemma ListedGrows(staleList: seq<(ExecutionId, TenantId)>, n: nat)
    requires n < |staleList|
    ensures forall e :: Listed(staleList[..n + 1], e) <==> Listed(staleList[..n], e) || e == staleList[n].0
  {
  }
}
