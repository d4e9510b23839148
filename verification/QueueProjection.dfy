/**
 The queue service over many executions, seen from one of them, is the queue of the protocol: what the
 service does to an execution's jobs, letters and status is the protocol's event.
 */
module QueueProjection {
  import opened Wrappers
  import opened WorkflowStore
  import opened RetryScheduler
  import opened Queue
  import Protocol

  /** The protocol's job and the queue's agree. */
  predicate SameJob(p: Protocol.Job, q: Job) {
    p.attempt == q.attempt && p.deferrals == q.deferrals && (p.phase.Active? <==> q.state.Active?)
  }

  /** The state of execution e in the protocol is its part of the two queues and of the status column. */
  ghost predicate Projects(jobs: Jobs, letters: Letters, executions: Executions, e: ExecutionId, s: Protocol.State) {
    && (forall id :: id in s.jobs <==> IsLiveJobOf(jobs, id, e))
    && (forall id :: id in s.jobs ==> SameJob(s.jobs[id], jobs[id]))
    && (forall id :: id in s.deadLetters <==> IsLetterOf(letters, id, e))
    && e in executions && s.db.status == executions[e]
  }

  /** One live job ended and another put in its place. */
  lemma NextJobProjects(jobs: Jobs, letters: Letters, executions: Executions, s: Protocol.State, jobId: nat, id: nat,
                        next: Job)
    requires jobId in jobs && jobs[jobId].Live() && id !in jobs
    requires Projects(jobs, letters, executions, jobs[jobId].execution, s)
    requires next.execution == jobs[jobId].execution && next.Live() && !next.state.Active?
    ensures Projects(jobs[jobId := jobs[jobId].(state := JobFailed)][id := next], letters, executions, next.execution,
                     s.(jobs := (s.jobs - {jobId})[id := Protocol.Job(next.attempt, next.deferrals, Protocol.Waiting)]))
  {
  }

  /** One live job ended and a letter filed. */
  lemma LetterProjects(jobs: Jobs, letters: Letters, executions: Executions, s: Protocol.State, jobId: nat, id: nat)
    requires jobId in jobs && jobs[jobId].Live() && id !in letters
    requires Projects(jobs, letters, executions, jobs[jobId].execution, s)
    ensures var job := jobs[jobId];
            Projects(jobs[jobId := job.(state := JobFailed)], letters[id := LetterFor(job)],
                     AfterFailure(executions, job.execution), job.execution,
                     s.(jobs := s.jobs - {jobId}, deadLetters := s.deadLetters + {id}, db := s.db.MarkAsFailed()))
  {
  }

  /** The failed handler is HandleFailure. */
  lemma FailureProjects(jobs: Jobs, letters: Letters, executions: Executions, s: Protocol.State,
                        jobId: nat, id: nat, error: StepError, draw: int)
    requires jobId in jobs && jobs[jobId].Live() && id !in jobs && id !in letters
    requires Projects(jobs, letters, executions, jobs[jobId].execution, s)
    ensures jobId in s.jobs
    ensures var job := jobs[jobId];
            var decision := DecideRetry(error, job.attempt, job.deferrals, s.now - s.startedAt, draw, DEFAULT_POLICY);
            var ended := jobs[jobId := job.(state := JobFailed)];
            var s' := Protocol.HandleFailure(s, jobId, error, draw, id, DEFAULT_POLICY);
            if decision.shouldRetry then
              Projects(ended[id := NextJob(job, decision)], letters, executions, job.execution, s')
            else
              Projects(ended, letters[id := LetterFor(job)], AfterFailure(executions, job.execution), job.execution, s')
  {
    assert IsLiveJobOf(jobs, jobId, jobs[jobId].execution);
    var job := jobs[jobId];
    assert jobId in s.jobs && SameJob(s.jobs[jobId], job);
    var decision := DecideRetry(error, job.attempt, job.deferrals, s.now - s.startedAt, draw, DEFAULT_POLICY);
    if decision.shouldRetry {
      NextJobProjects(jobs, letters, executions, s, jobId, id, NextJob(job, decision));
    } else {
      LetterProjects(jobs, letters, executions, s, jobId, id);
    }
  }

  /** A replay that is not refused is the protocol's. */
  lemma ReplayProjects(wf: Workflow, jobs: Jobs, letters: Letters, executions: Executions, s: Protocol.State,
                       record: nat, id: nat)
    requires record in letters && !letters[record].replayed && id !in jobs && id !in letters
    requires !HasLiveJob(jobs, letters[record].execution)
    requires Projects(jobs, letters, executions, letters[record].execution, s)
    ensures Protocol.Enabled(wf, s, Protocol.Replay(record, id))
    ensures var DeadLetter(e, tenant, _, _, _) := letters[record];
            Projects(jobs[id := FreshJob(e, tenant)], letters - {record}, AfterReplay(executions, e), e,
                     Protocol.Apply(wf, DEFAULT_POLICY, s, Protocol.Replay(record, id)))
  {
    var e := letters[record].execution;
    assert IsLetterOf(letters, record, e);
    assert forall k :: k in s.jobs ==> IsLiveJobOf(jobs, k, e);
    assert s.jobs == map[];
  }

  /** The recovery of a stale execution is the protocol's: a fresh job exactly if there is no live one. */
  lemma RecoveryProjects(wf: Workflow, jobs: Jobs, letters: Letters, executions: Executions, s: Protocol.State,
                         e: ExecutionId, tenant: TenantId, id: nat)
    requires Projects(jobs, letters, executions, e, s) && s.recoverable && id !in jobs && id !in letters
    ensures Protocol.Enabled(wf, s, Protocol.Recover(id))
    ensures Projects(if HasLiveJob(jobs, e) then jobs else jobs[id := FreshJob(e, tenant)], letters, executions, e,
                     Protocol.Apply(wf, DEFAULT_POLICY, s, Protocol.Recover(id)))
  {
    if HasLiveJob(jobs, e) {
      var k :| k in jobs && IsLiveJobOf(jobs, k, e);
      assert k in s.jobs;
    } else {
      assert forall k :: k in s.jobs ==> IsLiveJobOf(jobs, k, e);
      assert s.jobs == map[];
    }
  }

  /** What happens to the jobs of other executions is nothing to this one. */
  lemma OtherExecutionsProject(jobs: Jobs, letters: Letters, executions: Executions, e: ExecutionId, s: Protocol.State,
                               id: nat, job: Job)
    requires Projects(jobs, letters, executions, e, s)
    requires job.execution != e && (id in jobs ==> jobs[id].execution == job.execution)
    ensures Projects(jobs[id := job], letters, executions, e, s)
  {
    assert forall k :: IsLiveJobOf(jobs[id := job], k, e) <==> IsLiveJobOf(jobs, k, e);
  }
}
