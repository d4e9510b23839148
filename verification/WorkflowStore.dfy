/**
 The rows of one workflow execution and the guarded writes the engine issues against them. Each
 function below is one atomic `updateMany`/`create`: the guard of its where clause, then its data.
 */
module WorkflowStore {
  import opened Wrappers

  type Host = string

  /** One step of the workflow definition; definitions are read sorted by order, ascending. */
  datatype Step = Step(id: string, order: int, http: bool, idempotent: bool)

  type Workflow = seq<Step>

  datatype ExecutionStatus = Pending | Running | Retrying | Completed | Failed

  datatype StepStatus = StepPending | StepRunning | StepSucceeded | StepFailed | StepTimedOut

  /** The unique key of a StepExecution row within its execution: position of the step, attempt number. */
  datatype RowKey = RowKey(at: nat, attempt: nat)

  datatype StepRow = StepRow(
    status: StepStatus,
    version: nat,
    host: Host,
    startedAt: Option<int>,
    heartbeatAt: Option<int>)
  {
    predicate Ended() {
      status.StepSucceeded? || status.StepFailed? || status.StepTimedOut?
    }
  }

  datatype Db = Db(status: ExecutionStatus, currentStep: int, version: nat, rows: map<RowKey, StepRow>) {
    predicate Finished() {
      status.Completed? || status.Failed?
    }

    predicate InProgress() {
      status.Running? || status.Retrying?
    }

    /** Claim of the whole execution: pending, retrying or running, to running (first attempt) or retrying. */
    function ClaimExecution(attempt: nat): Db
    {
      if Finished() then this
      else this.(status := if attempt > 1 then Retrying else Running, version := version + 1)
    }

    function AdvanceCurrentStep(order: int): Db {
      if currentStep < order && InProgress() then this.(currentStep := order, version := version + 1) else this
    }

    /** Insert of a PENDING row. The caller must have checked the unique key. */
    function InsertRow(key: RowKey, host: Host): Db {
      this.(rows := rows[key := StepRow(StepPending, 1, host, None, None)])
    }

    /** PENDING to RUNNING. */
    function ClaimRow(key: RowKey, host: Host, now: int): Db {
      if key in rows && rows[key].status.StepPending? then
        this.(rows := rows[key := StepRow(StepRunning, rows[key].version + 1, host, Some(now), Some(now))])
      else this
    }

    /** The guard of every later write of a worker to its row: still RUNNING and still this host's. */
    predicate OwnsRunning(key: RowKey, host: Host) {
      key in rows && rows[key].status.StepRunning? && rows[key].host == host
    }

    function Heartbeat(key: RowKey, host: Host, now: int): Db {
      if OwnsRunning(key, host) then this.(rows := rows[key := rows[key].(heartbeatAt := Some(now))]) else this
    }

    /** RUNNING to SUCCEEDED, FAILED or TIMED_OUT, by the worker. */
    function FinishRow(key: RowKey, host: Host, end: StepStatus): Db {
      if OwnsRunning(key, host) then
        this.(rows := rows[key := rows[key].(status := end, version := rows[key].version + 1)])
      else this
    }

    function CompleteExecution(): Db {
      if InProgress() then this.(status := Completed, version := version + 1) else this
    }

    /** RUNNING to TIMED_OUT, by the recovery scan: whoever owns it, and without a version bump. */
    function TimeOutRow(key: RowKey): Db {
      if key in rows && rows[key].status.StepRunning? then
        this.(rows := rows[key := rows[key].(status := StepTimedOut)])
      else this
    }

    function DemoteToRetrying(): Db {
      if status.Running? then this.(status := Retrying, version := version + 1) else this
    }

    function MarkAsFailed(): Db {
      if status.Completed? then this else this.(status := Failed, version := version + 1)
    }

    /** The replay log write: no guard, no version bump. */
    function LogReplay(): Db {
      this.(status := Running)
    }

    predicate Succeeded(at: nat) {
      exists key :: key in rows && key.at == at && rows[key].status.StepSucceeded?
    }
  }

  const ACTIVE_LEASE_MS := 30_000

  /** The engine's test that somebody is working on the row right now. */
  predicate IsActive(row: StepRow, now: int) {
    row.status.StepRunning? && row.heartbeatAt.Some? && row.heartbeatAt.value >= now - ACTIVE_LEASE_MS
  }

  /** The recovery scan's test that the row's worker is gone. */
  predicate IsStale(row: StepRow, now: int, lease: int) {
    row.status.StepRunning? &&
    match row.heartbeatAt
    case Some(beat) => beat < now - lease
    case None => row.startedAt.Some? && row.startedAt.value < now - lease
  }
}
