/**
 The execution protocol of one workflow execution as a transition system: its database rows, its
 jobs, its dead letters, the workers on it (each with a program counter), the recovery scan, and the
 requests sent to providers. Every event is one atomic operation of one actor; a run is any sequence
 of enabled events, so actors interleave freely, may stop anywhere, and workers act on stale reads.
 */
module Protocol {
  import opened Wrappers
  import opened WorkflowStore
  import opened RetryScheduler

  datatype Outcome = Succeed | Fail(error: StepError)

  /** Where a worker stands in executeExecution. */
  datatype Pc =
    | ClaimExecution           // about to claim the execution
    | LookSucceeded            // loop head: about to look for a SUCCEEDED row
    | LookActive               // about to look for a row active elsewhere
    | Advance                  // about to move currentStep
    | Create                   // about to insert the PENDING row
    | ClaimRow                 // about to claim that row
    | Execute                  // owns the row; nothing sent yet
    | Sent(delivered: bool)    // request issued; did it reach the provider?
    | Finish(outcome: Outcome) // about to write the row's end state
    | Complete                 // loop left; about to complete the execution
    | Returned
    | Threw(error: StepError)

  datatype Worker = Worker(host: Host, job: nat, attempt: nat, seenStep: int, at: nat, pc: Pc) {
    function Key(): RowKey { RowKey(at, attempt) }

    /** The worker has inserted the row it is working on and has not written its end state. */
    predicate Holds() { pc.ClaimRow? || Beats() }

    /** The worker's heartbeat timer is on. */
    predicate Beats() { pc.Execute? || pc.Sent? || pc.Finish? }

    /** Still inside the loop over the steps, or before it. */
    predicate Walking() { !pc.Returned? && !pc.Threw? }
  }

  datatype JobPhase = Waiting | Active(worker: nat)

  /** A job that is waiting, delayed or active; completed and failed jobs are not live. */
  datatype Job = Job(attempt: nat, deferrals: nat, phase: JobPhase)

  const FRESH_JOB := Job(1, 0, Waiting)

  datatype Request = Request(key: RowKey, delivered: bool)

  /** A row the scan has read as stale, and whether it then saw the execution as running. */
  datatype Suspect = Suspect(key: RowKey, sawRunning: bool)

  datatype State = State(
    now: int,
    startedAt: int,
    db: Db,
    jobs: map<nat, Job>,
    deadLetters: set<nat>,      // unreplayed records; a replay removes its record
    workers: map<nat, Worker>,  // live workers only
    suspects: set<Suspect>,     // everything scans have read so far; a scan may act on any of it, however late
    demotable: bool,            // a scan that saw `running` has timed a row out, and may demote from now on
    recoverable: bool,          // a scan has timed a row out, and may re-enqueue from now on
    requests: seq<Request>)

  /** What a worker does next; each is one atomic operation, or one local step, of executeExecution. */
  datatype Action =
    | DoClaimExecution
    | DoLookSucceeded
    | DoLookActive(found: Option<RowKey>)
    | DoAdvance
    | DoCreate
    | DoClaimRow
    | DoBeat
    | DoSend(delivered: bool)
    | DoResolve(outcome: Outcome)
    | DoFinish
    | DoComplete
    | DoThrow(timeoutCode: bool)  // a database or queue call of the worker fails

  datatype Event =
    | StartJob(w: nat, host: Host, job: nat)
    | Work(w: nat, act: Action)
    | JobCompleted(w: nat)
    | JobFailed(w: nat, draw: int, id: nat)
    | Crash(w: nat)
    | Redeliver(job: nat)                      // the queue takes an active job back
    | StalledOut(job: nat, draw: int, id: nat) // the queue fails an active job
    | Lose(job: nat)                           // the queue drops an active job
    | Tick(ms: nat)
    | ScanRead(key: RowKey, lease: int)
    | ScanMark(suspect: Suspect)
    | ScanDemote
    | Recover(id: nat)
    | Replay(record: nat, id: nat)

  // ----- the worker's program

  /** All that a worker's actions read and write: the rows, its own position, the requests issued. */
  datatype View = View(db: Db, wk: Worker, requests: seq<Request>) {
    function Goto(pc: Pc): View {
      this.(wk := wk.(pc := pc))
    }

    /** On to the next step of the loop. */
    function Continue(): View {
      this.(wk := wk.(pc := LookSucceeded, at := wk.at + 1))
    }
  }

  /** `findFirst` over the rows active for a step: any of them, or nothing if there is none. */
  predicate FindsActive(db: Db, now: int, at: nat, found: Option<RowKey>) {
    match found
    case Some(key) => key in db.rows && key.at == at && IsActive(db.rows[key], now)
    case None => forall key :: key in db.rows && key.at == at ==> !IsActive(db.rows[key], now)
  }

  predicate CanAct(wf: Workflow, now: int, v: View, act: Action) {
    match act
    case DoClaimExecution => v.wk.pc.ClaimExecution?
    case DoLookSucceeded => v.wk.pc.LookSucceeded?
    case DoLookActive(found) => v.wk.pc.LookActive? && FindsActive(v.db, now, v.wk.at, found)
    case DoAdvance => v.wk.pc.Advance? && v.wk.at < |wf|
    case DoCreate => v.wk.pc.Create?
    case DoClaimRow => v.wk.pc.ClaimRow?
    case DoBeat => v.wk.Beats()
    case DoSend(_) => v.wk.pc.Execute? && v.wk.at < |wf| && wf[v.wk.at].http
    case DoResolve(outcome) =>
      && (v.wk.pc.Execute? || v.wk.pc.Sent?) && v.wk.at < |wf|
      && (outcome.Succeed? && wf[v.wk.at].http ==> v.wk.pc == Sent(true))
    case DoFinish => v.wk.pc.Finish?
    case DoComplete => v.wk.pc.Complete?
    case DoThrow(_) => v.wk.Walking() && !v.wk.pc.Execute? && !v.wk.pc.Sent?
  }

  /** What a step's end is recorded as. */
  function EndStatus(outcome: Outcome): StepStatus {
    match outcome
    case Succeed => StepSucceeded
    case Fail(HttpStepError(category, _, statusCode, _)) =>
      if category.Timeout? || statusCode == Some(408) then StepTimedOut else StepFailed
    case Fail(OtherError(timeoutCode)) => if timeoutCode then StepTimedOut else StepFailed
  }

  function Act(wf: Workflow, now: int, v: View, act: Action): View
    requires CanAct(wf, now, v, act)
  {
    var key := v.wk.Key();
    match act
    case DoClaimExecution =>
      v.(db := v.db.ClaimExecution(v.wk.attempt)).Goto(if v.db.Finished() then Returned else LookSucceeded)
    case DoLookSucceeded =>
      if v.wk.at >= |wf| then v.Goto(Complete)
      else if wf[v.wk.at].order < v.wk.seenStep || v.db.Succeeded(v.wk.at) then v.Continue()
      else v.Goto(LookActive)
    case DoLookActive(found) =>
      if found.Some? && v.db.rows[found.value].host != v.wk.host then v.Continue() else v.Goto(Advance)
    case DoAdvance => v.(db := v.db.AdvanceCurrentStep(wf[v.wk.at].order)).Goto(Create)
    case DoCreate =>
      if key in v.db.rows then v.Goto(Threw(OtherError(false)))
      else v.(db := v.db.InsertRow(key, v.wk.host)).Goto(ClaimRow)
    case DoClaimRow =>
      if key in v.db.rows && v.db.rows[key].status.StepPending? then
        v.(db := v.db.ClaimRow(key, v.wk.host, now)).Goto(Execute)
      else v.Continue()
    case DoBeat => v.(db := v.db.Heartbeat(key, v.wk.host, now))
    case DoSend(delivered) => v.(requests := v.requests + [Request(key, delivered)]).Goto(Sent(delivered))
    case DoResolve(outcome) => v.Goto(Finish(outcome))
    case DoFinish =>
      var outcome := v.wk.pc.outcome;
      var v' := v.(db := v.db.FinishRow(key, v.wk.host, EndStatus(outcome)));
      if outcome.Succeed? then v'.Continue() else v'.Goto(Threw(outcome.error))
    case DoComplete => v.(db := v.db.CompleteExecution()).Goto(Returned)
    case DoThrow(timeoutCode) =>
      // a failing SUCCEEDED write is caught inside the loop body, which then tries the failure write
      var error := OtherError(timeoutCode);
      v.Goto(if v.wk.pc == Finish(Succeed) then Finish(Fail(error)) else Threw(error))
  }

  // ----- the whole system

  predicate IsFresh(s: State, id: nat) {
    id !in s.jobs && id !in s.deadLetters
  }

  function ViewOf(s: State, w: nat): View
    requires w in s.workers
  {
    View(s.db, s.workers[w], s.requests)
  }

  predicate Enabled(wf: Workflow, s: State, ev: Event) {
    match ev
    case StartJob(w, _, job) => w !in s.workers && job in s.jobs && s.jobs[job].phase.Waiting?
    case Work(w, act) => w in s.workers && CanAct(wf, s.now, ViewOf(s, w), act)
    case JobCompleted(w) => w in s.workers && s.workers[w].pc.Returned?
    case JobFailed(w, _, id) => w in s.workers && s.workers[w].pc.Threw? && IsFresh(s, id)
    case Crash(w) => w in s.workers
    case Redeliver(job) => job in s.jobs && s.jobs[job].phase.Active?
    case StalledOut(job, _, id) => job in s.jobs && s.jobs[job].phase.Active? && IsFresh(s, id)
    case Lose(job) => job in s.jobs && s.jobs[job].phase.Active?
    case Tick(_) => true
    case ScanRead(key, lease) => key in s.db.rows && IsStale(s.db.rows[key], s.now, lease)
    case ScanMark(suspect) => suspect in s.suspects
    case ScanDemote => s.demotable
    case Recover(id) => s.recoverable && IsFresh(s, id)
    case Replay(record, id) => record in s.deadLetters && s.jobs == map[] && IsFresh(s, id)
  }

  /** A worker still holds the lock of the job it was started for. */
  predicate HoldsJob(s: State, w: nat)
    requires w in s.workers
  {
    var job := s.workers[w].job;
    job in s.jobs && s.jobs[job].phase == Active(w)
  }

  /** The failed-job handler: schedule a retry, or file a dead letter and mark the execution failed. */
  function HandleFailure(s: State, job: nat, error: StepError, draw: int, id: nat, cfg: RetryPolicyConfig): State
    requires job in s.jobs
  {
    var j := s.jobs[job];
    var d := DecideRetry(error, j.attempt, j.deferrals, s.now - s.startedAt, draw, cfg);
    if d.shouldRetry then
      s.(jobs := (s.jobs - {job})[id := Job(d.newNormalAttemptCount, d.newRateLimitDeferralsCount, Waiting)])
    else
      s.(jobs := s.jobs - {job}, deadLetters := s.deadLetters + {id}, db := s.db.MarkAsFailed())
  }

  function Dismiss(s: State, w: nat): State {
    s.(workers := s.workers - {w})
  }

  function Apply(wf: Workflow, cfg: RetryPolicyConfig, s: State, ev: Event): State
    requires Enabled(wf, s, ev)
  {
    match ev
    case StartJob(w, host, job) =>
      s.(jobs := s.jobs[job := s.jobs[job].(phase := Active(w))],
         workers := s.workers[w := Worker(host, job, s.jobs[job].attempt, s.db.currentStep, 0, ClaimExecution)])
    case Work(w, act) =>
      var v := Act(wf, s.now, ViewOf(s, w), act);
      s.(db := v.db, workers := s.workers[w := v.wk], requests := v.requests)
    case JobCompleted(w) =>
      Dismiss(if HoldsJob(s, w) then s.(jobs := s.jobs - {s.workers[w].job}) else s, w)
    case JobFailed(w, draw, id) =>
      Dismiss(
        if HoldsJob(s, w) then HandleFailure(s, s.workers[w].job, s.workers[w].pc.error, draw, id, cfg) else s, w)
    case Crash(w) => Dismiss(s, w)
    case Redeliver(job) => s.(jobs := s.jobs[job := s.jobs[job].(phase := Waiting)])
    case StalledOut(job, draw, id) => HandleFailure(s, job, OtherError(false), draw, id, cfg)
    case Lose(job) => s.(jobs := s.jobs - {job})
    case Tick(ms) => s.(now := s.now + ms)
    case ScanRead(key, _) => s.(suspects := s.suspects + {Suspect(key, s.db.status.Running?)})
    case ScanMark(suspect) =>
      if suspect.key in s.db.rows && s.db.rows[suspect.key].status.StepRunning? then
        s.(db := s.db.TimeOutRow(suspect.key), demotable := s.demotable || suspect.sawRunning,
           recoverable := s.recoverable || !suspect.sawRunning)
      else s
    case ScanDemote => s.(db := s.db.DemoteToRetrying(), recoverable := true)
    case Recover(id) => if s.jobs == map[] then s.(jobs := map[id := FRESH_JOB]) else s
    case Replay(record, id) =>
      s.(deadLetters := s.deadLetters - {record}, db := s.db.LogReplay(), jobs := map[id := FRESH_JOB])
  }

  /** A just-triggered execution: one pending row, one job. */
  function Triggered(now: int): State {
    State(now, now, Db(Pending, 1, 1, map[]), map[0 := FRESH_JOB], {}, map[], {}, false, false, [])
  }

  /** `evs` is a run from s. */
  predicate IsRun(wf: Workflow, cfg: RetryPolicyConfig, s: State, evs: seq<Event>)
    decreases |evs|
  {
    evs == [] || (Enabled(wf, s, evs[0]) && IsRun(wf, cfg, Apply(wf, cfg, s, evs[0]), evs[1..]))
  }

  function After(wf: Workflow, cfg: RetryPolicyConfig, s: State, evs: seq<Event>): State
    requires IsRun(wf, cfg, s, evs)
    decreases |evs|
  {
    if evs == [] then s else After(wf, cfg, Apply(wf, cfg, s, evs[0]), evs[1..])
  }

  /** A run may be extended by any enabled event. */
  lemma {:induction false} RunThen(wf: Workflow, cfg: RetryPolicyConfig, s: State, evs: seq<Event>, ev: Event)
    requires IsRun(wf, cfg, s, evs) && Enabled(wf, After(wf, cfg, s, evs), ev)
    ensures IsRun(wf, cfg, s, evs + [ev])
    ensures After(wf, cfg, s, evs + [ev]) == Apply(wf, cfg, After(wf, cfg, s, evs), ev)
    decreases |evs|
  {
    if evs == [] {
      assert [ev][1..] == [];
      assert evs + [ev] == [ev];
    } else {
      RunThen(wf, cfg, Apply(wf, cfg, s, evs[0]), evs[1..], ev);
      assert (evs + [ev])[1..] == evs[1..] + [ev];
    }
  }

  /** A longer run goes on from where the shorter one ended. */
  lemma {:induction false} RunSplits(wf: Workflow, cfg: RetryPolicyConfig, s: State, evs: seq<Event>, evs': seq<Event>)
    requires IsRun(wf, cfg, s, evs') && evs <= evs'
    ensures IsRun(wf, cfg, s, evs) && IsRun(wf, cfg, After(wf, cfg, s, evs), evs'[|evs|..])
    ensures After(wf, cfg, s, evs') == After(wf, cfg, After(wf, cfg, s, evs), evs'[|evs|..])
    decreases |evs|
  {
    if evs == [] {
      assert evs'[|evs|..] == evs';
    } else {
      RunSplits(wf, cfg, Apply(wf, cfg, s, evs[0]), evs[1..], evs'[1..]);
      assert evs'[1..][|evs[1..]|..] == evs'[|evs|..];
    }
  }
}
