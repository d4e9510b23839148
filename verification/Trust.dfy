/** When `completed` can be trusted: exactly which assumptions on runs make it mean that every step succeeded. */
module Trust {
  import opened Wrappers
  import opened WorkflowStore
  import opened RetryScheduler
  import opened Protocol
  import opened Invariants
  import opened RunSafety
  import opened Completion
  import opened HappyPath
  import opened Carrier

  /**
   Heartbeats on time, and no step skipped; the latter is had for free if jobs are taken back from dead
   workers only and either every pick-up waits for a dead worker's row to be timed out, or no worker leaves
   a row RUNNING: none crashes, and no write of an end state fails.
   */
  predicate Trusted(d: Discipline) {
    d.timely && (d.noSkip || (d.deadOnly && (d.cleanPickup || (d.crashFree && d.endsWritten))))
  }

  lemma TrustedRunCompletes(d: Discipline, H: int, wf: Workflow, cfg: RetryPolicyConfig, now: int, evs: seq<Event>)
    requires Trusted(d) && SortedByOrder(wf) && OrdersFromOne(wf)
    requires IsRunUnder(d, H, wf, cfg, Triggered(now), evs)
    ensures var db := After(wf, cfg, Triggered(now), evs).db;
            PointerIsSafe(wf, db) && (db.status.Completed? ==> AllSucceeded(wf, db))
  {
    if d.noSkip {
      CompletedMeansAllSucceeded(d, H, wf, cfg, now, evs);
    } else if d.cleanPickup {
      CleanPickupIsCrashSafe(d, H, wf, cfg, now, evs);
    } else {
      TriggeredIsCarried(now);
      CrashFreePickupIsClean(d, H, wf, cfg, Triggered(now), evs);
      CleanPickupIsCrashSafe(d.(cleanPickup := true), H, wf, cfg, now, evs);
    }
  }

  ghost predicate Misleads(d: Discipline, H: int, wf: Workflow, cfg: RetryPolicyConfig, now: int, evs: seq<Event>) {
    && IsRunUnder(d, H, wf, cfg, Triggered(now), evs)
    && After(wf, cfg, Triggered(now), evs).db.status.Completed?
    && !AllSucceeded(wf, After(wf, cfg, Triggered(now), evs).db)
  }

  // ----- late heartbeats

  /** The first worker has done the last step and not yet written so. */
  lemma FirstWorkerAtLastWrite(d: Discipline, H: nat, wf: Workflow, cfg: RetryPolicyConfig, now: int)
    returns (evs: seq<Event>, s: State)
    requires wf != [] && OrdersFromOne(wf)
    ensures IsRunUnder(d, H, wf, cfg, Triggered(now), evs) && Reached(wf, FirstClaim(now), s, 0, |wf| - 1)
    ensures OnTheWay(wf, s, After(wf, cfg, Triggered(now), evs), 0, Finish(Succeed))
  {
    var last := |wf| - 1;
    evs := FirstWorkerWalksTo(d, H, wf, cfg, now, last);
    s := After(wf, cfg, Triggered(now), evs);
    ReachedIsReady(wf, FirstClaim(now), s, 0, last);
    StartIsOnTheWay(wf, s, 0);
    var more := WalkOn(d, H, wf, cfg, s, s, 0, LookSucceeded, Finish(Succeed));
    RunUnderJoins(d, H, wf, cfg, Triggered(now), evs, more);
    evs := evs + more;
  }

  /** The first worker has done the last step and not yet written so; then its lease is scanned as expired. */
  lemma LateHeartbeatMisleads(d: Discipline, H: nat, wf: Workflow, cfg: RetryPolicyConfig, now: int)
    returns (evs: seq<Event>)
    requires !d.timely && wf != [] && OrdersFromOne(wf)
    ensures Misleads(d, H, wf, cfg, now, evs)
  {
    var s;
    evs, s := FirstWorkerAtLastWrite(d, H, wf, cfg, now);
    var s1 := After(wf, cfg, Triggered(now), evs);
    var key := RowKey(|wf| - 1, 1);
    LeaseRunsOut(d, H, wf, cfg, FirstClaim(now), s, s1, 0);
    var tick, read, mark := Tick(ACTIVE_LEASE_MS + 1), ScanRead(key, ACTIVE_LEASE_MS), ScanMark(Suspect(key, true));
    ThreeEventRun(d, H, wf, cfg, s1, tick, read, mark);
    RunUnderJoins(d, H, wf, cfg, Triggered(now), evs, [tick, read, mark]);
    evs := evs + [tick, read, mark];
    var s2 := After(wf, cfg, Triggered(now), evs);
    LostWriteCompletesWithoutTheStep(d, H, wf, cfg, s2, 0);
    var end := [Work(0, DoFinish), Work(0, DoLookSucceeded), Work(0, DoComplete)];
    RunUnderJoins(d, H, wf, cfg, Triggered(now), evs, end);
    evs := evs + end;
  }

  lemma LeaseRunsOut(d: Discipline, H: nat, wf: Workflow, cfg: RetryPolicyConfig, s0: State, s: State, s1: State,
                     w: nat)
    requires !d.timely && wf != [] && Reached(wf, s0, s, w, |wf| - 1) && OnTheWay(wf, s, s1, w, Finish(Succeed))
    ensures var key := s.workers[w].Key();
            var tick, read := Tick(ACTIVE_LEASE_MS + 1), ScanRead(key, ACTIVE_LEASE_MS);
            var mark := ScanMark(Suspect(key, true));
            && Enabled(wf, s1, tick)
            && var s2 := Apply(wf, cfg, s1, tick);
            && Allowed(d, H, s1, tick, s2) && Enabled(wf, s2, read)
            && var s3 := Apply(wf, cfg, s2, read);
            && Allowed(d, H, s2, read, s3) && Enabled(wf, s3, mark)
            && var s4 := Apply(wf, cfg, s3, mark);
            && Allowed(d, H, s3, mark, s4)
            && s4.workers == s1.workers && s4.db.InProgress()
            && !s4.db.OwnsRunning(key, s1.workers[w].host) && !s4.db.Succeeded(|wf| - 1)
  {
  }

  // ----- a step active on another host

  /** In both runs the second worker is a second host's, for the same job. */
  const SECOND_HOST := "b"

  /** The row of the last step is RUNNING on the first host; that step is the only one not done. */
  ghost predicate LastStepRunning(wf: Workflow, db: Db, now: int) {
    && wf != [] && OrdersFromOne(wf) && db.InProgress()
    && (forall i :: 0 <= i < |wf| - 1 ==> db.Succeeded(i))
    && (forall key :: key in db.rows && key.at == |wf| - 1 ==> key == RowKey(|wf| - 1, 1))
    && db.OwnsRunning(RowKey(|wf| - 1, 1), "") && db.rows[RowKey(|wf| - 1, 1)].heartbeatAt == Some(now)
    && (SortedByOrder(wf) ==> db.currentStep <= wf[|wf| - 1].order)
  }

  /** Worker 1, on the second host, has claimed the execution and is about to look for what is left to do. */
  ghost predicate SecondWorkerIn(wf: Workflow, s: State) {
    && LastStepRunning(wf, s.db, s.now)
    && 1 in s.workers && s.workers[1].host == SECOND_HOST && s.workers[1].pc.LookSucceeded? && s.workers[1].at == 0
    && s.workers[1].seenStep <= wf[|wf| - 1].order
  }

  lemma SecondWorkerMisleads(d: Discipline, H: nat, wf: Workflow, cfg: RetryPolicyConfig, now: int, before: seq<Event>)
    returns (evs: seq<Event>)
    requires !d.noSkip && wf != []
    requires IsRunUnder(d, H, wf, cfg, Triggered(now), before)
    requires var s := After(wf, cfg, Triggered(now), before); SecondWorkerIn(wf, s) && Timely(s, H)
    ensures Misleads(d, H, wf, cfg, now, evs)
  {
    var last, key := |wf| - 1, RowKey(|wf| - 1, 1);
    var s := After(wf, cfg, Triggered(now), before);
    var pass := PassOver(d, H, wf, cfg, s, 1, last);
    RunUnderJoins(d, H, wf, cfg, Triggered(now), before, pass);
    var s1 := MovedTo(s, 1, last);
    LooksAtActive(d, H, wf, cfg, s1, last);
    RunUnderThen(d, H, wf, cfg, Triggered(now), before + pass, Work(1, DoLookSucceeded));
    evs := before + pass + [Work(1, DoLookSucceeded)];
    SkipCompletesWithoutTheStep(d, H, wf, cfg, After(wf, cfg, Triggered(now), evs), 1, key);
    var end := [Work(1, DoLookActive(Some(key))), Work(1, DoLookSucceeded), Work(1, DoComplete)];
    RunUnderJoins(d, H, wf, cfg, Triggered(now), evs, end);
    evs := evs + end;
  }

  lemma LooksAtActive(d: Discipline, H: nat, wf: Workflow, cfg: RetryPolicyConfig, s: State, last: nat)
    requires |wf| == last + 1 && 1 in s.workers && s.workers[1].at == last && s.workers[1].pc.LookSucceeded?
    requires SecondWorkerIn(wf, MovedTo(s, 1, 0)) && Timely(MovedTo(s, 1, 0), H)
    ensures Timely(s, H)
    ensures var ev, key := Work(1, DoLookSucceeded), RowKey(last, 1);
            && Enabled(wf, s, ev)
            && var s' := Apply(wf, cfg, s, ev);
            && Allowed(d, H, s, ev, s') && Timely(s', H)
            && 1 in s'.workers && s'.workers[1].at == last && s'.db == s.db && !s'.db.Succeeded(last)
            && Enabled(wf, s', Work(1, DoLookActive(Some(key)))) && Skips(s', Work(1, DoLookActive(Some(key))))
  {
    var s0, s' := MovedTo(s, 1, 0), Apply(wf, cfg, s, Work(1, DoLookSucceeded));
    assert forall u :: u in s.workers && s.workers[u].Beats() ==> s0.workers[u] == s.workers[u];
    assert forall u :: u in s.workers && s'.workers[u].Beats() ==> s0.workers[u] == s'.workers[u];
  }

  lemma StillRunning(wf: Workflow, db: Db, db': Db, now: int)
    requires LastStepRunning(wf, db, now)
    requires db'.rows == db.rows && db'.currentStep == db.currentStep && db'.InProgress()
    ensures LastStepRunning(wf, db', now)
  {
    forall i | 0 <= i < |wf| - 1
      ensures db'.Succeeded(i)
    {
      assert db.Succeeded(i);
    }
  }

  lemma RunsLastStep(d: Discipline, H: nat, wf: Workflow, cfg: RetryPolicyConfig, s0: State) returns (evs: seq<Event>)
    requires Starting(s0, 0) && s0.workers[0].host == "" && wf != [] && OrdersFromOne(wf)
    ensures IsRunUnder(d, H, wf, cfg, s0, evs)
    ensures var s := After(wf, cfg, s0, evs);
            && LastStepRunning(wf, s.db, s.now) && Timely(s, H)
            && s.jobs == s0.jobs && s.deadLetters == s0.deadLetters && s.now == s0.now && s.db.status == s0.db.status
            && 0 in s.workers && s.workers == s0.workers[0 := s.workers[0]]
            && s.workers[0] == s0.workers[0].(pc := Execute, at := |wf| - 1)
  {
    var last := |wf| - 1;
    evs := WalkTo(d, H, wf, cfg, s0, 0, last);
    var s := After(wf, cfg, s0, evs);
    ReachedIsReady(wf, s0, s, 0, last);
    StartIsOnTheWay(wf, s, 0);
    var more := WalkOn(d, H, wf, cfg, s, s, 0, LookSucceeded, Execute);
    RunUnderJoins(d, H, wf, cfg, s0, evs, more);
    OnTheWayIsTimely(wf, s, After(wf, cfg, s, more), 0, Execute, H);
    LastStepIsRunning(wf, s0, s, After(wf, cfg, s, more));
    evs := evs + more;
  }

  lemma LastStepIsRunning(wf: Workflow, s0: State, s: State, s1: State)
    requires wf != [] && OrdersFromOne(wf) && Reached(wf, s0, s, 0, |wf| - 1) && s0.workers[0].host == ""
    requires OnTheWay(wf, s, s1, 0, Execute)
    ensures LastStepRunning(wf, s1.db, s1.now) && s1.workers == s0.workers[0 := s1.workers[0]]
  {
    if SortedByOrder(wf) {
      HighestIsLast(wf, |wf|);
    }
    forall i | 0 <= i < |wf| - 1
      ensures s1.db.Succeeded(i)
    {
      assert s1.db.rows[RowKey(i, 1)].status.StepSucceeded?;
    }
  }

  // The queue takes the job back from a live worker.

  function SecondPickup(now: int): State {
    var s := FirstClaim(now);
    s.(jobs := map[0 := Job(1, 0, Active(1))],
       workers := s.workers[1 := Worker(SECOND_HOST, 0, 1, 1, 0, ClaimExecution)])
  }

  lemma SecondPickupHappens(d: Discipline, H: nat, wf: Workflow, cfg: RetryPolicyConfig, now: int)
    returns (evs: seq<Event>)
    requires !d.deadOnly
    ensures IsRunUnder(d, H, wf, cfg, Triggered(now), evs)
    ensures After(wf, cfg, Triggered(now), evs) == SecondPickup(now) && Starting(SecondPickup(now), 0)
  {
    evs := FirstWorkerStarts(d, H, wf, cfg, now);
    var back, again := Redeliver(0), StartJob(1, SECOND_HOST, 0);
    var s1 := Apply(wf, cfg, FirstClaim(now), back);
    RunUnderThen(d, H, wf, cfg, Triggered(now), evs, back);
    RunUnderThen(d, H, wf, cfg, Triggered(now), evs + [back], again);
    evs := evs + [back] + [again];
    assert Apply(wf, cfg, s1, again).jobs == SecondPickup(now).jobs;
  }

  lemma LivePickupMisleads(d: Discipline, H: nat, wf: Workflow, cfg: RetryPolicyConfig, now: int)
    returns (evs: seq<Event>)
    requires !d.noSkip && !d.deadOnly && wf != [] && OrdersFromOne(wf)
    ensures Misleads(d, H, wf, cfg, now, evs)
  {
    evs := SecondPickupHappens(d, H, wf, cfg, now);
    var more := RunsLastStep(d, H, wf, cfg, SecondPickup(now));
    RunUnderJoins(d, H, wf, cfg, Triggered(now), evs, more);
    evs := evs + more;
    SecondClaim(d, H, wf, cfg, After(wf, cfg, Triggered(now), evs));
    RunUnderThen(d, H, wf, cfg, Triggered(now), evs, Work(1, DoClaimExecution));
    evs := SecondWorkerMisleads(d, H, wf, cfg, now, evs + [Work(1, DoClaimExecution)]);
  }

  lemma SecondClaim(d: Discipline, H: nat, wf: Workflow, cfg: RetryPolicyConfig, s: State)
    requires LastStepRunning(wf, s.db, s.now) && Timely(s, H)
    requires 1 in s.workers && s.workers[1].host == SECOND_HOST && s.workers[1].pc.ClaimExecution? &&
             s.workers[1].at == 0
    requires s.workers[1].seenStep <= wf[|wf| - 1].order
    ensures var ev := Work(1, DoClaimExecution);
            && Enabled(wf, s, ev)
            && var s' := Apply(wf, cfg, s, ev);
            Allowed(d, H, s, ev, s') && Timely(s', H) && SecondWorkerIn(wf, s')
  {
    StillRunning(wf, s.db, Apply(wf, cfg, s, Work(1, DoClaimExecution)).db, s.now);
  }

  // The first worker crashes, and its job is picked up while its row is still RUNNING.

  lemma CrashedPickup(d: Discipline, H: nat, wf: Workflow, cfg: RetryPolicyConfig, s: State)
    requires !d.cleanPickup && !d.crashFree
    requires LastStepRunning(wf, s.db, s.now) && s.workers.Keys == {0} && s.jobs == map[0 := Job(1, 0, Active(0))]
    ensures var crash, back, again := Crash(0), Redeliver(0), StartJob(1, SECOND_HOST, 0);
            && Enabled(wf, s, crash)
            && var s1 := Apply(wf, cfg, s, crash);
            && Allowed(d, H, s, crash, s1) && Enabled(wf, s1, back)
            && var s2 := Apply(wf, cfg, s1, back);
            && Allowed(d, H, s1, back, s2) && Enabled(wf, s2, again)
            && var s3 := Apply(wf, cfg, s2, again);
            && Allowed(d, H, s2, again, s3)
            && s3.workers == map[1 := Worker(SECOND_HOST, 0, 1, s.db.currentStep, 0, ClaimExecution)]
            && s3.db == s.db && s3.now == s.now
  {
    assert s.workers - {0} == map[];
  }

  lemma CrashMisleads(d: Discipline, H: nat, wf: Workflow, cfg: RetryPolicyConfig, now: int) returns (evs: seq<Event>)
    requires !d.noSkip && !d.cleanPickup && !d.crashFree && wf != [] && OrdersFromOne(wf) && SortedByOrder(wf)
    ensures Misleads(d, H, wf, cfg, now, evs)
  {
    evs := FirstWorkerStarts(d, H, wf, cfg, now);
    var more := RunsLastStep(d, H, wf, cfg, FirstClaim(now));
    RunUnderJoins(d, H, wf, cfg, Triggered(now), evs, more);
    evs := evs + more;
    var s := After(wf, cfg, Triggered(now), evs);
    CrashedPickup(d, H, wf, cfg, s);
    var pickup := [Crash(0), Redeliver(0), StartJob(1, SECOND_HOST, 0)];
    ThreeEventRun(d, H, wf, cfg, s, Crash(0), Redeliver(0), StartJob(1, SECOND_HOST, 0));
    RunUnderJoins(d, H, wf, cfg, Triggered(now), evs, pickup);
    evs := evs + pickup;
    SecondClaim(d, H, wf, cfg, After(wf, cfg, Triggered(now), evs));
    RunUnderThen(d, H, wf, cfg, Triggered(now), evs, Work(1, DoClaimExecution));
    evs := SecondWorkerMisleads(d, H, wf, cfg, now, evs + [Work(1, DoClaimExecution)]);
  }

  // The first worker's write of the row's end fails, and the failed job is followed by another.

  /** Worker 0 alone, holding job 0. */
  ghost predicate AloneOnJob(s: State, pc: Pc) {
    && s.workers.Keys == {0} && s.workers[0].pc == pc && s.workers[0].job == 0
    && s.jobs == map[0 := Job(1, 0, Active(0))] && s.deadLetters == {}
  }

  /** What a step fails with, and what the failing write of its end throws. */
  const FAULT := OtherError(false)

  lemma StepFails(d: Discipline, H: nat, wf: Workflow, cfg: RetryPolicyConfig, s: State)
    requires AloneOnJob(s, Execute) && s.workers[0].at < |wf| && Timely(s, H)
    ensures var resolve := Work(0, DoResolve(Fail(FAULT)));
            && Enabled(wf, s, resolve)
            && var s' := Apply(wf, cfg, s, resolve);
            && Allowed(d, H, s, resolve, s') && Timely(s', H)
            && AloneOnJob(s', Finish(Fail(FAULT))) && s'.db == s.db && s'.now == s.now
  {
  }

  /** The write that says so fails too: the row stays RUNNING. */
  lemma EndIsLost(d: Discipline, H: nat, wf: Workflow, cfg: RetryPolicyConfig, s: State)
    requires !d.endsWritten && AloneOnJob(s, Finish(Fail(FAULT))) && Timely(s, H)
    ensures var throw := Work(0, DoThrow(false));
            && Enabled(wf, s, throw)
            && var s' := Apply(wf, cfg, s, throw);
            && Allowed(d, H, s, throw, s') && AloneOnJob(s', Threw(FAULT)) && s'.db == s.db && s'.now == s.now
  {
  }

  /** Nobody works; the next job waits, or the first is filed as dead letter 1. */
  ghost predicate LeftRunning(s: State, s': State) {
    && s'.workers == map[] && s'.now == s.now
    && s'.db.rows == s.db.rows && s'.db.currentStep == s.db.currentStep
    && if s'.jobs == map[] then s'.deadLetters == {1}
       else s'.jobs == map[1 := Job(2, 0, Waiting)] && s'.db.status == s.db.status
  }

  lemma JobIsFollowed(d: Discipline, H: nat, wf: Workflow, cfg: RetryPolicyConfig, s: State)
    requires AloneOnJob(s, Threw(FAULT))
    ensures var fail := JobFailed(0, 0, 1);
            && Enabled(wf, s, fail)
            && var s' := Apply(wf, cfg, s, fail);
            Allowed(d, H, s, fail, s') && LeftRunning(s, s')
  {
    assert s.workers - {0} == map[] && s.jobs - {0} == map[];
  }

  lemma LosesEnd(d: Discipline, H: nat, wf: Workflow, cfg: RetryPolicyConfig, s: State) returns (evs: seq<Event>)
    requires !d.endsWritten && AloneOnJob(s, Execute) && s.workers[0].at < |wf| && Timely(s, H)
    ensures IsRunUnder(d, H, wf, cfg, s, evs) && LeftRunning(s, After(wf, cfg, s, evs))
  {
    var resolve, throw, fail := Work(0, DoResolve(Fail(FAULT))), Work(0, DoThrow(false)), JobFailed(0, 0, 1);
    StepFails(d, H, wf, cfg, s);
    EndIsLost(d, H, wf, cfg, Apply(wf, cfg, s, resolve));
    JobIsFollowed(d, H, wf, cfg, Apply(wf, cfg, Apply(wf, cfg, s, resolve), throw));
    ThreeEventRun(d, H, wf, cfg, s, resolve, throw, fail);
    evs := [resolve, throw, fail];
  }

  /** A job is waiting, and the second host picks it up. */
  lemma SecondHostStarts(d: Discipline, H: nat, wf: Workflow, cfg: RetryPolicyConfig, s: State, j: nat)
    requires !d.cleanPickup && s.workers == map[] && s.jobs.Keys == {j} && s.jobs[j].phase.Waiting?
    ensures var start := StartJob(1, SECOND_HOST, j);
            && Enabled(wf, s, start)
            && var s' := Apply(wf, cfg, s, start);
            && Allowed(d, H, s, start, s') && Timely(s', H) && s'.db == s.db && s'.now == s.now
            && 1 in s'.workers && s'.workers[1].host == SECOND_HOST && s'.workers[1].pc.ClaimExecution?
            && s'.workers[1].at == 0 && s'.workers[1].seenStep == s.db.currentStep
  {
  }

  /** One way or the other there is a job for the second host: the next one, or that of a replay. */
  lemma PickedUpAgain(d: Discipline, H: nat, wf: Workflow, cfg: RetryPolicyConfig, s: State, s0: State)
    returns (evs: seq<Event>)
    requires !d.cleanPickup && LeftRunning(s0, s) && LastStepRunning(wf, s0.db, s0.now) && s0.db.status.Running?
    ensures IsRunUnder(d, H, wf, cfg, s, evs)
    ensures var s' := After(wf, cfg, s, evs);
            && LastStepRunning(wf, s'.db, s'.now) && Timely(s', H) && s'.db.currentStep == s0.db.currentStep
            && 1 in s'.workers && s'.workers[1].host == SECOND_HOST && s'.workers[1].pc.ClaimExecution?
            && s'.workers[1].at == 0 && s'.workers[1].seenStep == s0.db.currentStep
  {
    if s.jobs == map[] {
      var replay := Replay(1, 2);
      var s1 := Apply(wf, cfg, s, replay);
      SecondHostStarts(d, H, wf, cfg, s1, 2);
      StillRunning(wf, s0.db, s1.db, s0.now);
      ConsRunUnder(d, H, wf, cfg, s1, StartJob(1, SECOND_HOST, 2), []);
      ConsRunUnder(d, H, wf, cfg, s, replay, [StartJob(1, SECOND_HOST, 2)] + []);
      evs := [replay] + ([StartJob(1, SECOND_HOST, 2)] + []);
    } else {
      SecondHostStarts(d, H, wf, cfg, s, 1);
      StillRunning(wf, s0.db, s.db, s0.now);
      ConsRunUnder(d, H, wf, cfg, s, StartJob(1, SECOND_HOST, 1), []);
      evs := [StartJob(1, SECOND_HOST, 1)] + [];
    }
  }

  lemma LostEndMisleads(d: Discipline, H: nat, wf: Workflow, cfg: RetryPolicyConfig, now: int) returns (evs: seq<Event>)
    requires !d.noSkip && !d.cleanPickup && !d.endsWritten && wf != [] && OrdersFromOne(wf) && SortedByOrder(wf)
    ensures Misleads(d, H, wf, cfg, now, evs)
  {
    evs := FirstWorkerStarts(d, H, wf, cfg, now);
    var more := RunsLastStep(d, H, wf, cfg, FirstClaim(now));
    RunUnderJoins(d, H, wf, cfg, Triggered(now), evs, more);
    evs := evs + more;
    var s := After(wf, cfg, Triggered(now), evs);
    var failure := LosesEnd(d, H, wf, cfg, s);
    RunUnderJoins(d, H, wf, cfg, Triggered(now), evs, failure);
    evs := evs + failure;
    var pickup := PickedUpAgain(d, H, wf, cfg, After(wf, cfg, Triggered(now), evs), s);
    RunUnderJoins(d, H, wf, cfg, Triggered(now), evs, pickup);
    evs := evs + pickup;
    SecondClaim(d, H, wf, cfg, After(wf, cfg, Triggered(now), evs));
    RunUnderThen(d, H, wf, cfg, Triggered(now), evs, Work(1, DoClaimExecution));
    evs := SecondWorkerMisleads(d, H, wf, cfg, now, evs + [Work(1, DoClaimExecution)]);
  }

  // ----- the exact condition

  lemma UntrustedMisleads(d: Discipline, H: nat, wf: Workflow, cfg: RetryPolicyConfig, now: int)
    returns (evs: seq<Event>)
    requires SortedByOrder(wf) && wf != [] && !(Trusted(d) && OrdersFromOne(wf))
    ensures Misleads(d, H, wf, cfg, now, evs)
  {
    if !OrdersFromOne(wf) {
      evs := EveryWorkflowCanComplete(d, H, wf, cfg, now);
    } else if !d.timely {
      evs := LateHeartbeatMisleads(d, H, wf, cfg, now);
    } else if !d.deadOnly {
      evs := LivePickupMisleads(d, H, wf, cfg, now);
    } else if !d.crashFree {
      evs := CrashMisleads(d, H, wf, cfg, now);
    } else {
      evs := LostEndMisleads(d, H, wf, cfg, now);
    }
  }

  /**
   For every non-empty workflow and every choice of assumptions: `completed` means that all steps
   succeeded, over all runs under the assumptions, exactly when these are Trusted and step orders start from 1.
   */
  lemma CompletionTrustedIff(d: Discipline, H: nat, wf: Workflow, cfg: RetryPolicyConfig, now: int)
    requires SortedByOrder(wf) && wf != []
    ensures Trusted(d) && OrdersFromOne(wf) <==> forall evs :: !Misleads(d, H, wf, cfg, now, evs)
  {
    if Trusted(d) && OrdersFromOne(wf) {
      forall evs
        ensures !Misleads(d, H, wf, cfg, now, evs)
      {
        if IsRunUnder(d, H, wf, cfg, Triggered(now), evs) {
          TrustedRunCompletes(d, H, wf, cfg, now, evs);
        }
      }
    } else {
      var evs := UntrustedMisleads(d, H, wf, cfg, now);
    }
  }
}
