/** Which assumptions on runs it takes for an execution always to have exactly one carrier. */
module CarrierConditions {
  import opened Wrappers
  import opened WorkflowStore
  import opened RetryScheduler
  import opened Protocol
  import opened Completion
  import opened HappyPath
  import opened Carrier
  import opened Trust
  import opened Revival

  ghost predicate HasOneCarrier(s: State) {
    && (CarriedBy(s, LiveJob) || CarriedBy(s, Done) || CarriedBy(s, DeadLetter))
    && (forall g, h :: CarriedBy(s, g) && CarriedBy(s, h) ==> g == h)
  }

  ghost predicate BreaksCarrier(d: Discipline, H: int, wf: Workflow, cfg: RetryPolicyConfig, now: int,
                                evs: seq<Event>)
  {
    IsRunUnder(d, H, wf, cfg, Triggered(now), evs) && !HasOneCarrier(After(wf, cfg, Triggered(now), evs))
  }

  // ----- the job is lost

  lemma LostFromLiveWorker(d: Discipline, H: nat, wf: Workflow, cfg: RetryPolicyConfig, now: int)
    returns (evs: seq<Event>)
    requires !d.deadOnly
    ensures BreaksCarrier(d, H, wf, cfg, now, evs)
  {
    evs := FirstWorkerStarts(d, H, wf, cfg, now);
    RunUnderThen(d, H, wf, cfg, Triggered(now), evs, Lose(0));
    evs := evs + [Lose(0)];
    assert FirstClaim(now).jobs - {0} == map[];
  }

  lemma LostAfterCrash(d: Discipline, H: nat, wf: Workflow, cfg: RetryPolicyConfig, now: int) returns (evs: seq<Event>)
    requires !d.crashFree
    ensures BreaksCarrier(d, H, wf, cfg, now, evs)
  {
    evs := FirstWorkerStarts(d, H, wf, cfg, now);
    RunUnderThen(d, H, wf, cfg, Triggered(now), evs, Crash(0));
    assert FirstClaim(now).workers - {0} == map[];
    RunUnderThen(d, H, wf, cfg, Triggered(now), evs + [Crash(0)], Lose(0));
    evs := evs + [Crash(0)] + [Lose(0)];
    assert FirstClaim(now).jobs - {0} == map[];
  }

  // ----- a live worker's row is timed out, and its execution recovered after the job has failed for good

  const PERMANENT := HttpStepError(PermanentFailure, false, None, None)

  /** Worker 0 is alone on the only job. */
  ghost predicate AtWork(wf: Workflow, s: State, pc: Pc) {
    AloneOnJob(s, pc) && s.workers[0].at < |wf| && s.workers[0].host == ""
  }

  /** Worker 0 has claimed the row of a step that is due; no other row is RUNNING. */
  ghost predicate AtStep(wf: Workflow, s: State, key: RowKey) {
    && AtWork(wf, s, Execute) && s.db.status.Running?
    && s.db.OwnsRunning(key, "") && s.db.rows[key].heartbeatAt == Some(s.now)
    && forall k :: k in s.db.rows && s.db.rows[k].status.StepRunning? ==> k == key
  }

  lemma GetsToStep(d: Discipline, H: nat, wf: Workflow, cfg: RetryPolicyConfig, now: int, at: nat)
    returns (evs: seq<Event>)
    requires at < |wf| && 1 <= wf[at].order
    ensures IsRunUnder(d, H, wf, cfg, Triggered(now), evs)
    ensures var s := After(wf, cfg, Triggered(now), evs); AtStep(wf, s, RowKey(at, 1)) && Timely(s, H)
  {
    evs := FirstWorkerWalksTo(d, H, wf, cfg, now, at);
    var s := After(wf, cfg, Triggered(now), evs);
    ReachedIsReady(wf, FirstClaim(now), s, 0, at);
    StartIsOnTheWay(wf, s, 0);
    var walk := WalkOn(d, H, wf, cfg, s, s, 0, LookSucceeded, Execute);
    RunUnderJoins(d, H, wf, cfg, Triggered(now), evs, walk);
    OnTheWayIsTimely(wf, s, After(wf, cfg, s, walk), 0, Execute, H);
    ArrivedAtStep(wf, FirstClaim(now), s, After(wf, cfg, s, walk), at);
    evs := evs + walk;
  }

  lemma ArrivedAtStep(wf: Workflow, s0: State, s: State, s1: State, at: nat)
    requires at < |wf| && Reached(wf, s0, s, 0, at) && OnTheWay(wf, s, s1, 0, Execute)
    requires s0.workers.Keys == {0} && s0.workers[0].host == "" && s0.workers[0].job == 0
    requires s0.jobs == map[0 := Job(1, 0, Active(0))] && s0.deadLetters == {}
    ensures AtStep(wf, s1, RowKey(at, 1))
  {
  }

  /** The lease runs out, and a scan times the row out. */
  lemma ScanMarks(d: Discipline, H: nat, wf: Workflow, cfg: RetryPolicyConfig, s: State, key: RowKey)
    requires !d.timely && AtStep(wf, s, key)
    ensures var tick, read := Tick(ACTIVE_LEASE_MS + 1), ScanRead(key, ACTIVE_LEASE_MS);
            var mark := ScanMark(Suspect(key, true));
            && Enabled(wf, s, tick)
            && var s1 := Apply(wf, cfg, s, tick);
            && Allowed(d, H, s, tick, s1) && Enabled(wf, s1, read)
            && var s2 := Apply(wf, cfg, s1, read);
            && Allowed(d, H, s1, read, s2) && Enabled(wf, s2, mark)
            && var s3 := Apply(wf, cfg, s2, mark);
            && Allowed(d, H, s2, mark, s3) && AtWork(wf, s3, Execute) && s3.demotable
  {
  }

  lemma ScanDemotes(d: Discipline, H: nat, wf: Workflow, cfg: RetryPolicyConfig, s: State)
    requires !d.timely && AtWork(wf, s, Execute) && s.demotable
    ensures Enabled(wf, s, ScanDemote)
    ensures var s' := Apply(wf, cfg, s, ScanDemote);
            Allowed(d, H, s, ScanDemote, s') && AtWork(wf, s', Execute) && s'.recoverable
  {
  }

  /** The worker's step fails for good. */
  lemma StepFailsForGood(d: Discipline, H: nat, wf: Workflow, cfg: RetryPolicyConfig, s: State)
    requires !d.timely && AtWork(wf, s, Execute) && s.recoverable
    ensures var resolve, finish := Work(0, DoResolve(Fail(PERMANENT))), Work(0, DoFinish);
            && Enabled(wf, s, resolve)
            && var s1 := Apply(wf, cfg, s, resolve);
            && Allowed(d, H, s, resolve, s1) && Enabled(wf, s1, finish)
            && var s2 := Apply(wf, cfg, s1, finish);
            && Allowed(d, H, s1, finish, s2) && AtWork(wf, s2, Threw(PERMANENT)) && s2.recoverable
  {
  }

  /** The job goes to the dead letters, and the scan enqueues a fresh one. */
  lemma RecoveredAfterLetter(d: Discipline, H: nat, wf: Workflow, cfg: RetryPolicyConfig, s: State)
    requires !d.timely && AtWork(wf, s, Threw(PERMANENT)) && s.recoverable
    ensures var fail, recover := JobFailed(0, 0, 1), Recover(2);
            && Enabled(wf, s, fail)
            && var s1 := Apply(wf, cfg, s, fail);
            && Allowed(d, H, s, fail, s1) && Enabled(wf, s1, recover)
            && var s2 := Apply(wf, cfg, s1, recover);
            && Allowed(d, H, s1, recover, s2) && s2.jobs == map[2 := FRESH_JOB] && s2.deadLetters == {1}
  {
    assert s.jobs - {0} == map[];
  }

  lemma RecoveredAlive(d: Discipline, H: nat, wf: Workflow, cfg: RetryPolicyConfig, now: int, at: nat)
    returns (evs: seq<Event>)
    requires !d.timely && at < |wf| && 1 <= wf[at].order
    ensures BreaksCarrier(d, H, wf, cfg, now, evs)
  {
    evs := GetsToStep(d, H, wf, cfg, now, at);
    var s1, key := After(wf, cfg, Triggered(now), evs), RowKey(at, 1);
    ScanMarks(d, H, wf, cfg, s1, key);
    var tick, read, mark := Tick(ACTIVE_LEASE_MS + 1), ScanRead(key, ACTIVE_LEASE_MS), ScanMark(Suspect(key, true));
    ThreeEventRun(d, H, wf, cfg, s1, tick, read, mark);
    RunUnderJoins(d, H, wf, cfg, Triggered(now), evs, [tick, read, mark]);
    evs := evs + [tick, read, mark];
    var failure := FailsForGood(d, H, wf, cfg, After(wf, cfg, Triggered(now), evs));
    RunUnderJoins(d, H, wf, cfg, Triggered(now), evs, failure);
    evs := evs + failure;
    var recovery := IsRecovered(d, H, wf, cfg, After(wf, cfg, Triggered(now), evs));
    RunUnderJoins(d, H, wf, cfg, Triggered(now), evs, recovery);
    evs := evs + recovery;
  }

  lemma FailsForGood(d: Discipline, H: nat, wf: Workflow, cfg: RetryPolicyConfig, s: State) returns (evs: seq<Event>)
    requires !d.timely && AtWork(wf, s, Execute) && s.demotable
    ensures IsRunUnder(d, H, wf, cfg, s, evs)
    ensures var s' := After(wf, cfg, s, evs); AtWork(wf, s', Threw(PERMANENT)) && s'.recoverable
  {
    ScanDemotes(d, H, wf, cfg, s);
    StepFailsForGood(d, H, wf, cfg, Apply(wf, cfg, s, ScanDemote));
    var resolve, finish := Work(0, DoResolve(Fail(PERMANENT))), Work(0, DoFinish);
    ThreeEventRun(d, H, wf, cfg, s, ScanDemote, resolve, finish);
    evs := [ScanDemote, resolve, finish];
  }

  lemma IsRecovered(d: Discipline, H: nat, wf: Workflow, cfg: RetryPolicyConfig, s: State) returns (evs: seq<Event>)
    requires !d.timely && AtWork(wf, s, Threw(PERMANENT)) && s.recoverable
    ensures IsRunUnder(d, H, wf, cfg, s, evs) && !HasOneCarrier(After(wf, cfg, s, evs))
  {
    RecoveredAfterLetter(d, H, wf, cfg, s);
    var fail, recover := JobFailed(0, 0, 1), Recover(2);
    ConsRunUnder(d, H, wf, cfg, Apply(wf, cfg, s, fail), recover, []);
    ConsRunUnder(d, H, wf, cfg, s, fail, [recover] + []);
    evs := [fail] + ([recover] + []);
    assert 2 in After(wf, cfg, s, evs).jobs;
  }

  // ----- a failed end-state write leaves a row RUNNING, for which a scan recovers what has failed for good

  /** Nobody works, and one row is RUNNING. */
  ghost predicate Orphaned(s: State, key: RowKey) {
    && s.workers == map[] && key in s.db.rows && s.db.rows[key].status.StepRunning?
    && s.db.rows[key].heartbeatAt == Some(s.now)
    && forall k :: k in s.db.rows && s.db.rows[k].status.StepRunning? ==> k == key
  }

  /** The row is timed out by a scan whose lease is as long as it should be. */
  lemma OrphanIsMarked(d: Discipline, H: nat, wf: Workflow, cfg: RetryPolicyConfig, s: State, key: RowKey)
    requires Orphaned(s, key)
    ensures var tick, read, mark := Tick(H + 1), ScanRead(key, H), ScanMark(Suspect(key, s.db.status.Running?));
            && Enabled(wf, s, tick)
            && var s1 := Apply(wf, cfg, s, tick);
            && Allowed(d, H, s, tick, s1) && Enabled(wf, s1, read)
            && var s2 := Apply(wf, cfg, s1, read);
            && Allowed(d, H, s1, read, s2) && Enabled(wf, s2, mark)
            && var s3 := Apply(wf, cfg, s2, mark);
            && Allowed(d, H, s2, mark, s3)
            && s3.workers == map[] && s3.jobs == s.jobs && s3.deadLetters == s.deadLetters && NothingRunning(s3)
            && (s3.demotable || s3.recoverable)
  {
  }

  lemma OrphanIsRecoverable(d: Discipline, H: nat, wf: Workflow, cfg: RetryPolicyConfig, s: State, key: RowKey)
    returns (evs: seq<Event>)
    requires Orphaned(s, key)
    ensures IsRunUnder(d, H, wf, cfg, s, evs)
    ensures var s' := After(wf, cfg, s, evs);
            && s'.workers == map[] && s'.jobs == s.jobs && s'.deadLetters == s.deadLetters && NothingRunning(s')
            && s'.recoverable
  {
    var tick, read, mark := Tick(H + 1), ScanRead(key, H), ScanMark(Suspect(key, s.db.status.Running?));
    OrphanIsMarked(d, H, wf, cfg, s, key);
    ThreeEventRun(d, H, wf, cfg, s, tick, read, mark);
    evs := [tick, read, mark];
    if !After(wf, cfg, s, evs).recoverable {
      RunUnderThen(d, H, wf, cfg, s, evs, ScanDemote);
      evs := evs + [ScanDemote];
    }
  }

  lemma ShelvedIsRecovered(d: Discipline, H: nat, wf: Workflow, cfg: RetryPolicyConfig, s: State)
    returns (evs: seq<Event>)
    requires IsShelved(s) && s.recoverable
    ensures IsRunUnder(d, H, wf, cfg, s, evs) && !HasOneCarrier(After(wf, cfg, s, evs))
  {
    var id := FreshAbove(s.deadLetters);
    ConsRunUnder(d, H, wf, cfg, s, Recover(id), []);
    evs := [Recover(id)] + [];
    assert id in Apply(wf, cfg, s, Recover(id)).jobs;
  }

  lemma LostEndBreaksCarrier(d: Discipline, H: nat, wf: Workflow, cfg: RetryPolicyConfig, now: int, at: nat)
    returns (evs: seq<Event>)
    requires !d.endsWritten && at < |wf| && 1 <= wf[at].order
    ensures BreaksCarrier(d, H, wf, cfg, now, evs)
  {
    evs := GetsToStep(d, H, wf, cfg, now, at);
    var failure := LosesEnd(d, H, wf, cfg, After(wf, cfg, Triggered(now), evs));
    RunUnderJoins(d, H, wf, cfg, Triggered(now), evs, failure);
    evs := evs + failure;
    var s := After(wf, cfg, Triggered(now), evs);
    var scan := OrphanIsRecoverable(d, H, wf, cfg, s, RowKey(at, 1));
    RunUnderJoins(d, H, wf, cfg, Triggered(now), evs, scan);
    evs := evs + scan;
    if s.jobs != map[] {
      var rest := FailToTheEnd(d, H, wf, cfg, After(wf, cfg, Triggered(now), evs), 1, 2);
      RunUnderJoins(d, H, wf, cfg, Triggered(now), evs, rest);
      evs := evs + rest;
    }
    var recovery := ShelvedIsRecovered(d, H, wf, cfg, After(wf, cfg, Triggered(now), evs));
    RunUnderJoins(d, H, wf, cfg, Triggered(now), evs, recovery);
    evs := evs + recovery;
  }

  /**
   For every workflow with a step to run and every choice of assumptions: an execution has exactly one
   carrier at any time of any run under them exactly when heartbeats are on time, the queue takes back
   or loses dead workers' jobs only, no worker crashes, and no write of a row's end state fails.
   */
  lemma ExactlyOneCarrierIff(d: Discipline, H: nat, wf: Workflow, cfg: RetryPolicyConfig, now: int, at: nat)
    requires at < |wf| && 1 <= wf[at].order
    ensures IsCrashFree(d) <==> forall evs :: !BreaksCarrier(d, H, wf, cfg, now, evs)
  {
    if IsCrashFree(d) {
      forall evs
        ensures !BreaksCarrier(d, H, wf, cfg, now, evs)
      {
        if IsRunUnder(d, H, wf, cfg, Triggered(now), evs) {
          ExactlyOneCarrier(d, H, wf, cfg, now, evs);
        }
      }
    } else {
      var evs;
      if !d.deadOnly {
        evs := LostFromLiveWorker(d, H, wf, cfg, now);
      } else if !d.crashFree {
        evs := LostAfterCrash(d, H, wf, cfg, now);
      } else if !d.endsWritten {
        evs := LostEndBreaksCarrier(d, H, wf, cfg, now, at);
      } else {
        evs := RecoveredAlive(d, H, wf, cfg, now, at);
      }
    }
  }
}
