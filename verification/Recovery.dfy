/** What the lease does over time: a beat keeps a row from every scan for its length, and a dead worker's row goes. */
module Recovery {
  import opened Wrappers
  import opened WorkflowStore
  import opened RetryScheduler
  import opened Protocol
  import opened Invariants
  import opened RunSafety

  // ----- the beat

  /** A claimed row was started at some time of the run, and last beat between then and now. */
  predicate TimesFit(row: StepRow, start: int, now: int) {
    row.status.StepPending?
    || (row.startedAt.Some? && row.heartbeatAt.Some? && start <= row.startedAt.value <= row.heartbeatAt.value <= now)
  }

  ghost predicate TimesInv(s: State) {
    s.startedAt <= s.now && forall key :: key in s.db.rows ==> TimesFit(s.db.rows[key], s.startedAt, s.now)
  }

  lemma ActKeepsTimes(wf: Workflow, start: int, now: int, v: View, act: Action)
    requires CanAct(wf, now, v, act) && start <= now
    requires forall key :: key in v.db.rows ==> TimesFit(v.db.rows[key], start, now)
    ensures var rows := Act(wf, now, v, act).db.rows; forall key :: key in rows ==> TimesFit(rows[key], start, now)
  {
  }

  lemma EventKeepsTimes(wf: Workflow, cfg: RetryPolicyConfig, s: State, ev: Event)
    requires TimesInv(s) && Enabled(wf, s, ev)
    ensures TimesInv(Apply(wf, cfg, s, ev))
  {
    if ev.Work? {
      ActKeepsTimes(wf, s.startedAt, s.now, ViewOf(s, ev.w), ev.act);
    } else {
      OtherSteps(wf, cfg, s, ev);
    }
  }

  /** A row's heartbeat never goes back, and its start never changes once it is claimed. */
  predicate BeatsOn(before: StepRow, after: StepRow) {
    before.startedAt.Some? && before.heartbeatAt.Some? ==>
      && after.startedAt == before.startedAt
      && after.heartbeatAt.Some? && before.heartbeatAt.value <= after.heartbeatAt.value
  }

  lemma ActBeatsOn(wf: Workflow, start: int, now: int, v: View, act: Action, key: RowKey)
    requires CanAct(wf, now, v, act) && key in v.db.rows
    requires TimesFit(v.db.rows[key], start, now) && RowShape(v.db.rows[key])
    ensures BeatsOn(v.db.rows[key], Act(wf, now, v, act).db.rows[key])
  {
  }

  lemma EventBeatsOn(wf: Workflow, cfg: RetryPolicyConfig, s: State, ev: Event, key: RowKey)
    requires RowsInv(wf, cfg, s.db) && TimesInv(s) && Enabled(wf, s, ev) && key in s.db.rows
    ensures var s' := Apply(wf, cfg, s, ev);
            s'.startedAt == s.startedAt && key in s'.db.rows && BeatsOn(s.db.rows[key], s'.db.rows[key])
  {
    EventStepsDb(wf, cfg, s, ev);
    if ev.Work? {
      ActBeatsOn(wf, s.startedAt, s.now, ViewOf(s, ev.w), ev.act, key);
    } else {
      OtherSteps(wf, cfg, s, ev);
    }
  }

  lemma {:induction false} RunBeatsOn(wf: Workflow, cfg: RetryPolicyConfig, s: State, evs: seq<Event>, key: RowKey)
    requires Inv(wf, cfg, s) && TimesInv(s) && IsRun(wf, cfg, s, evs) && key in s.db.rows
    ensures var s' := After(wf, cfg, s, evs);
            TimesInv(s') && s'.startedAt == s.startedAt && key in s'.db.rows && BeatsOn(s.db.rows[key], s'.db.rows[key])
    decreases |evs|
  {
    if evs == [] {
    } else {
      EventKeepsInv(wf, cfg, s, evs[0]);
      EventKeepsTimes(wf, cfg, s, evs[0]);
      EventBeatsOn(wf, cfg, s, evs[0], key);
      RunBeatsOn(wf, cfg, Apply(wf, cfg, s, evs[0]), evs[1..], key);
    }
  }

  /** The worker writes its row's heartbeat: as it claims the row, or while it owns it. */
  predicate Beats(wf: Workflow, s: State, w: nat, act: Action) {
    && Enabled(wf, s, Work(w, act))
    && (act.DoClaimRow? || (act.DoBeat? && s.db.OwnsRunning(s.workers[w].Key(), s.workers[w].host)))
  }

  /**
   For as long as a lease lasts after a beat, whatever happens meanwhile, the row, if it is still RUNNING, is not
   stale to a scan with that lease; and for the engine's own 30 seconds it is active to every worker.
   */
  lemma BeatHoldsForALease(wf: Workflow, cfg: RetryPolicyConfig, now: int, evs: seq<Event>, w: nat, act: Action,
                           more: seq<Event>)
    requires IsRun(wf, cfg, Triggered(now), evs) && Beats(wf, After(wf, cfg, Triggered(now), evs), w, act)
    requires IsRun(wf, cfg, Apply(wf, cfg, After(wf, cfg, Triggered(now), evs), Work(w, act)), more)
    ensures var s := After(wf, cfg, Triggered(now), evs);
            var key, s' := s.workers[w].Key(), After(wf, cfg, Apply(wf, cfg, s, Work(w, act)), more);
            && key in s'.db.rows
            && (s'.db.rows[key].status.StepRunning? ==>
                  && (forall lease :: s'.now - s.now <= lease ==> !IsStale(s'.db.rows[key], s'.now, lease))
                  && (s'.now - s.now <= 30_000 ==> IsActive(s'.db.rows[key], s'.now)))
  {
    var s := After(wf, cfg, Triggered(now), evs);
    ReachableInv(wf, cfg, now, evs);
    ReachableTimes(wf, cfg, now, evs);
    assert WorkerInv(wf, cfg, ViewOf(s, w));
    EventKeepsInv(wf, cfg, s, Work(w, act));
    EventKeepsTimes(wf, cfg, s, Work(w, act));
    RunBeatsOn(wf, cfg, Apply(wf, cfg, s, Work(w, act)), more, s.workers[w].Key());
  }

  lemma {:induction false} RunKeepsTimes(wf: Workflow, cfg: RetryPolicyConfig, s: State, evs: seq<Event>)
    requires TimesInv(s) && IsRun(wf, cfg, s, evs)
    ensures TimesInv(After(wf, cfg, s, evs))
    decreases |evs|
  {
    if evs == [] {
    } else {
      EventKeepsTimes(wf, cfg, s, evs[0]);
      RunKeepsTimes(wf, cfg, Apply(wf, cfg, s, evs[0]), evs[1..]);
    }
  }

  lemma ReachableTimes(wf: Workflow, cfg: RetryPolicyConfig, now: int, evs: seq<Event>)
    requires IsRun(wf, cfg, Triggered(now), evs)
    ensures TimesInv(After(wf, cfg, Triggered(now), evs))
  {
    RunKeepsTimes(wf, cfg, Triggered(now), evs);
  }

  // ----- the queue

  /**
   A job that the queue gives up on as stalled is an attempt that failed: within the lifetime the execution
   has one more attempt if it has one left; otherwise it is filed as a dead letter, and failed unless completed.
   */
  lemma StalledJobCostsAnAttempt(wf: Workflow, cfg: RetryPolicyConfig, s: State, job: nat, draw: int, id: nat)
    requires Enabled(wf, s, StalledOut(job, draw, id))
    ensures var s', left := Apply(wf, cfg, s, StalledOut(job, draw, id)), NormalBudgetLeft(s.jobs[job].attempt, cfg);
            if s.now - s.startedAt < cfg.maxExecutionLifetimeMs && left > 0 then
              && s'.jobs == (s.jobs - {job})[id := Job(s.jobs[job].attempt + 1, s.jobs[job].deferrals, Waiting)]
              && s'.deadLetters == s.deadLetters && s'.db == s.db
            else
              && s'.jobs == s.jobs - {job} && s'.deadLetters == s.deadLetters + {id}
              && s'.db == if s.db.status.Completed? then s.db
                          else s.db.(status := Failed, version := s.db.version + 1)
  {
  }

  // ----- the scan

  predicate TellsOf(evs: seq<Event>, i: nat)
    requires i < |evs|
  {
    evs[i].ScanDemote? || (evs[i].ScanMark? && !evs[i].suspect.sawRunning)
  }

  ghost predicate SomeTimedOut(db: Db) {
    exists key :: key in db.rows && db.rows[key].status.StepTimedOut?
  }

  lemma EventKeepsTimedOut(wf: Workflow, cfg: RetryPolicyConfig, s: State, ev: Event)
    requires Enabled(wf, s, ev)
    ensures var s' := Apply(wf, cfg, s, ev);
            && (SomeTimedOut(s.db) ==> SomeTimedOut(s'.db))
            && ((s'.recoverable || s'.demotable) && !s.recoverable && !s.demotable ==> SomeTimedOut(s'.db))
  {
    EventStepsDb(wf, cfg, s, ev);
    var s' := Apply(wf, cfg, s, ev);
    if key :| key in s.db.rows && s.db.rows[key].status.StepTimedOut? {
      assert s'.db.rows[key].status.StepTimedOut?;
    }
    if ev.ScanMark? && s' != s {
      assert s'.db.rows[ev.suspect.key].status.StepTimedOut?;
    }
  }

  /**
   Nothing is re-enqueued as stale before a scan has timed a row out and, if it had read the execution as
   running, has written to the execution too; and it does so only if it had.
   */
  lemma {:induction false} RecoveryFollowsScan(wf: Workflow, cfg: RetryPolicyConfig, s: State, evs: seq<Event>)
    requires IsRun(wf, cfg, s, evs) && (s.recoverable || s.demotable ==> SomeTimedOut(s.db))
    ensures var s' := After(wf, cfg, s, evs);
            && (s'.recoverable || s'.demotable ==> SomeTimedOut(s'.db))
            && (s'.recoverable && !s.recoverable ==> exists i :: 0 <= i < |evs| && TellsOf(evs, i))
            && (s'.demotable && !s.demotable ==>
                  exists i :: 0 <= i < |evs| && evs[i].ScanMark? && evs[i].suspect.sawRunning)
    decreases |evs|
  {
    if evs == [] {
    } else {
      var mid := Apply(wf, cfg, s, evs[0]);
      EventKeepsTimedOut(wf, cfg, s, evs[0]);
      RecoveryFollowsScan(wf, cfg, mid, evs[1..]);
      if mid.recoverable && !s.recoverable {
        assert TellsOf(evs, 0);
      } else if After(wf, cfg, s, evs).recoverable && !s.recoverable {
        var i :| 0 <= i < |evs[1..]| && TellsOf(evs[1..], i);
        assert TellsOf(evs, i + 1);
      }
      if mid.demotable && !s.demotable {
        assert evs[0].ScanMark? && evs[0].suspect.sawRunning;
      } else if After(wf, cfg, s, evs).demotable && !s.demotable {
        var i :| 0 <= i < |evs[1..]| && evs[1..][i].ScanMark? && evs[1..][i].suspect.sawRunning;
        assert evs[i + 1] == evs[1..][i];
      }
    }
  }

  /** What a scan nobody disturbs does about one row that it finds stale. */
  function ScanOf(s: State, key: RowKey, lease: int, id: nat): seq<Event> {
    if s.db.status.Running? then [ScanRead(key, lease), ScanMark(Suspect(key, true)), ScanDemote, Recover(id)]
    else [ScanRead(key, lease), ScanMark(Suspect(key, false)), Recover(id)]
  }

  /**
   A dead worker's step is handed on: the scan times its row out, makes a running execution retrying, and leaves
   the execution with a live job, a fresh one if it had none. Nothing else changes.
   */
  lemma StaleStepIsHandedOn(wf: Workflow, cfg: RetryPolicyConfig, s: State, key: RowKey, lease: int, id: nat)
    requires key in s.db.rows && IsStale(s.db.rows[key], s.now, lease) && IsFresh(s, id)
    ensures IsRun(wf, cfg, s, ScanOf(s, key, lease, id))
    ensures var s', row := After(wf, cfg, s, ScanOf(s, key, lease, id)), s.db.rows[key];
            && s'.db.rows == s.db.rows[key := row.(status := StepTimedOut)]
            && s'.db.currentStep == s.db.currentStep
            && s'.db.status == (if s.db.status.Running? then Retrying else s.db.status)
            && s'.db.version == s.db.version + One(s.db.status.Running?)
            && s'.jobs == (if s.jobs == map[] then map[id := Job(1, 0, Waiting)] else s.jobs)
            && s'.deadLetters == s.deadLetters && s'.workers == s.workers && s'.requests == s.requests
  {
    var suspect := Suspect(key, s.db.status.Running?);
    var s1 := Apply(wf, cfg, s, ScanRead(key, lease));
    var s2 := Apply(wf, cfg, s1, ScanMark(suspect));
    var rest := if suspect.sawRunning then [ScanDemote, Recover(id)] else [Recover(id)];
    assert IsRun(wf, cfg, s2, rest) by {
      if suspect.sawRunning {
        assert [ScanDemote, Recover(id)][1..] == [Recover(id)];
      }
    }
    assert ([ScanMark(suspect)] + rest)[1..] == rest;
    assert IsRun(wf, cfg, s1, [ScanMark(suspect)] + rest);
    assert ScanOf(s, key, lease, id)[1..] == [ScanMark(suspect)] + rest;
    assert After(wf, cfg, s, ScanOf(s, key, lease, id)) == After(wf, cfg, s2, rest);
    var s3 := if suspect.sawRunning then Apply(wf, cfg, s2, ScanDemote) else s2;
    assert After(wf, cfg, s3, [Recover(id)]) == Apply(wf, cfg, s3, Recover(id)) by {
      assert [Recover(id)][1..] == [];
    }
    assert suspect.sawRunning ==> rest[1..] == [Recover(id)];
  }
}
