/**
 What runs add when the workers and the queue behave: heartbeats on time make the lease safe, and
 with a clean pick-up after each crash, `completed` means that every step succeeded.
 */
module Completion {
  import opened Wrappers
  import opened WorkflowStore
  import opened RetryScheduler
  import opened Protocol
  import opened Invariants
  import opened RunSafety

  /** Assumptions on a run, each of which may be made or not. H bounds the age of a live worker's heartbeat. */
  datatype Discipline = Discipline(
    timely: bool,      // no live worker's heartbeat gets older than H, and no scan uses a lease below H
    deadOnly: bool,    // the queue takes back, fails or loses only jobs whose workers are dead
    noSkip: bool,      // no step is skipped as active on another host
    cleanPickup: bool, // jobs are started only when no row is RUNNING
    crashFree: bool,   // no worker crashes
    endsWritten: bool) // no worker's write of a row's end state fails

  /** No live worker's RUNNING row has a heartbeat older than H. */
  ghost predicate Timely(s: State, H: int) {
    forall w :: w in s.workers && s.workers[w].Beats() && s.db.OwnsRunning(s.workers[w].Key(), s.workers[w].host) ==>
      var beat := s.db.rows[s.workers[w].Key()].heartbeatAt;
      beat.Some? && s.now - beat.value <= H
  }

  ghost predicate NothingRunning(s: State) {
    forall key :: key in s.db.rows ==> !s.db.rows[key].status.StepRunning?
  }

  predicate TakesBackDeadOnly(s: State, ev: Event) {
    (ev.Redeliver? || ev.StalledOut? || ev.Lose?) && ev.job in s.jobs && s.jobs[ev.job].phase.Active? ==>
      s.jobs[ev.job].phase.worker !in s.workers
  }

  /** The event is the engine's "active on another worker, skip" branch. */
  predicate Skips(s: State, ev: Event) {
    && ev.Work? && ev.act.DoLookActive? && ev.act.found.Some?
    && ev.w in s.workers && ev.act.found.value in s.db.rows
    && s.db.rows[ev.act.found.value].host != s.workers[ev.w].host
  }

  ghost predicate Allowed(d: Discipline, H: int, s: State, ev: Event, s': State) {
    && (d.timely ==> Timely(s', H) && (ev.ScanRead? ==> H <= ev.lease))
    && (d.deadOnly ==> TakesBackDeadOnly(s, ev))
    && (d.noSkip ==> !Skips(s, ev))
    && (d.cleanPickup && ev.StartJob? ==> NothingRunning(s))
    && (d.crashFree ==> !ev.Crash?)
    && (d.endsWritten && ev.Work? && ev.act.DoThrow? && ev.w in s.workers ==> !s.workers[ev.w].pc.Finish?)
  }

  ghost predicate IsRunUnder(d: Discipline, H: int, wf: Workflow, cfg: RetryPolicyConfig, s: State, evs: seq<Event>)
    ensures IsRunUnder(d, H, wf, cfg, s, evs) ==> IsRun(wf, cfg, s, evs)
    decreases |evs|
  {
    evs != [] ==>
      && Enabled(wf, s, evs[0])
      && Allowed(d, H, s, evs[0], Apply(wf, cfg, s, evs[0]))
      && IsRunUnder(d, H, wf, cfg, Apply(wf, cfg, s, evs[0]), evs[1..])
  }

  /** A run that begins with an event. */
  lemma ConsRunUnder(d: Discipline, H: int, wf: Workflow, cfg: RetryPolicyConfig, s: State, ev: Event, rest: seq<Event>)
    requires Enabled(wf, s, ev) && Allowed(d, H, s, ev, Apply(wf, cfg, s, ev))
    requires IsRunUnder(d, H, wf, cfg, Apply(wf, cfg, s, ev), rest)
    ensures IsRunUnder(d, H, wf, cfg, s, [ev] + rest)
    ensures After(wf, cfg, s, [ev] + rest) == After(wf, cfg, Apply(wf, cfg, s, ev), rest)
  {
    assert ([ev] + rest)[1..] == rest;
  }

  /** A run may be extended by any enabled event that the discipline allows. */
  lemma {:induction false} RunUnderThen(d: Discipline, H: int, wf: Workflow, cfg: RetryPolicyConfig, s: State,
                                        evs: seq<Event>, ev: Event)
    requires IsRunUnder(d, H, wf, cfg, s, evs)
    requires var t := After(wf, cfg, s, evs); Enabled(wf, t, ev) && Allowed(d, H, t, ev, Apply(wf, cfg, t, ev))
    ensures IsRunUnder(d, H, wf, cfg, s, evs + [ev])
    ensures After(wf, cfg, s, evs + [ev]) == Apply(wf, cfg, After(wf, cfg, s, evs), ev)
    decreases |evs|
  {
    if evs == [] {
      assert [ev][1..] == [];
      assert evs + [ev] == [ev];
    } else {
      RunUnderThen(d, H, wf, cfg, Apply(wf, cfg, s, evs[0]), evs[1..], ev);
      assert (evs + [ev])[1..] == evs[1..] + [ev];
    }
  }

  lemma {:induction false} RunUnderJoins(d: Discipline, H: int, wf: Workflow, cfg: RetryPolicyConfig, s: State,
                                         evs: seq<Event>, more: seq<Event>)
    requires IsRunUnder(d, H, wf, cfg, s, evs) && IsRunUnder(d, H, wf, cfg, After(wf, cfg, s, evs), more)
    ensures IsRunUnder(d, H, wf, cfg, s, evs + more)
    ensures After(wf, cfg, s, evs + more) == After(wf, cfg, After(wf, cfg, s, evs), more)
    decreases |more|
  {
    if more == [] {
      assert evs + more == evs;
    } else {
      RunUnderThen(d, H, wf, cfg, s, evs, more[0]);
      RunUnderJoins(d, H, wf, cfg, s, evs + [more[0]], more[1..]);
      assert evs + more == evs + [more[0]] + more[1..];
    }
  }

  // ----- the lease

  /** No live worker's row is under suspicion, and all of them are still RUNNING. */
  ghost predicate LeaseInv(s: State) {
    && (forall w :: w in s.workers && s.workers[w].Beats() ==> s.db.OwnsRunning(s.workers[w].Key(), s.workers[w].host))
    && (forall p :: p in s.suspects ==> p.key in s.db.rows)
    && (forall p, w :: p in s.suspects && w in s.workers && s.workers[w].Holds() ==> s.workers[w].Key() != p.key)
  }

  /** A beating worker's row stays RUNNING under its own actions, until it is ended. */
  lemma ActKeepsOwning(wf: Workflow, cfg: RetryPolicyConfig, now: int, v: View, act: Action)
    requires WorkerInv(wf, cfg, v) && CanAct(wf, now, v, act)
    requires v.wk.Beats() ==> v.db.OwnsRunning(v.wk.Key(), v.wk.host)
    ensures var v' := Act(wf, now, v, act); v'.wk.Beats() ==> v'.db.OwnsRunning(v'.wk.Key(), v'.wk.host)
  {
  }

  lemma EventKeepsBeating(wf: Workflow, cfg: RetryPolicyConfig, s: State, ev: Event)
    requires Inv(wf, cfg, s) && LeaseInv(s) && Enabled(wf, s, ev)
    ensures var s' := Apply(wf, cfg, s, ev);
            forall w :: w in s'.workers && s'.workers[w].Beats() ==>
                     s'.db.OwnsRunning(s'.workers[w].Key(), s'.workers[w].host)
  {
    var s' := Apply(wf, cfg, s, ev);
    forall w | w in s'.workers && s'.workers[w].Beats()
      ensures s'.db.OwnsRunning(s'.workers[w].Key(), s'.workers[w].host)
    {
      if ev.Work? {
        assert WorkerInv(wf, cfg, ViewOf(s, w));
        if w == ev.w {
          ActKeepsOwning(wf, cfg, s.now, ViewOf(s, w), ev.act);
        } else {
          ActSteps(wf, s.now, ViewOf(s, ev.w), ev.act);
        }
      } else {
        OtherSteps(wf, cfg, s, ev);
        OthersMoveNobody(wf, cfg, s, ev);
      }
    }
  }

  /** A worker that holds a row either held it before, or has just inserted it. */
  lemma HolderHeldOrCreated(wf: Workflow, cfg: RetryPolicyConfig, s: State, ev: Event, w: nat)
    requires Enabled(wf, s, ev)
    requires var s' := Apply(wf, cfg, s, ev); w in s'.workers && s'.workers[w].Holds()
    ensures var s' := Apply(wf, cfg, s, ev); w in s.workers && s'.workers[w].Key() == s.workers[w].Key()
    ensures s.workers[w].Holds() || s.workers[w].Key() !in s.db.rows
  {
    if ev.Work? {
      ActSteps(wf, s.now, ViewOf(s, ev.w), ev.act);
    } else {
      OthersMoveNobody(wf, cfg, s, ev);
    }
  }

  lemma SuspectsComeFromReads(wf: Workflow, cfg: RetryPolicyConfig, s: State, ev: Event)
    requires Enabled(wf, s, ev)
    ensures forall p :: p in Apply(wf, cfg, s, ev).suspects && p !in s.suspects ==> ev.ScanRead? && p.key == ev.key
  {
  }

  lemma EventKeepsSuspects(wf: Workflow, cfg: RetryPolicyConfig, s: State, ev: Event, H: int)
    requires Inv(wf, cfg, s) && LeaseInv(s) && Timely(s, H) && Enabled(wf, s, ev)
    requires ev.ScanRead? ==> H <= ev.lease
    ensures var s' := Apply(wf, cfg, s, ev);
            && (forall p :: p in s'.suspects ==> p.key in s'.db.rows)
            && (forall p, w :: p in s'.suspects && w in s'.workers && s'.workers[w].Holds() ==>
                  s'.workers[w].Key() != p.key)
  {
    EventStepsDb(wf, cfg, s, ev);
    SuspectsComeFromReads(wf, cfg, s, ev);
    var s' := Apply(wf, cfg, s, ev);
    forall p, w | p in s'.suspects && w in s'.workers && s'.workers[w].Holds()
      ensures s'.workers[w].Key() != p.key
    {
      HolderHeldOrCreated(wf, cfg, s, ev, w);
      assert WorkerInv(wf, cfg, ViewOf(s, w));
      if p !in s.suspects {
        NotStaleWhileHeld(s, H, w, p.key, ev.lease);
      }
    }
  }

  lemma NotStaleWhileHeld(s: State, H: int, w: nat, key: RowKey, lease: int)
    requires LeaseInv(s) && Timely(s, H) && w in s.workers && H <= lease
    requires key in s.db.rows && IsStale(s.db.rows[key], s.now, lease)
    requires s.workers[w].pc.ClaimRow? && s.workers[w].Key() in s.db.rows ==>
               s.db.rows[s.workers[w].Key()].status.StepPending?
    ensures !(s.workers[w].Holds() && s.workers[w].Key() == key)
  {
  }

  lemma {:induction false} TimelyRunKeepsLease(d: Discipline, H: int, wf: Workflow, cfg: RetryPolicyConfig, s: State,
                                               evs: seq<Event>)
    requires d.timely && Inv(wf, cfg, s) && LeaseInv(s) && Timely(s, H) && IsRunUnder(d, H, wf, cfg, s, evs)
    ensures Inv(wf, cfg, After(wf, cfg, s, evs)) && LeaseInv(After(wf, cfg, s, evs)) &&
            Timely(After(wf, cfg, s, evs), H)
    decreases |evs|
  {
    if evs == [] {
    } else {
      EventKeepsInv(wf, cfg, s, evs[0]);
      EventKeepsBeating(wf, cfg, s, evs[0]);
      EventKeepsSuspects(wf, cfg, s, evs[0], H);
      TimelyRunKeepsLease(d, H, wf, cfg, Apply(wf, cfg, s, evs[0]), evs[1..]);
    }
  }

  /**
   Lease safety: while heartbeats are at most H apart and every scan's lease is at least H, a scan,
   even acting on a stale read, never touches the row of a live worker.
   */
  lemma ScanSparesLiveWorkers(d: Discipline, H: int, wf: Workflow, cfg: RetryPolicyConfig, now: int, evs: seq<Event>,
                              ev: Event, w: nat)
    requires d.timely && IsRunUnder(d, H, wf, cfg, Triggered(now), evs)
    requires var s := After(wf, cfg, Triggered(now), evs);
             (ev.ScanRead? || ev.ScanMark?) && Enabled(wf, s, ev) && w in s.workers && s.workers[w].Holds()
    requires ev.ScanRead? ==> H <= ev.lease
    ensures var s := After(wf, cfg, Triggered(now), evs);
            var key := s.workers[w].Key();
            && key in s.db.rows
            && Apply(wf, cfg, s, ev).db.rows[key] == s.db.rows[key]
            && (ev.ScanRead? ==> ev.key != key)
            && (s.workers[w].Beats() ==> s.db.OwnsRunning(key, s.workers[w].host))
  {
    TimelyRunKeepsLease(d, H, wf, cfg, Triggered(now), evs);
    var s := After(wf, cfg, Triggered(now), evs);
    assert WorkerInv(wf, cfg, ViewOf(s, w));
    OtherSteps(wf, cfg, s, ev);
    if ev.ScanRead? {
      NotStaleWhileHeld(s, H, w, ev.key, ev.lease);
    }
  }

  /** With the 30 s lease a reachable RUNNING row is, at any instant, either active or stale and never both. */
  lemma ActiveXorStale(wf: Workflow, cfg: RetryPolicyConfig, now: int, evs: seq<Event>, key: RowKey)
    requires IsRun(wf, cfg, Triggered(now), evs)
    requires var s := After(wf, cfg, Triggered(now), evs); key in s.db.rows && s.db.rows[key].status.StepRunning?
    ensures var s := After(wf, cfg, Triggered(now), evs);
            IsActive(s.db.rows[key], s.now) <==> !IsStale(s.db.rows[key], s.now, 30_000)
  {
    ReachableInv(wf, cfg, now, evs);
  }

  // ----- crash-safe completion

  predicate SortedByOrder(wf: Workflow) {
    forall i, j :: 0 <= i < j < |wf| ==> wf[i].order <= wf[j].order
  }

  predicate OrdersFromOne(wf: Workflow) {
    forall i :: 0 <= i < |wf| ==> 1 <= wf[i].order
  }

  ghost predicate AllSucceeded(wf: Workflow, db: Db) {
    forall i :: 0 <= i < |wf| ==> db.Succeeded(i)
  }

  /** The promise of currentStep: every earlier step has succeeded. */
  ghost predicate PointerIsSafe(wf: Workflow, db: Db) {
    forall i :: 0 <= i < |wf| && wf[i].order < db.currentStep ==> db.Succeeded(i)
  }

  ghost predicate CompletionInv(wf: Workflow, s: State) {
    && PointerIsSafe(wf, s.db)
    && (s.db.status.Completed? ==> AllSucceeded(wf, s.db))
    && (forall w :: w in s.workers ==> Progressed(wf, s.db, s.workers[w]))
  }

  /** SUCCEEDED rows stay. */
  lemma SuccessIsKept(wf: Workflow, cfg: RetryPolicyConfig, s: State, ev: Event)
    requires Enabled(wf, s, ev)
    ensures forall i :: s.db.Succeeded(i) ==> Apply(wf, cfg, s, ev).db.Succeeded(i)
  {
    EventStepsDb(wf, cfg, s, ev);
    var db, db' := s.db, Apply(wf, cfg, s, ev).db;
    forall i | db.Succeeded(i)
      ensures db'.Succeeded(i)
    {
      var key :| key in db.rows && key.at == i && db.rows[key].status.StepSucceeded?;
      assert RowStep(db.rows[key], db'.rows[key]);
    }
  }

  /** A worker leaves a step behind only when that step has succeeded. */
  lemma ContinueMeansSucceeded(wf: Workflow, cfg: RetryPolicyConfig, s: State, w: nat, act: Action)
    requires Inv(wf, cfg, s) && LeaseInv(s) && CompletionInv(wf, s)
    requires Enabled(wf, s, Work(w, act)) && !Skips(s, Work(w, act))
    requires var v' := Act(wf, s.now, ViewOf(s, w), act); v'.wk.at != s.workers[w].at && s.workers[w].at < |wf|
    ensures Act(wf, s.now, ViewOf(s, w), act).db.Succeeded(s.workers[w].at)
  {
  }

  ghost predicate Progressed(wf: Workflow, db: Db, wk: Worker) {
    && wk.seenStep <= db.currentStep
    && (forall i :: 0 <= i < wk.at && i < |wf| ==> db.Succeeded(i))
  }

  lemma EventKeepsProgress(wf: Workflow, cfg: RetryPolicyConfig, s: State, ev: Event, w: nat)
    requires Inv(wf, cfg, s) && LeaseInv(s) && CompletionInv(wf, s) && Enabled(wf, s, ev) && !Skips(s, ev)
    requires w in Apply(wf, cfg, s, ev).workers
    ensures var s' := Apply(wf, cfg, s, ev); Progressed(wf, s'.db, s'.workers[w])
  {
    var s' := Apply(wf, cfg, s, ev);
    SuccessIsKept(wf, cfg, s, ev);
    EventStepsDb(wf, cfg, s, ev);
    if ev.Work? {
      ActSteps(wf, s.now, ViewOf(s, ev.w), ev.act);
      if w == ev.w {
        ActMovesOneStep(wf, s.now, ViewOf(s, w), ev.act);
        if s'.workers[w].at != s.workers[w].at && s.workers[w].at < |wf| {
          ContinueMeansSucceeded(wf, cfg, s, w, ev.act);
        }
      }
    } else {
      OthersMoveNobody(wf, cfg, s, ev);
    }
  }

  lemma ActMovesOneStep(wf: Workflow, now: int, v: View, act: Action)
    requires CanAct(wf, now, v, act)
    ensures v.wk.at <= Act(wf, now, v, act).wk.at <= v.wk.at + 1
  {
  }

  lemma EventKeepsCompletion(wf: Workflow, cfg: RetryPolicyConfig, s: State, ev: Event)
    requires SortedByOrder(wf)
    requires Inv(wf, cfg, s) && LeaseInv(s) && CompletionInv(wf, s)
    requires Enabled(wf, s, ev) && !Skips(s, ev)
    ensures CompletionInv(wf, Apply(wf, cfg, s, ev))
  {
    var s' := Apply(wf, cfg, s, ev);
    forall w | w in s'.workers
      ensures Progressed(wf, s'.db, s'.workers[w])
    {
      EventKeepsProgress(wf, cfg, s, ev, w);
    }
    SuccessIsKept(wf, cfg, s, ev);
    if ev.Work? {
      ActKeepsPointer(wf, cfg, s, ev.w, ev.act);
    } else {
      OthersKeepPointer(wf, cfg, s, ev);
    }
  }

  /**
   currentStep moves only to a step whose predecessors have succeeded, and the execution completes only
   behind the last.
   */
  lemma ActKeepsPointer(wf: Workflow, cfg: RetryPolicyConfig, s: State, w: nat, act: Action)
    requires SortedByOrder(wf) && Inv(wf, cfg, s) && CompletionInv(wf, s) && Enabled(wf, s, Work(w, act))
    ensures var db' := Act(wf, s.now, ViewOf(s, w), act).db;
            && (forall i :: 0 <= i < |wf| && wf[i].order < db'.currentStep ==> s.db.Succeeded(i))
            && (db'.status.Completed? ==> AllSucceeded(wf, s.db))
  {
  }

  lemma OthersKeepPointer(wf: Workflow, cfg: RetryPolicyConfig, s: State, ev: Event)
    requires Enabled(wf, s, ev) && !ev.Work?
    ensures var db' := Apply(wf, cfg, s, ev).db;
            db'.currentStep == s.db.currentStep && (db'.status.Completed? ==> s.db.status.Completed?)
  {
  }

  lemma {:induction false} NoSkipRunKeepsCompletion(d: Discipline, H: int, wf: Workflow, cfg: RetryPolicyConfig,
                                                    s: State,
                                                    evs: seq<Event>)
    requires d.timely && d.noSkip && SortedByOrder(wf)
    requires Inv(wf, cfg, s) && LeaseInv(s) && Timely(s, H) && CompletionInv(wf, s)
    requires IsRunUnder(d, H, wf, cfg, s, evs)
    ensures CompletionInv(wf, After(wf, cfg, s, evs))
    decreases |evs|
  {
    if evs == [] {
    } else {
      EventKeepsInv(wf, cfg, s, evs[0]);
      EventKeepsBeating(wf, cfg, s, evs[0]);
      EventKeepsSuspects(wf, cfg, s, evs[0], H);
      EventKeepsCompletion(wf, cfg, s, evs[0]);
      NoSkipRunKeepsCompletion(d, H, wf, cfg, Apply(wf, cfg, s, evs[0]), evs[1..]);
    }
  }

  /**
   Crash-safe completion: with heartbeats on time and no step skipped, for a crash at any write, any
   number of workers, and any failures, retries, scans and replays, every step before currentStep has
   a SUCCEEDED row, and a completed execution has one for every step.
   */
  lemma CompletedMeansAllSucceeded(d: Discipline, H: int, wf: Workflow, cfg: RetryPolicyConfig, now: int,
                                   evs: seq<Event>)
    requires d.timely && d.noSkip && SortedByOrder(wf) && OrdersFromOne(wf)
    requires IsRunUnder(d, H, wf, cfg, Triggered(now), evs)
    ensures var db := After(wf, cfg, Triggered(now), evs).db;
            PointerIsSafe(wf, db) && (db.status.Completed? ==> AllSucceeded(wf, db))
  {
    NoSkipRunKeepsCompletion(d, H, wf, cfg, Triggered(now), evs);
  }

  // ----- and what happens otherwise

  lemma ThreeEventRun(d: Discipline, H: int, wf: Workflow, cfg: RetryPolicyConfig, s: State, e1: Event, e2: Event,
                      e3: Event)
    requires Enabled(wf, s, e1) && Allowed(d, H, s, e1, Apply(wf, cfg, s, e1))
    requires var s1 := Apply(wf, cfg, s, e1); Enabled(wf, s1, e2) && Allowed(d, H, s1, e2, Apply(wf, cfg, s1, e2))
    requires var s2 := Apply(wf, cfg, Apply(wf, cfg, s, e1), e2);
             Enabled(wf, s2, e3) && Allowed(d, H, s2, e3, Apply(wf, cfg, s2, e3))
    ensures IsRunUnder(d, H, wf, cfg, s, [e1, e2, e3])
    ensures After(wf, cfg, s, [e1, e2, e3]) == Apply(wf, cfg, Apply(wf, cfg, Apply(wf, cfg, s, e1), e2), e3)
  {
    RunUnderThen(d, H, wf, cfg, s, [], e1);
    RunUnderThen(d, H, wf, cfg, s, [e1], e2);
    RunUnderThen(d, H, wf, cfg, s, [e1, e2], e3);
    assert [] + [e1] == [e1] && [e1] + [e2] == [e1, e2] && [e1, e2] + [e3] == [e1, e2, e3];
  }

  /** Behind the last step a worker completes the execution with its next two events. */
  lemma BehindTheLastStep(d: Discipline, H: int, wf: Workflow, cfg: RetryPolicyConfig, s: State, w: nat)
    requires w in s.workers && s.workers[w].pc.LookSucceeded? && s.workers[w].at >= |wf|
    requires s.db.InProgress() && (d.timely ==> Timely(s, H))
    ensures var e1, e2 := Work(w, DoLookSucceeded), Work(w, DoComplete);
            && Enabled(wf, s, e1)
            && var s1 := Apply(wf, cfg, s, e1);
            && Allowed(d, H, s, e1, s1)
            && Enabled(wf, s1, e2)
            && var s2 := Apply(wf, cfg, s1, e2);
            && Allowed(d, H, s1, e2, s2)
            && s2.db == s.db.(status := Completed, version := s.db.version + 1)
  {
  }

  /**
   A worker that skips the last step as active elsewhere completes the execution with its next three
   events although the step has not succeeded, whatever else is assumed.
   */
  lemma SkipCompletesWithoutTheStep(d: Discipline, H: int, wf: Workflow, cfg: RetryPolicyConfig, s: State, w: nat,
                                    found: RowKey)
    requires !d.noSkip && (d.timely ==> Timely(s, H))
    requires Enabled(wf, s, Work(w, DoLookActive(Some(found)))) && Skips(s, Work(w, DoLookActive(Some(found))))
    requires s.workers[w].at == |wf| - 1 && s.db.InProgress() && !s.db.Succeeded(s.workers[w].at)
    ensures var evs := [Work(w, DoLookActive(Some(found))), Work(w, DoLookSucceeded), Work(w, DoComplete)];
            && IsRunUnder(d, H, wf, cfg, s, evs)
            && After(wf, cfg, s, evs).db.status.Completed?
            && !AllSucceeded(wf, After(wf, cfg, s, evs).db)
  {
    var skip := Work(w, DoLookActive(Some(found)));
    BehindTheLastStep(d, H, wf, cfg, Apply(wf, cfg, s, skip), w);
    ThreeEventRun(d, H, wf, cfg, s, skip, Work(w, DoLookSucceeded), Work(w, DoComplete));
    assert !After(wf, cfg, s, [skip, Work(w, DoLookSucceeded), Work(w, DoComplete)]).db.Succeeded(|wf| - 1);
  }

  /**
   The success write's outcome is not checked: a worker whose row of the last step has been timed out
   under it loses that write and completes the execution all the same.
   */
  lemma LostWriteCompletesWithoutTheStep(d: Discipline, H: int, wf: Workflow, cfg: RetryPolicyConfig, s: State, w: nat)
    requires d.timely ==> Timely(s, H)
    requires w in s.workers && s.workers[w].pc == Finish(Succeed) &&
             !s.db.OwnsRunning(s.workers[w].Key(), s.workers[w].host)
    requires s.workers[w].at == |wf| - 1 && s.db.InProgress() && !s.db.Succeeded(s.workers[w].at)
    ensures var evs := [Work(w, DoFinish), Work(w, DoLookSucceeded), Work(w, DoComplete)];
            && IsRunUnder(d, H, wf, cfg, s, evs)
            && After(wf, cfg, s, evs).db.status.Completed?
            && !AllSucceeded(wf, After(wf, cfg, s, evs).db)
  {
    BehindTheLastStep(d, H, wf, cfg, Apply(wf, cfg, s, Work(w, DoFinish)), w);
    ThreeEventRun(d, H, wf, cfg, s, Work(w, DoFinish), Work(w, DoLookSucceeded), Work(w, DoComplete));
    var evs := [Work(w, DoFinish), Work(w, DoLookSucceeded), Work(w, DoComplete)];
    assert !After(wf, cfg, s, evs).db.Succeeded(|wf| - 1);
  }

  // ----- a clean pick-up never skips

  /** One worker at a time, owning its job. */
  ghost predicate OneWorker(s: State) {
    && (forall v, w :: v in s.workers && w in s.workers ==> v == w)
    && (forall w :: w in s.workers ==> HoldsJob(s, w))
  }

  lemma EventKeepsOneWorker(wf: Workflow, cfg: RetryPolicyConfig, s: State, ev: Event)
    requires JobsInv(cfg, s) && OneWorker(s)
    requires Enabled(wf, s, ev) && TakesBackDeadOnly(s, ev)
    ensures OneWorker(Apply(wf, cfg, s, ev))
  {
  }

  /** While a worker walks, the only RUNNING row is the one it beats for. */
  ghost predicate RunningIsHeld(s: State) {
    forall key, w ::
      && key in s.db.rows && s.db.rows[key].status.StepRunning?
      && w in s.workers && s.workers[w].Walking() ==>
      s.workers[w].Beats() && key == s.workers[w].Key()
  }

  lemma RunningComesFromClaim(wf: Workflow, cfg: RetryPolicyConfig, s: State, ev: Event, key: RowKey)
    requires Enabled(wf, s, ev)
    requires key in Apply(wf, cfg, s, ev).db.rows && Apply(wf, cfg, s, ev).db.rows[key].status.StepRunning?
    requires !(key in s.db.rows && s.db.rows[key].status.StepRunning?)
    ensures ev.Work? && ev.act.DoClaimRow? && key == s.workers[ev.w].Key() && key in s.db.rows &&
            s.db.rows[key].status.StepPending?
  {
  }

  /** A worker at work on a RUNNING row stays at work on it until it ends the row or gives up. */
  lemma OwnerStaysOnRow(wf: Workflow, now: int, v: View, act: Action)
    requires CanAct(wf, now, v, act) && v.wk.Beats() && v.db.OwnsRunning(v.wk.Key(), v.wk.host)
    requires var v' := Act(wf, now, v, act); v'.wk.Walking() && v'.db.rows[v.wk.Key()].status.StepRunning?
    ensures var v' := Act(wf, now, v, act); v'.wk.Beats() && v'.wk.Key() == v.wk.Key()
  {
  }

  lemma EventKeepsRunningHeld(wf: Workflow, cfg: RetryPolicyConfig, s: State, ev: Event)
    requires Inv(wf, cfg, s) && LeaseInv(s) && OneWorker(s) && RunningIsHeld(s)
    requires Enabled(wf, s, ev) && (ev.StartJob? ==> NothingRunning(s))
    ensures RunningIsHeld(Apply(wf, cfg, s, ev))
  {
    var s' := Apply(wf, cfg, s, ev);
    forall key, w |
      && key in s'.db.rows && s'.db.rows[key].status.StepRunning?
      && w in s'.workers && s'.workers[w].Walking()
      ensures s'.workers[w].Beats() && key == s'.workers[w].Key()
    {
      if !(key in s.db.rows && s.db.rows[key].status.StepRunning?) {
        RunningComesFromClaim(wf, cfg, s, ev, key);
      } else if ev.Work? {
        assert s.workers[w].Walking() && s.workers[w].Beats() && key == s.workers[w].Key();
        OwnerStaysOnRow(wf, s.now, ViewOf(s, w), ev.act);
      } else {
        OthersMoveNobody(wf, cfg, s, ev);
      }
    }
  }

  lemma {:induction false} CleanPickupNeverSkips(d: Discipline, H: int, wf: Workflow, cfg: RetryPolicyConfig, s: State,
                                                 evs: seq<Event>)
    requires d.timely && d.deadOnly && d.cleanPickup
    requires Inv(wf, cfg, s) && LeaseInv(s) && Timely(s, H) && OneWorker(s) && RunningIsHeld(s)
    requires IsRunUnder(d, H, wf, cfg, s, evs)
    ensures IsRunUnder(d.(noSkip := true), H, wf, cfg, s, evs)
    decreases |evs|
  {
    if evs == [] {
    } else {
      EventKeepsInv(wf, cfg, s, evs[0]);
      EventKeepsBeating(wf, cfg, s, evs[0]);
      EventKeepsSuspects(wf, cfg, s, evs[0], H);
      EventKeepsOneWorker(wf, cfg, s, evs[0]);
      EventKeepsRunningHeld(wf, cfg, s, evs[0]);
      CleanPickupNeverSkips(d, H, wf, cfg, Apply(wf, cfg, s, evs[0]), evs[1..]);
    }
  }

  /** So it is enough that a job is started only after its dead worker's RUNNING row has been timed out. */
  lemma CleanPickupIsCrashSafe(d: Discipline, H: int, wf: Workflow, cfg: RetryPolicyConfig, now: int, evs: seq<Event>)
    requires d.timely && d.deadOnly && d.cleanPickup && SortedByOrder(wf) && OrdersFromOne(wf)
    requires IsRunUnder(d, H, wf, cfg, Triggered(now), evs)
    ensures var db := After(wf, cfg, Triggered(now), evs).db;
            PointerIsSafe(wf, db) && (db.status.Completed? ==> AllSucceeded(wf, db))
  {
    CleanPickupNeverSkips(d, H, wf, cfg, Triggered(now), evs);
    CompletedMeansAllSucceeded(d.(noSkip := true), H, wf, cfg, now, evs);
  }
}
