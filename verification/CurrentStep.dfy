/**
 What currentStep and the status say about the work done, as long as workers find the execution in progress
 when they move it.
 */
module CurrentStep {
  import opened Wrappers
  import opened WorkflowStore
  import opened RetryScheduler
  import opened Protocol
  import opened Invariants
  import opened RunSafety
  import opened Completion
  import opened Carrier
  import opened HappyPath

  /** currentStep is not before any step that the worker has left behind, or whose row it has or is about to insert. */
  predicate IsNotAhead(wf: Workflow, db: Db, wk: Worker) {
    && wk.seenStep <= db.currentStep
    && (forall i :: 0 <= i < wk.at && i < |wf| ==> wf[i].order <= db.currentStep)
    && (wk.at < |wf| && (wk.pc.Create? || wk.Holds()) ==> wf[wk.at].order <= db.currentStep)
  }

  /** Nor before any step that has a row, nor, once completed, before any step at all. */
  ghost predicate CoversDb(wf: Workflow, db: Db) {
    && (forall key :: key in db.rows && key.at < |wf| ==> wf[key.at].order <= db.currentStep)
    && (db.status.Completed? ==> forall i :: 0 <= i < |wf| ==> wf[i].order <= db.currentStep)
    && db.currentStep <= HighestOrder(wf, |wf|)
  }

  ghost predicate Covers(wf: Workflow, s: State) {
    CoversDb(wf, s.db) && forall w :: w in s.workers ==> IsNotAhead(wf, s.db, s.workers[w])
  }

  lemma {:induction false} HighestIsUpperBound(wf: Workflow, n: nat, i: nat)
    requires i < n <= |wf|
    ensures wf[i].order <= HighestOrder(wf, n)
    decreases n
  {
    if i < n - 1 {
      HighestIsUpperBound(wf, n - 1, i);
    }
  }

  lemma ActKeepsWorkerCovered(wf: Workflow, cfg: RetryPolicyConfig, now: int, v: View, act: Action)
    requires CanAct(wf, now, v, act) && WorkerInv(wf, cfg, v)
    requires CoversDb(wf, v.db) && IsNotAhead(wf, v.db, v.wk)
    requires act.DoAdvance? ==> v.db.InProgress()
    ensures var v' := Act(wf, now, v, act); IsNotAhead(wf, v'.db, v'.wk)
  {
  }

  lemma ActKeepsDbCovered(wf: Workflow, cfg: RetryPolicyConfig, now: int, v: View, act: Action)
    requires CanAct(wf, now, v, act) && WorkerInv(wf, cfg, v)
    requires CoversDb(wf, v.db) && IsNotAhead(wf, v.db, v.wk)
    ensures CoversDb(wf, Act(wf, now, v, act).db)
  {
    if act.DoAdvance? {
      HighestIsUpperBound(wf, |wf|, v.wk.at);
    }
  }

  lemma EventKeepsCovers(wf: Workflow, cfg: RetryPolicyConfig, s: State, ev: Event)
    requires Inv(wf, cfg, s) && Covers(wf, s) && Enabled(wf, s, ev)
    requires ev.Work? && ev.act.DoAdvance? ==> s.db.InProgress()
    ensures Covers(wf, Apply(wf, cfg, s, ev))
  {
    EventStepsDb(wf, cfg, s, ev);
    if ev.Work? {
      assert WorkerInv(wf, cfg, ViewOf(s, ev.w));
      ActKeepsWorkerCovered(wf, cfg, s.now, ViewOf(s, ev.w), ev.act);
      ActKeepsDbCovered(wf, cfg, s.now, ViewOf(s, ev.w), ev.act);
    } else {
      OtherSteps(wf, cfg, s, ev);
      OthersMoveNobody(wf, cfg, s, ev);
      OnlyWorkersComplete(wf, cfg, s, ev);
    }
  }

  lemma OnlyWorkersComplete(wf: Workflow, cfg: RetryPolicyConfig, s: State, ev: Event)
    requires Enabled(wf, s, ev) && !ev.Work?
    ensures var s' := Apply(wf, cfg, s, ev);
            s'.db.currentStep == s.db.currentStep && (s'.db.status.Completed? ==> s.db.status.Completed?)
  {
  }

  lemma {:induction false} CrashFreeRunCovers(d: Discipline, H: int, wf: Workflow, cfg: RetryPolicyConfig, s: State,
                                              evs: seq<Event>)
    requires IsCrashFree(d) && CrashFreeInv(wf, cfg, s, H) && Covers(wf, s) && IsRunUnder(d, H, wf, cfg, s, evs)
    ensures Covers(wf, After(wf, cfg, s, evs))
    decreases |evs|
  {
    if evs == [] {
    } else {
      CrashFreeEventKeepsAll(d, H, wf, cfg, s, evs[0]);
      EventKeepsCovers(wf, cfg, s, evs[0]);
      CrashFreeRunCovers(d, H, wf, cfg, Apply(wf, cfg, s, evs[0]), evs[1..]);
    }
  }

  lemma CrashFreeReachable(d: Discipline, H: int, wf: Workflow, cfg: RetryPolicyConfig, now: int, evs: seq<Event>)
    requires IsCrashFree(d) && IsRunUnder(d, H, wf, cfg, Triggered(now), evs)
    ensures var s := After(wf, cfg, Triggered(now), evs); CarrierInv(s) && Covers(wf, s) && 1 <= s.db.currentStep
  {
    TriggeredIsCarried(now);
    CrashFreeRunKeepsCarrier(d, H, wf, cfg, Triggered(now), evs);
    CrashFreeRunCovers(d, H, wf, cfg, Triggered(now), evs);
    LifecycleIsMonotone(wf, cfg, Triggered(now), evs);
  }

  /**
   In a crash-free run the execution's row tells how far its work is. While a worker is at it the status is
   running on the first attempt and retrying on later ones, and currentStep is not before the worker's step; a
   completed execution's currentStep is the highest order of its steps.
   */
  lemma RowTellsProgress(d: Discipline, H: int, wf: Workflow, cfg: RetryPolicyConfig, now: int, evs: seq<Event>)
    requires IsCrashFree(d) && IsRunUnder(d, H, wf, cfg, Triggered(now), evs)
    ensures var s := After(wf, cfg, Triggered(now), evs);
            && (forall w :: w in s.workers ==>
                  var wk := s.workers[w];
                  && (wk.Walking() && !wk.pc.ClaimExecution? ==>
                        s.db.status == if wk.attempt > 1 then Retrying else Running)
                  && (wk.pc.Returned? ==> s.db.status.Completed?)
                  && (wk.at < |wf| && (wk.pc.Create? || wk.Holds()) ==> wf[wk.at].order <= s.db.currentStep))
            && (s.db.status.Completed? ==> s.db.currentStep == HighestOrder(wf, |wf|))
            && (s.db.status.Completed? && SortedByOrder(wf) ==>
                  s.db.currentStep == if wf == [] then 1 else Max(1, wf[|wf| - 1].order))
  {
    CrashFreeReachable(d, H, wf, cfg, now, evs);
    CoveredEndsHighest(wf, After(wf, cfg, Triggered(now), evs).db);
  }

  lemma CoveredEndsHighest(wf: Workflow, db: Db)
    requires CoversDb(wf, db) && 1 <= db.currentStep
    ensures db.status.Completed? ==> db.currentStep == HighestOrder(wf, |wf|)
    ensures db.status.Completed? && SortedByOrder(wf) ==>
              db.currentStep == if wf == [] then 1 else Max(1, wf[|wf| - 1].order)
  {
    if db.status.Completed? {
      HighestIsLeast(wf, |wf|, db.currentStep);
    }
    if SortedByOrder(wf) && wf != [] {
      HighestIsLast(wf, |wf|);
    }
  }

  lemma {:induction false} HighestIsLeast(wf: Workflow, n: nat, bound: int)
    requires n <= |wf| && 1 <= bound && forall i :: 0 <= i < n ==> wf[i].order <= bound
    ensures HighestOrder(wf, n) <= bound
  {
    if n == 0 {
    } else {
      HighestIsLeast(wf, n - 1, bound);
    }
  }
}
