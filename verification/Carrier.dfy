/**
 Conservation: without crashes an execution is carried by one live job, or done, or filed in the dead-letter
 queue.
 */
module Carrier {
  import opened Wrappers
  import opened WorkflowStore
  import opened RetryScheduler
  import opened Protocol
  import opened Invariants
  import opened RunSafety
  import opened Completion

  /** Where the responsibility for an execution lies. */
  datatype Holder = LiveJob | Done | DeadLetter

  ghost predicate CarriedBy(s: State, h: Holder) {
    match h
    case LiveJob => |s.jobs| == 1 && s.deadLetters == {}
    case Done => s.jobs == map[] && s.db.status.Completed? && s.deadLetters == {}
    case DeadLetter => s.jobs == map[] && s.db.status.Failed? && |s.deadLetters| == 1
  }

  /** What the execution's status is while the worker of a live job stands where it does. */
  predicate StatusFits(status: ExecutionStatus, wk: Worker) {
    match wk.pc
    case ClaimExecution => !status.Completed? && !status.Failed?
    case Threw(_) => !status.Completed? && !status.Failed?
    case Returned => status.Completed?
    case _ => status == if wk.attempt > 1 then Retrying else Running
  }

  /** Nothing is suspected, and every RUNNING row is beaten for. */
  ghost predicate QuietInv(s: State) {
    && s.suspects == {} && !s.demotable && !s.recoverable
    && (forall key :: key in s.db.rows && s.db.rows[key].status.StepRunning? ==> IsBeaten(s, key))
  }

  ghost predicate IsBeaten(s: State, key: RowKey) {
    exists w :: w in s.workers && s.workers[w].Beats() && s.workers[w].Key() == key
  }

  ghost predicate CarrierInv(s: State) {
    && OneWorker(s)
    && (forall j :: j in s.jobs && s.jobs[j].phase.Active? ==> s.jobs[j].phase.worker in s.workers)
    && (forall w :: w in s.workers ==> StatusFits(s.db.status, s.workers[w]))
    && (s.jobs != map[] ==> s.deadLetters == {} && (s.workers == map[] ==> !s.db.Finished()))
    && (s.jobs == map[] ==> CarriedBy(s, Done) || CarriedBy(s, DeadLetter))
  }

  /** No worker crashes, nothing takes a live worker for dead, and no end state is lost. */
  predicate IsCrashFree(d: Discipline) {
    d.timely && d.deadOnly && d.crashFree && d.endsWritten
  }

  /** A scan finds nothing to suspect, and no other scan event can follow; nor has the queue anything to take back. */
  lemma ScanIsIdle(d: Discipline, H: int, wf: Workflow, cfg: RetryPolicyConfig, s: State, ev: Event)
    requires LeaseInv(s) && Timely(s, H) && QuietInv(s) && CarrierInv(s)
    requires IsCrashFree(d) && Enabled(wf, s, ev) && Allowed(d, H, s, ev, Apply(wf, cfg, s, ev))
    ensures !ev.ScanRead? && !ev.ScanMark? && !ev.ScanDemote? && !ev.Recover?
    ensures !ev.Redeliver? && !ev.StalledOut? && !ev.Lose?
  {
  }

  lemma EventKeepsQuiet(d: Discipline, H: int, wf: Workflow, cfg: RetryPolicyConfig, s: State, ev: Event)
    requires Inv(wf, cfg, s) && LeaseInv(s) && Timely(s, H) && QuietInv(s) && CarrierInv(s)
    requires IsCrashFree(d) && Enabled(wf, s, ev) && Allowed(d, H, s, ev, Apply(wf, cfg, s, ev))
    ensures QuietInv(Apply(wf, cfg, s, ev))
  {
    ScanIsIdle(d, H, wf, cfg, s, ev);
    var s' := Apply(wf, cfg, s, ev);
    forall key | key in s'.db.rows && s'.db.rows[key].status.StepRunning?
      ensures IsBeaten(s', key)
    {
      if key in s.db.rows && s.db.rows[key].status.StepRunning? {
        assert IsBeaten(s, key);
        var w :| w in s.workers && s.workers[w].Beats() && s.workers[w].Key() == key;
        BeaterStays(wf, cfg, s, ev, w);
      } else {
        RunningComesFromClaim(wf, cfg, s, ev, key);
        assert s'.workers[ev.w].Beats() && s'.workers[ev.w].Key() == key;
      }
    }
  }

  lemma BeaterStays(wf: Workflow, cfg: RetryPolicyConfig, s: State, ev: Event, w: nat)
    requires Enabled(wf, s, ev) && w in s.workers && s.workers[w].Beats()
    requires s.db.OwnsRunning(s.workers[w].Key(), s.workers[w].host)
    requires !ev.Crash? && (ev.Work? && ev.act.DoThrow? ==> !s.workers[ev.w].pc.Finish?)
    requires var s' := Apply(wf, cfg, s, ev); s'.db.rows[s.workers[w].Key()].status.StepRunning?
    ensures var s' := Apply(wf, cfg, s, ev);
            w in s'.workers && s'.workers[w].Beats() && s'.workers[w].Key() == s.workers[w].Key()
  {
    var s' := Apply(wf, cfg, s, ev);
    if ev.Work? {
      if ev.w == w && s'.workers[w].Walking() {
        OwnerStaysOnRow(wf, s.now, ViewOf(s, w), ev.act);
      }
    } else {
      OthersMoveNobody(wf, cfg, s, ev);
    }
  }

  lemma WorkersHoldJobs(s: State)
    requires OneWorker(s)
    ensures forall w :: w in s.workers ==> s.workers[w].job in s.jobs && s.jobs[s.workers[w].job].phase == Active(w)
  {
  }

  lemma FailureKeepsCarrier(cfg: RetryPolicyConfig, s: State, w: nat, draw: int, id: nat)
    requires JobsInv(cfg, s) && CarrierInv(s) && w in s.workers && s.workers[w].pc.Threw? && IsFresh(s, id)
    ensures CarrierInv(Dismiss(HandleFailure(s, s.workers[w].job, s.workers[w].pc.error, draw, id, cfg), w))
  {
    WorkersHoldJobs(s);
    var job, error := s.workers[w].job, s.workers[w].pc.error;
    assert s.jobs - {job} == map[];
    assert StatusFits(s.db.status, s.workers[w]) && s.deadLetters == {};
    var s' := Dismiss(HandleFailure(s, job, error, draw, id, cfg), w);
    assert s'.workers == map[];
    var d := DecideRetry(error, s.jobs[job].attempt, s.jobs[job].deferrals, s.now - s.startedAt, draw, cfg);
    if d.shouldRetry {
      assert s'.jobs == map[id := Job(d.newNormalAttemptCount, d.newRateLimitDeferralsCount, Waiting)];
      assert id in s'.jobs;
    } else {
      assert s'.jobs == map[] && s'.deadLetters == {id};
      assert CarriedBy(s', DeadLetter);
    }
  }

  lemma CompletionKeepsCarrier(cfg: RetryPolicyConfig, s: State, w: nat)
    requires JobsInv(cfg, s) && CarrierInv(s) && w in s.workers && s.workers[w].pc.Returned?
    ensures CarrierInv(Dismiss(s.(jobs := s.jobs - {s.workers[w].job}), w))
  {
  }

  lemma ReplayKeepsCarrier(wf: Workflow, cfg: RetryPolicyConfig, s: State, record: nat, id: nat)
    requires CarrierInv(s) && Enabled(wf, s, Replay(record, id))
    ensures CarrierInv(Apply(wf, cfg, s, Replay(record, id)))
  {
    var s' := Apply(wf, cfg, s, Replay(record, id));
    assert CarriedBy(s, DeadLetter);
    assert s.deadLetters == {record} by {
      if other :| other in s.deadLetters && other != record {
        SubsetIsSmaller({record, other}, s.deadLetters);
      }
    }
    WorkersHoldJobs(s);
    assert s.workers == map[];
    assert s'.jobs.Keys == {id};
  }

  lemma StartKeepsCarrier(wf: Workflow, cfg: RetryPolicyConfig, s: State, ev: Event)
    requires JobsInv(cfg, s) && CarrierInv(s) && ev.StartJob? && Enabled(wf, s, ev)
    ensures CarrierInv(Apply(wf, cfg, s, ev))
  {
  }

  lemma ActKeepsStatusFit(wf: Workflow, now: int, v: View, act: Action)
    requires CanAct(wf, now, v, act) && StatusFits(v.db.status, v.wk)
    ensures var v' := Act(wf, now, v, act); StatusFits(v'.db.status, v'.wk)
  {
  }

  /** A worker's actions leave the queues alone and keep status and program counter in step. */
  lemma WorkKeepsCarrier(wf: Workflow, cfg: RetryPolicyConfig, s: State, ev: Event)
    requires CarrierInv(s) && Enabled(wf, s, ev) && ev.Work?
    ensures CarrierInv(Apply(wf, cfg, s, ev))
  {
    var s' := Apply(wf, cfg, s, ev);
    ActKeepsStatusFit(wf, s.now, ViewOf(s, ev.w), ev.act);
    ActSteps(wf, s.now, ViewOf(s, ev.w), ev.act);
    WorkersHoldJobs(s);
    assert s'.workers.Keys == s.workers.Keys == {ev.w};
  }

  lemma EventKeepsCarrier(d: Discipline, H: int, wf: Workflow, cfg: RetryPolicyConfig, s: State, ev: Event)
    requires Inv(wf, cfg, s) && LeaseInv(s) && Timely(s, H) && QuietInv(s) && CarrierInv(s)
    requires IsCrashFree(d) && Enabled(wf, s, ev) && Allowed(d, H, s, ev, Apply(wf, cfg, s, ev))
    ensures CarrierInv(Apply(wf, cfg, s, ev))
  {
    ScanIsIdle(d, H, wf, cfg, s, ev);
    match ev
    case StartJob(_, _, _) => StartKeepsCarrier(wf, cfg, s, ev);
    case JobFailed(w, draw, id) => FailureKeepsCarrier(cfg, s, w, draw, id);
    case JobCompleted(w) => CompletionKeepsCarrier(cfg, s, w);
    case Replay(record, id) => ReplayKeepsCarrier(wf, cfg, s, record, id);
    case Work(_, _) => WorkKeepsCarrier(wf, cfg, s, ev);
    case _ =>
  }

  lemma TriggeredIsCarried(now: int)
    ensures CarrierInv(Triggered(now)) && QuietInv(Triggered(now))
  {
    assert 0 in Triggered(now).jobs;
  }

  lemma CrashFreeEventKeepsAll(d: Discipline, H: int, wf: Workflow, cfg: RetryPolicyConfig, s: State, ev: Event)
    requires IsCrashFree(d) && CrashFreeInv(wf, cfg, s, H)
    requires Enabled(wf, s, ev) && Allowed(d, H, s, ev, Apply(wf, cfg, s, ev))
    ensures CrashFreeInv(wf, cfg, Apply(wf, cfg, s, ev), H)
  {
    EventKeepsInv(wf, cfg, s, ev);
    EventKeepsBeating(wf, cfg, s, ev);
    EventKeepsSuspects(wf, cfg, s, ev, H);
    EventKeepsQuiet(d, H, wf, cfg, s, ev);
    EventKeepsCarrier(d, H, wf, cfg, s, ev);
  }

  ghost predicate CrashFreeInv(wf: Workflow, cfg: RetryPolicyConfig, s: State, H: int) {
    Inv(wf, cfg, s) && LeaseInv(s) && Timely(s, H) && QuietInv(s) && CarrierInv(s)
  }

  lemma {:induction false} CrashFreeRunKeepsCarrier(d: Discipline, H: int, wf: Workflow, cfg: RetryPolicyConfig,
                                                    s: State,
                                                    evs: seq<Event>)
    requires IsCrashFree(d) && CrashFreeInv(wf, cfg, s, H) && IsRunUnder(d, H, wf, cfg, s, evs)
    ensures CrashFreeInv(wf, cfg, After(wf, cfg, s, evs), H)
    decreases |evs|
  {
    if evs == [] {
    } else {
      CrashFreeEventKeepsAll(d, H, wf, cfg, s, evs[0]);
      CrashFreeRunKeepsCarrier(d, H, wf, cfg, Apply(wf, cfg, s, evs[0]), evs[1..]);
    }
  }

  /** In a crash-free run an execution always has exactly one carrier: it is neither lost nor duplicated. */
  lemma ExactlyOneCarrier(d: Discipline, H: int, wf: Workflow, cfg: RetryPolicyConfig, now: int, evs: seq<Event>)
    requires IsCrashFree(d) && IsRunUnder(d, H, wf, cfg, Triggered(now), evs)
    ensures var s := After(wf, cfg, Triggered(now), evs);
            && (CarriedBy(s, LiveJob) || CarriedBy(s, Done) || CarriedBy(s, DeadLetter))
            && (forall g, h :: CarriedBy(s, g) && CarriedBy(s, h) ==> g == h)
  {
    TriggeredIsCarried(now);
    CrashFreeRunKeepsCarrier(d, H, wf, cfg, Triggered(now), evs);
    AtMostOneLiveJob(wf, cfg, now, evs);
  }

  /** Without crashes a waiting job means that nobody works, hence that no row is RUNNING: every pick-up is clean. */
  lemma {:induction false} CrashFreePickupIsClean(d: Discipline, H: int, wf: Workflow, cfg: RetryPolicyConfig, s: State,
                                                  evs: seq<Event>)
    requires IsCrashFree(d) && CrashFreeInv(wf, cfg, s, H) && IsRunUnder(d, H, wf, cfg, s, evs)
    ensures IsRunUnder(d.(cleanPickup := true), H, wf, cfg, s, evs)
    decreases |evs|
  {
    if evs == [] {
    } else {
      if evs[0].StartJob? {
        WorkersHoldJobs(s);
        assert s.workers == map[];
        assert forall key :: !IsBeaten(s, key);
      }
      CrashFreeEventKeepsAll(d, H, wf, cfg, s, evs[0]);
      CrashFreePickupIsClean(d, H, wf, cfg, Apply(wf, cfg, s, evs[0]), evs[1..]);
    }
  }
}
