/**
 What a replay can still achieve. Attempt numbers start again at 1 with every replay or recovery, and
 the unique key lets no attempt number of a step be used twice: a step succeeds after a replay only
 under a number that has no row yet.
 */
module Revival {
  import opened Wrappers
  import opened WorkflowStore
  import opened RetryScheduler
  import opened Protocol
  import opened Invariants
  import opened RunSafety
  import opened Completion
  import opened HappyPath
  import opened Trust

  // ----- rows that can no longer succeed

  /** Not SUCCEEDED, and either at its end or without a worker to end it. */
  ghost predicate IsDead(s: State, key: RowKey) {
    && key in s.db.rows && !s.db.rows[key].status.StepSucceeded?
    && (s.db.rows[key].Ended() || forall w :: w in s.workers && s.workers[w].Holds() ==> s.workers[w].Key() != key)
  }

  lemma EventKeepsDead(wf: Workflow, cfg: RetryPolicyConfig, s: State, ev: Event, key: RowKey)
    requires IsDead(s, key) && Enabled(wf, s, ev)
    ensures IsDead(Apply(wf, cfg, s, ev), key)
  {
    var s' := Apply(wf, cfg, s, ev);
    EventStepsDb(wf, cfg, s, ev);
    assert RowStep(s.db.rows[key], s'.db.rows[key]);
    if !s.db.rows[key].Ended() {
      if ev.Work? {
        ActSteps(wf, s.now, ViewOf(s, ev.w), ev.act);
      } else {
        OtherSteps(wf, cfg, s, ev);
      }
      forall w | w in s'.workers && s'.workers[w].Holds()
        ensures s'.workers[w].Key() != key
      {
        HolderHeldOrCreated(wf, cfg, s, ev, w);
      }
    }
  }

  lemma {:induction false} RunKeepsDead(wf: Workflow, cfg: RetryPolicyConfig, s: State, evs: seq<Event>, key: RowKey)
    requires IsDead(s, key) && IsRun(wf, cfg, s, evs)
    ensures IsDead(After(wf, cfg, s, evs), key)
    decreases |evs|
  {
    if evs == [] {
    } else {
      EventKeepsDead(wf, cfg, s, evs[0], key);
      RunKeepsDead(wf, cfg, Apply(wf, cfg, s, evs[0]), evs[1..], key);
    }
  }

  /**
   A step all of whose attempt numbers have a dead row never succeeds, whatever is retried, recovered
   or replayed from then on.
   */
  lemma ExhaustedStepNeverSucceeds(wf: Workflow, cfg: RetryPolicyConfig, s: State, evs: seq<Event>, at: nat)
    requires Inv(wf, cfg, s) && IsRun(wf, cfg, s, evs)
    requires forall a :: 1 <= a <= AttemptBound(cfg) ==> IsDead(s, RowKey(at, a))
    ensures !After(wf, cfg, s, evs).db.Succeeded(at)
  {
    RunKeepsInv(wf, cfg, s, evs);
    var s' := After(wf, cfg, s, evs);
    forall key | key in s'.db.rows && key.at == at
      ensures !s'.db.rows[key].status.StepSucceeded?
    {
      assert key == RowKey(at, key.attempt);
      RunKeepsDead(wf, cfg, s, evs, key);
    }
  }

  // ----- once the execution's lifetime is over

  predicate LifetimeOver(cfg: RetryPolicyConfig, s: State) {
    s.now - s.startedAt >= cfg.maxExecutionLifetimeMs
  }

  /** Nothing is retried any more, and every job and worker is at its first attempt. */
  ghost predicate FirstAttemptsOnly(cfg: RetryPolicyConfig, s: State) {
    && LifetimeOver(cfg, s)
    && (forall j :: j in s.jobs ==> s.jobs[j].attempt == 1)
    && (forall w :: w in s.workers ==> s.workers[w].attempt == 1)
  }

  lemma EventKeepsFirstAttempts(wf: Workflow, cfg: RetryPolicyConfig, s: State, ev: Event)
    requires FirstAttemptsOnly(cfg, s) && Enabled(wf, s, ev)
    ensures FirstAttemptsOnly(cfg, Apply(wf, cfg, s, ev))
  {
    if ev.Work? {
      ActSteps(wf, s.now, ViewOf(s, ev.w), ev.act);
    } else {
      OtherSteps(wf, cfg, s, ev);
      OthersMoveNobody(wf, cfg, s, ev);
    }
  }

  // ----- dead-lettered executions

  /** Filed in the dead-letter queue, with no job, no worker and no row RUNNING. */
  ghost predicate IsShelved(s: State) {
    s.jobs == map[] && s.workers == map[] && s.deadLetters != {} && NothingRunning(s)
  }

  /** The attempt numbers that replays of a shelved execution can still reach. */
  function AttemptsLeft(cfg: RetryPolicyConfig, s: State): nat {
    if LifetimeOver(cfg, s) then 1 else AttemptBound(cfg)
  }

  ghost predicate HasFreeAttempt(cfg: RetryPolicyConfig, s: State, at: nat) {
    exists a :: 1 <= a <= AttemptsLeft(cfg, s) && RowKey(at, a) !in s.db.rows
  }

  /** A step that workers pass over from now on: before currentStep, or done. */
  predicate IsBehind(wf: Workflow, db: Db, i: nat)
    requires i < |wf|
  {
    wf[i].order < db.currentStep || db.Succeeded(i)
  }

  // ----- a step that is stuck

  /** Every attempt number that a job or worker has, or can still get, has a row of the step. */
  ghost predicate AttemptsUsedUp(cfg: RetryPolicyConfig, s: State, at: nat) {
    || (forall a :: 1 <= a <= AttemptBound(cfg) ==> RowKey(at, a) in s.db.rows)
    || (RowKey(at, 1) in s.db.rows && FirstAttemptsOnly(cfg, s))
  }

  /** No row of the step is RUNNING or SUCCEEDED. */
  ghost predicate NoneAlive(db: Db, at: nat) {
    forall key :: key in db.rows && key.at == at ==>
      !db.rows[key].status.StepRunning? && !db.rows[key].status.StepSucceeded?
  }

  /** The worker has not got past the step, will not pass it over, and has no row of it. */
  predicate NotPast(wf: Workflow, wk: Worker, at: nat)
    requires at < |wf|
  {
    wk.at <= at && wk.seenStep <= wf[at].order && (wk.at == at ==> !wk.Holds())
  }

  ghost predicate IsStuck(wf: Workflow, cfg: RetryPolicyConfig, s: State, at: nat) {
    && at < |wf| && !s.db.status.Completed? && s.db.currentStep <= wf[at].order
    && NoneAlive(s.db, at) && AttemptsUsedUp(cfg, s, at)
    && forall w :: w in s.workers ==> NotPast(wf, s.workers[w], at)
  }

  /** A worker at an earlier step can get to this one, and no further. */
  lemma EarlierWorkerStaysBefore(wf: Workflow, cfg: RetryPolicyConfig, now: int, v: View, act: Action, at: nat)
    requires SortedByOrder(wf) && at < |wf| && WorkerInv(wf, cfg, v) && CanAct(wf, now, v, act)
    requires !v.db.status.Completed? && v.db.currentStep <= wf[at].order && NoneAlive(v.db, at)
    requires NotPast(wf, v.wk, at) && v.wk.at < at
    ensures var v' := Act(wf, now, v, act);
            && NotPast(wf, v'.wk, at) && NoneAlive(v'.db, at)
            && !v'.db.status.Completed? && v'.db.currentStep <= wf[at].order
  {
    ActSteps(wf, now, v, act);
    ActMovesOneStep(wf, now, v, act);
    assert wf[v.wk.at].order <= wf[at].order;
  }

  /** A worker at the step finds it neither done nor active, and cannot insert a row. */
  lemma WorkerAtStepStays(wf: Workflow, cfg: RetryPolicyConfig, now: int, v: View, act: Action, at: nat)
    requires at < |wf| && WorkerInv(wf, cfg, v) && CanAct(wf, now, v, act)
    requires !v.db.status.Completed? && v.db.currentStep <= wf[at].order && NoneAlive(v.db, at)
    requires NotPast(wf, v.wk, at) && v.wk.at == at && v.wk.Key() in v.db.rows
    ensures var v' := Act(wf, now, v, act);
            && NotPast(wf, v'.wk, at) && v'.db.rows == v.db.rows
            && !v'.db.status.Completed? && v'.db.currentStep <= wf[at].order
  {
  }

  lemma EventKeepsUsedUp(wf: Workflow, cfg: RetryPolicyConfig, s: State, ev: Event, at: nat)
    requires AttemptsUsedUp(cfg, s, at) && Enabled(wf, s, ev)
    ensures AttemptsUsedUp(cfg, Apply(wf, cfg, s, ev), at)
  {
    EventStepsDb(wf, cfg, s, ev);
    if RowKey(at, 1) in s.db.rows && FirstAttemptsOnly(cfg, s) {
      EventKeepsFirstAttempts(wf, cfg, s, ev);
    }
  }

  lemma WorkKeepsStuck(wf: Workflow, cfg: RetryPolicyConfig, s: State, w: nat, act: Action, at: nat)
    requires SortedByOrder(wf) && Inv(wf, cfg, s) && IsStuck(wf, cfg, s, at) && Enabled(wf, s, Work(w, act))
    ensures IsStuck(wf, cfg, Apply(wf, cfg, s, Work(w, act)), at)
  {
    var v := ViewOf(s, w);
    assert WorkerInv(wf, cfg, v) && NotPast(wf, v.wk, at);
    if v.wk.at < at {
      EarlierWorkerStaysBefore(wf, cfg, s.now, v, act, at);
    } else {
      assert v.wk.Key() in s.db.rows;
      WorkerAtStepStays(wf, cfg, s.now, v, act, at);
    }
    EventKeepsUsedUp(wf, cfg, s, Work(w, act), at);
  }

  lemma OthersKeepStuck(wf: Workflow, cfg: RetryPolicyConfig, s: State, ev: Event, at: nat)
    requires IsStuck(wf, cfg, s, at) && Enabled(wf, s, ev) && !ev.Work?
    ensures IsStuck(wf, cfg, Apply(wf, cfg, s, ev), at)
  {
    OtherSteps(wf, cfg, s, ev);
    OthersMoveNobody(wf, cfg, s, ev);
    OthersKeepPointer(wf, cfg, s, ev);
    EventKeepsUsedUp(wf, cfg, s, ev, at);
  }

  lemma {:induction false} RunKeepsStuck(wf: Workflow, cfg: RetryPolicyConfig, s: State, evs: seq<Event>, at: nat)
    requires SortedByOrder(wf) && Inv(wf, cfg, s) && IsStuck(wf, cfg, s, at) && IsRun(wf, cfg, s, evs)
    ensures IsStuck(wf, cfg, After(wf, cfg, s, evs), at)
    decreases |evs|
  {
    if evs == [] {
    } else {
      EventKeepsInv(wf, cfg, s, evs[0]);
      if evs[0].Work? {
        WorkKeepsStuck(wf, cfg, s, evs[0].w, evs[0].act, at);
      } else {
        OthersKeepStuck(wf, cfg, s, evs[0], at);
      }
      RunKeepsStuck(wf, cfg, Apply(wf, cfg, s, evs[0]), evs[1..], at);
    }
  }

  /** A shelved execution with a step still to be done, and no attempt number for it, never completes. */
  lemma NoFreeAttemptNoCompletion(wf: Workflow, cfg: RetryPolicyConfig, s: State, evs: seq<Event>, at: nat)
    requires SortedByOrder(wf) && Inv(wf, cfg, s) && IsShelved(s) && !s.db.status.Completed? && IsRun(wf, cfg, s, evs)
    requires at < |wf| && !IsBehind(wf, s.db, at) && !HasFreeAttempt(cfg, s, at)
    ensures !After(wf, cfg, s, evs).db.status.Completed?
  {
    RunKeepsStuck(wf, cfg, s, evs, at);
  }

  // ----- bringing one back

  lemma {:induction false} FreshAbove(xs: set<nat>) returns (n: nat)
    ensures forall x :: x in xs ==> x < n
  {
    if xs == {} {
      n := 0;
    } else {
      var x :| x in xs;
      var m := FreshAbove(xs - {x});
      n := Max(m, x + 1);
      assert forall y :: y in xs ==> y == x || y in xs - {x};
    }
  }

  /** A job of attempt a waits, and nobody works. */
  ghost predicate Waits(s: State, j: nat, a: nat) {
    s.jobs == map[j := Job(a, 0, Waiting)] && s.workers == map[] && NothingRunning(s)
  }

  /** Worker 0 alone holds that job. */
  ghost predicate Works(s: State, j: nat, a: nat) {
    && s.jobs == map[j := Job(a, 0, Active(0))] && s.workers.Keys == {0}
    && s.workers[0].job == j && s.workers[0].attempt == a
  }

  ghost predicate SameClockAndRows(s: State, s': State) {
    && s'.now == s.now && s'.startedAt == s.startedAt && s'.recoverable == s.recoverable
    && s'.db.rows == s.db.rows && s'.db.currentStep == s.db.currentStep
  }

  /** What a failure leads to: the next attempt, or back to the dead letters. */
  ghost predicate FailedOnce(cfg: RetryPolicyConfig, s: State, s': State, a: nat, id: nat) {
    && SameClockAndRows(s, s')
    && if a < cfg.maxNormalRetries && !LifetimeOver(cfg, s) then Waits(s', id, a + 1) && s'.db == s.db
       else IsShelved(s')
  }

  lemma WorkerGivesUp(d: Discipline, H: nat, wf: Workflow, cfg: RetryPolicyConfig, s: State, j: nat, a: nat)
    returns (evs: seq<Event>, id: nat)
    requires Works(s, j, a) && NothingRunning(s) && (s.workers[0].pc.ClaimExecution? || s.workers[0].pc.LookSucceeded?)
    ensures IsRunUnder(d, H, wf, cfg, s, evs) && FailedOnce(cfg, s, After(wf, cfg, s, evs), a, id)
  {
    id := FreshAbove(s.deadLetters + {j});
    var give, fail := Work(0, DoThrow(false)), JobFailed(0, 0, id);
    var s1 := Apply(wf, cfg, s, give);
    assert Works(s1, j, a) && s1.workers[0].pc == Threw(OtherError(false));
    FailureIsHandled(d, H, wf, cfg, s1, j, a, id);
    ConsRunUnder(d, H, wf, cfg, s1, fail, []);
    ConsRunUnder(d, H, wf, cfg, s, give, [fail] + []);
    evs := [give] + ([fail] + []);
  }

  lemma FailureIsHandled(d: Discipline, H: nat, wf: Workflow, cfg: RetryPolicyConfig, s: State, j: nat, a: nat, id: nat)
    requires Works(s, j, a) && NothingRunning(s) && s.workers[0].pc == Threw(OtherError(false)) && IsFresh(s, id)
    ensures var fail := JobFailed(0, 0, id);
            && Enabled(wf, s, fail)
            && var s' := Apply(wf, cfg, s, fail);
            Allowed(d, H, s, fail, s') && FailedOnce(cfg, s, s', a, id)
  {
    var s' := Apply(wf, cfg, s, JobFailed(0, 0, id));
    assert s.workers - {0} == map[] && s.jobs - {j} == map[];
    assert DecideRetry(OtherError(false), a, 0, s.now - s.startedAt, 0, cfg).shouldRetry <==>
           a < cfg.maxNormalRetries && !LifetimeOver(cfg, s);
    assert id in s'.jobs || id in s'.deadLetters;
  }

  lemma PicksUp(d: Discipline, H: nat, wf: Workflow, cfg: RetryPolicyConfig, s: State, j: nat, a: nat)
    requires Waits(s, j, a)
    ensures var ev := StartJob(0, "", j);
            && Enabled(wf, s, ev)
            && var s' := Apply(wf, cfg, s, ev);
            && Allowed(d, H, s, ev, s') && Works(s', j, a) && s'.db == s.db && SameClockAndRows(s, s')
            && s'.workers[0] == Worker("", j, a, s.db.currentStep, 0, ClaimExecution)
  {
  }

  /** The next attempt fails at once. */
  lemma FailNext(d: Discipline, H: nat, wf: Workflow, cfg: RetryPolicyConfig, s: State, j: nat, a: nat)
    returns (evs: seq<Event>, id: nat)
    requires Waits(s, j, a)
    ensures IsRunUnder(d, H, wf, cfg, s, evs) && FailedOnce(cfg, s, After(wf, cfg, s, evs), a, id)
  {
    PicksUp(d, H, wf, cfg, s, j, a);
    evs, id := WorkerGivesUp(d, H, wf, cfg, Apply(wf, cfg, s, StartJob(0, "", j)), j, a);
    ConsRunUnder(d, H, wf, cfg, s, StartJob(0, "", j), evs);
    evs := [StartJob(0, "", j)] + evs;
  }

  /** Failing at once, the job gets to any attempt number that is left. */
  lemma FailUpTo(d: Discipline, H: nat, wf: Workflow, cfg: RetryPolicyConfig, s: State, j: nat, a: nat, goal: nat)
    returns (evs: seq<Event>, id: nat)
    requires Waits(s, j, a) && 1 <= a <= goal <= AttemptsLeft(cfg, s)
    ensures IsRunUnder(d, H, wf, cfg, s, evs)
    ensures var s' := After(wf, cfg, s, evs); Waits(s', id, goal) && SameClockAndRows(s, s') && s'.db == s.db
    decreases goal - a
  {
    if a == goal {
      evs, id := [], j;
    } else {
      evs, id := FailNext(d, H, wf, cfg, s, j, a);
      var more, last := FailUpTo(d, H, wf, cfg, After(wf, cfg, s, evs), id, a + 1, goal);
      RunUnderJoins(d, H, wf, cfg, s, evs, more);
      evs, id := evs + more, last;
    }
  }

  /** And failing on, it ends in the dead-letter queue. */
  lemma FailToTheEnd(d: Discipline, H: nat, wf: Workflow, cfg: RetryPolicyConfig, s: State, j: nat, a: nat)
    returns (evs: seq<Event>)
    requires Waits(s, j, a)
    ensures IsRunUnder(d, H, wf, cfg, s, evs)
    ensures IsShelved(After(wf, cfg, s, evs)) && SameClockAndRows(s, After(wf, cfg, s, evs))
    decreases cfg.maxNormalRetries - a
  {
    var id;
    evs, id := FailNext(d, H, wf, cfg, s, j, a);
    if a < cfg.maxNormalRetries && !LifetimeOver(cfg, s) {
      var more := FailToTheEnd(d, H, wf, cfg, After(wf, cfg, s, evs), id, a + 1);
      RunUnderJoins(d, H, wf, cfg, s, evs, more);
      evs := evs + more;
    }
  }

  /** A replay, failed up to the wanted attempt number. */
  lemma ReplayUpTo(d: Discipline, H: nat, wf: Workflow, cfg: RetryPolicyConfig, s: State, goal: nat)
    returns (evs: seq<Event>, id: nat)
    requires IsShelved(s) && 1 <= goal <= AttemptsLeft(cfg, s)
    ensures IsRunUnder(d, H, wf, cfg, s, evs)
    ensures var s' := After(wf, cfg, s, evs);
            Waits(s', id, goal) && SameClockAndRows(s, s') && s'.db.status.Running?
  {
    var record :| record in s.deadLetters;
    var first := FreshAbove(s.deadLetters);
    var s1 := Apply(wf, cfg, s, Replay(record, first));
    evs, id := FailUpTo(d, H, wf, cfg, s1, first, 1, goal);
    ConsRunUnder(d, H, wf, cfg, s, Replay(record, first), evs);
    evs := [Replay(record, first)] + evs;
  }

  // ----- a whole execution, step by step

  /** Shelved, with nothing left to do before `at`. */
  ghost predicate ShelvedAt(wf: Workflow, s: State, at: nat) {
    IsShelved(s) && at <= |wf| && forall i :: 0 <= i < at ==> IsBehind(wf, s.db, i)
  }

  /** The row of one step has been added, and that step has succeeded. */
  ghost predicate Gained(s: State, s': State, key: RowKey) {
    && s'.now == s.now && s'.startedAt == s.startedAt && s.db.currentStep <= s'.db.currentStep
    && s'.db.rows.Keys == s.db.rows.Keys + {key}
    && (forall k :: k in s.db.rows && k != key ==> s'.db.rows[k] == s.db.rows[k])
    && s'.db.rows[key].status.StepSucceeded?
  }

  /** The worker of a waiting job claims the execution and gets to the first step that is left. */
  lemma PicksUpAndPasses(d: Discipline, H: nat, wf: Workflow, cfg: RetryPolicyConfig, s: State, j: nat, a: nat, at: nat)
    returns (evs: seq<Event>)
    requires Waits(s, j, a) && s.db.status.Running? && at <= |wf| && forall i :: 0 <= i < at ==> IsBehind(wf, s.db, i)
    ensures IsRunUnder(d, H, wf, cfg, s, evs)
    ensures var s' := After(wf, cfg, s, evs);
            && Works(s', j, a) && SameClockAndRows(s, s') && s'.db.InProgress() && NothingRunning(s')
            && s'.workers[0] == Worker("", j, a, s.db.currentStep, at, LookSucceeded)
  {
    PicksUp(d, H, wf, cfg, s, j, a);
    var start, claim := StartJob(0, "", j), Work(0, DoClaimExecution);
    var s1 := Apply(wf, cfg, s, start);
    ClaimsRunning(d, H, wf, cfg, s1, j, a);
    var s2 := Apply(wf, cfg, s1, claim);
    forall i | 0 <= i < at
      ensures Passed(wf, s2, 0, i)
    {
      assert IsBehind(wf, s.db, i) && (s.db.Succeeded(i) ==> s2.db.Succeeded(i));
    }
    var pass := PassOver(d, H, wf, cfg, s2, 0, at);
    ConsRunUnder(d, H, wf, cfg, s1, claim, pass);
    ConsRunUnder(d, H, wf, cfg, s, start, [claim] + pass);
    evs := [start] + ([claim] + pass);
  }

  lemma ClaimsRunning(d: Discipline, H: nat, wf: Workflow, cfg: RetryPolicyConfig, s: State, j: nat, a: nat)
    requires Works(s, j, a) && s.workers[0].pc.ClaimExecution? && s.db.status.Running?
    ensures var ev := Work(0, DoClaimExecution);
            && Enabled(wf, s, ev)
            && var s' := Apply(wf, cfg, s, ev);
            && Allowed(d, H, s, ev, s') && Timely(s', H)
            && Works(s', j, a) && SameClockAndRows(s, s') && s'.db.InProgress()
            && s'.workers[0] == s.workers[0].(pc := LookSucceeded)
            && forall i :: s.db.Succeeded(i) ==> s'.db.Succeeded(i)
  {
    var s' := Apply(wf, cfg, s, Work(0, DoClaimExecution));
    assert s'.db.rows == s.db.rows;
    assert forall i :: s.db.Succeeded(i) ==> s'.db.Succeeded(i);
  }

  lemma StepIsReady(wf: Workflow, s: State, s': State, j: nat, a: nat, at: nat)
    requires ShelvedAt(wf, s, at) && at < |wf| && !IsBehind(wf, s.db, at) && RowKey(at, a) !in s.db.rows
    requires Works(s', j, a) && SameClockAndRows(s, s') && s'.db.InProgress()
    requires s'.workers[0] == Worker("", j, a, s.db.currentStep, at, LookSucceeded)
    ensures Ready(wf, s', 0)
  {
  }

  lemma StepIsGained(wf: Workflow, s: State, s': State, s'': State, j: nat, a: nat, at: nat)
    requires ShelvedAt(wf, s, at) && at < |wf|
    requires Works(s', j, a) && SameClockAndRows(s, s') && s'.workers[0].Key() == RowKey(at, a)
    requires Stepped(wf, s', s'', 0)
    ensures Gained(s, s'', RowKey(at, a))
    ensures Works(s'', j, a) && NothingRunning(s'') && s''.workers[0].pc.LookSucceeded?
    ensures forall i :: 0 <= i <= at ==> IsBehind(wf, s''.db, i)
  {
    assert forall k :: k in s''.db.rows ==> k == RowKey(at, a) || k in s.db.rows;
    forall i | 0 <= i <= at
      ensures IsBehind(wf, s''.db, i)
    {
      if i == at {
        assert s''.db.rows[RowKey(at, a)].status.StepSucceeded?;
      } else if s.db.Succeeded(i) {
        var k :| k in s.db.rows && k.at == i && s.db.rows[k].status.StepSucceeded?;
        assert s''.db.rows[k].status.StepSucceeded?;
      } else {
        assert IsBehind(wf, s.db, i);
      }
    }
  }

  lemma SameRowsSameSteps(wf: Workflow, s: State, s': State, at: nat)
    requires SameClockAndRows(s, s') && at <= |wf| && forall i :: 0 <= i < at ==> IsBehind(wf, s.db, i)
    ensures forall i :: 0 <= i < at ==> IsBehind(wf, s'.db, i)
  {
    forall i | 0 <= i < at
      ensures IsBehind(wf, s'.db, i)
    {
      assert IsBehind(wf, s.db, i) && (s.db.Succeeded(i) ==> s'.db.Succeeded(i));
    }
  }

  lemma ReplayToStep(d: Discipline, H: nat, wf: Workflow, cfg: RetryPolicyConfig, s: State, at: nat, a: nat)
    returns (evs: seq<Event>, j: nat)
    requires ShelvedAt(wf, s, at) && 1 <= a <= AttemptsLeft(cfg, s)
    ensures IsRunUnder(d, H, wf, cfg, s, evs)
    ensures var s' := After(wf, cfg, s, evs);
            && Works(s', j, a) && SameClockAndRows(s, s') && s'.db.InProgress() && NothingRunning(s')
            && s'.workers[0] == Worker("", j, a, s.db.currentStep, at, LookSucceeded)
  {
    evs, j := ReplayUpTo(d, H, wf, cfg, s, a);
    SameRowsSameSteps(wf, s, After(wf, cfg, s, evs), at);
    var pass := PicksUpAndPasses(d, H, wf, cfg, After(wf, cfg, s, evs), j, a, at);
    RunUnderJoins(d, H, wf, cfg, s, evs, pass);
    evs := evs + pass;
  }

  lemma GiveUpForGood(d: Discipline, H: nat, wf: Workflow, cfg: RetryPolicyConfig, s: State, j: nat, a: nat)
    returns (evs: seq<Event>)
    requires Works(s, j, a) && NothingRunning(s) && s.workers[0].pc.LookSucceeded?
    ensures IsRunUnder(d, H, wf, cfg, s, evs)
    ensures IsShelved(After(wf, cfg, s, evs)) && SameClockAndRows(s, After(wf, cfg, s, evs))
  {
    var id;
    evs, id := WorkerGivesUp(d, H, wf, cfg, s, j, a);
    if a < cfg.maxNormalRetries && !LifetimeOver(cfg, s) {
      var more := FailToTheEnd(d, H, wf, cfg, After(wf, cfg, s, evs), id, a + 1);
      RunUnderJoins(d, H, wf, cfg, s, evs, more);
      evs := evs + more;
    }
  }

  /** A replay and its failures up to attempt a, which takes the step; then the job fails until it is shelved again. */
  lemma ReviveStep(d: Discipline, H: nat, wf: Workflow, cfg: RetryPolicyConfig, s: State, at: nat, a: nat)
    returns (evs: seq<Event>)
    requires ShelvedAt(wf, s, at) && at < |wf| && !IsBehind(wf, s.db, at)
    requires 1 <= a <= AttemptsLeft(cfg, s) && RowKey(at, a) !in s.db.rows
    ensures IsRunUnder(d, H, wf, cfg, s, evs)
    ensures var s' := After(wf, cfg, s, evs);
            ShelvedAt(wf, s', at + 1) && Gained(s, s', RowKey(at, a))
  {
    var j;
    evs, j := ReplayToStep(d, H, wf, cfg, s, at, a);
    var s2 := After(wf, cfg, s, evs);
    StepIsReady(wf, s, s2, j, a, at);
    var step := StepGoesWell(d, H, wf, cfg, s2, 0);
    RunUnderJoins(d, H, wf, cfg, s, evs, step);
    evs := evs + step;
    var s3 := After(wf, cfg, s, evs);
    StepIsGained(wf, s, s2, s3, j, a, at);
    var down := GiveUpForGood(d, H, wf, cfg, s3, j, a);
    RunUnderJoins(d, H, wf, cfg, s, evs, down);
    evs := evs + down;
    SameRowsSameSteps(wf, s3, After(wf, cfg, s, evs), at + 1);
  }

  lemma GainedKeepsFree(cfg: RetryPolicyConfig, s: State, s': State, key: RowKey, i: nat)
    requires Gained(s, s', key) && i != key.at
    ensures HasFreeAttempt(cfg, s', i) <==> HasFreeAttempt(cfg, s, i)
    ensures s'.db.Succeeded(i) <==> s.db.Succeeded(i)
  {
    assert forall a: nat :: RowKey(i, a) in s'.db.rows <==> RowKey(i, a) in s.db.rows;
    assert forall k :: k in s'.db.rows && k.at == i ==> k in s.db.rows && s'.db.rows[k] == s.db.rows[k];
    assert forall k :: k in s.db.rows && k.at == i ==> k in s'.db.rows && s'.db.rows[k] == s.db.rows[k];
  }

  /** Step by step, replay by replay. */
  lemma Revive(d: Discipline, H: nat, wf: Workflow, cfg: RetryPolicyConfig, s: State, at: nat) returns (evs: seq<Event>)
    requires ShelvedAt(wf, s, at)
    requires forall i :: at <= i < |wf| && !IsBehind(wf, s.db, i) ==> HasFreeAttempt(cfg, s, i)
    ensures IsRunUnder(d, H, wf, cfg, s, evs) && After(wf, cfg, s, evs).db.status.Completed?
    decreases |wf| - at
  {
    if at == |wf| {
      evs := ReplayToCompletion(d, H, wf, cfg, s);
    } else if IsBehind(wf, s.db, at) {
      evs := Revive(d, H, wf, cfg, s, at + 1);
    } else {
      var a :| 1 <= a <= AttemptsLeft(cfg, s) && RowKey(at, a) !in s.db.rows;
      evs := ReviveStep(d, H, wf, cfg, s, at, a);
      var s' := After(wf, cfg, s, evs);
      forall i | at + 1 <= i < |wf| && !IsBehind(wf, s'.db, i)
        ensures HasFreeAttempt(cfg, s', i)
      {
        GainedKeepsFree(cfg, s, s', RowKey(at, a), i);
      }
      var more := Revive(d, H, wf, cfg, s', at + 1);
      RunUnderJoins(d, H, wf, cfg, s, evs, more);
      evs := evs + more;
    }
  }

  /** The last replay finds every step done. */
  lemma ReplayToCompletion(d: Discipline, H: nat, wf: Workflow, cfg: RetryPolicyConfig, s: State)
    returns (evs: seq<Event>)
    requires ShelvedAt(wf, s, |wf|)
    ensures IsRunUnder(d, H, wf, cfg, s, evs) && After(wf, cfg, s, evs).db.status.Completed?
  {
    var j;
    evs, j := ReplayToStep(d, H, wf, cfg, s, |wf|, 1);
    BehindTheLastStep(d, H, wf, cfg, After(wf, cfg, s, evs), 0);
    RunUnderThen(d, H, wf, cfg, s, evs, Work(0, DoLookSucceeded));
    evs := evs + [Work(0, DoLookSucceeded)];
    RunUnderThen(d, H, wf, cfg, s, evs, Work(0, DoComplete));
    evs := evs + [Work(0, DoComplete)];
  }

  /** From here the execution can still complete. */
  ghost predicate CanComplete(d: Discipline, H: int, wf: Workflow, cfg: RetryPolicyConfig, s: State) {
    exists evs :: IsRunUnder(d, H, wf, cfg, s, evs) && After(wf, cfg, s, evs).db.status.Completed?
  }

  /** Every step that is still to be done has an attempt number left. */
  ghost predicate AllHaveFreeAttempts(wf: Workflow, cfg: RetryPolicyConfig, s: State) {
    forall at :: 0 <= at < |wf| && !IsBehind(wf, s.db, at) ==> HasFreeAttempt(cfg, s, at)
  }

  /**
   Exactly when a shelved execution can still complete, by whatever replays, recoveries, failures and
   retries, and whatever is assumed: when every step that has not succeeded and is not before currentStep
   has an attempt number without a row, among all of them while the execution's lifetime lasts, and only
   the first afterwards.
   */
  lemma ShelvedCanCompleteIff(d: Discipline, H: nat, wf: Workflow, cfg: RetryPolicyConfig, now: int, before: seq<Event>)
    requires SortedByOrder(wf)
    requires IsRun(wf, cfg, Triggered(now), before) && IsShelved(After(wf, cfg, Triggered(now), before))
    ensures var s := After(wf, cfg, Triggered(now), before);
            CanComplete(d, H, wf, cfg, s) <==> s.db.status.Completed? || AllHaveFreeAttempts(wf, cfg, s)
  {
    var s := After(wf, cfg, Triggered(now), before);
    ReachableInv(wf, cfg, now, before);
    if s.db.status.Completed? {
      assert IsRunUnder(d, H, wf, cfg, s, []) && After(wf, cfg, s, []) == s;
    } else if AllHaveFreeAttempts(wf, cfg, s) {
      var evs := Revive(d, H, wf, cfg, s, 0);
    } else {
      var at :| 0 <= at < |wf| && !IsBehind(wf, s.db, at) && !HasFreeAttempt(cfg, s, at);
      forall evs | IsRunUnder(d, H, wf, cfg, s, evs)
        ensures !After(wf, cfg, s, evs).db.status.Completed?
      {
        NoFreeAttemptNoCompletion(wf, cfg, s, evs, at);
      }
    }
  }

  /** Where runs can be trusted nothing before currentStep is left undone, so it is about every step not succeeded. */
  lemma TrustedShelvedCanCompleteIff(d: Discipline, H: nat, wf: Workflow, cfg: RetryPolicyConfig, now: int,
                                     before: seq<Event>)
    requires Trusted(d) && SortedByOrder(wf) && OrdersFromOne(wf)
    requires IsRunUnder(d, H, wf, cfg, Triggered(now), before) && IsShelved(After(wf, cfg, Triggered(now), before))
    ensures var s := After(wf, cfg, Triggered(now), before);
            CanComplete(d, H, wf, cfg, s) <==>
            forall at :: 0 <= at < |wf| && !s.db.Succeeded(at) ==> HasFreeAttempt(cfg, s, at)
  {
    TrustedRunCompletes(d, H, wf, cfg, now, before);
    ShelvedCanCompleteIff(d, H, wf, cfg, now, before);
    var db := After(wf, cfg, Triggered(now), before).db;
    assert forall at :: 0 <= at < |wf| ==> (IsBehind(wf, db, at) <==> db.Succeeded(at));
  }

  /**
   In particular no replay, nor any number of them, completes a shelved execution with a step still to
   be done under whose every attempt number there is a row.
   */
  lemma ExhaustedNeverCompletes(wf: Workflow, cfg: RetryPolicyConfig, now: int, before: seq<Event>,
                                evs: seq<Event>, at: nat)
    requires SortedByOrder(wf) && IsRun(wf, cfg, Triggered(now), before) && at < |wf|
    requires var s := After(wf, cfg, Triggered(now), before);
             && IsShelved(s) && !s.db.status.Completed? && s.db.currentStep <= wf[at].order
             && (forall a :: 1 <= a <= AttemptBound(cfg) ==> IsDead(s, RowKey(at, a)))
             && IsRun(wf, cfg, s, evs)
    ensures !After(wf, cfg, After(wf, cfg, Triggered(now), before), evs).db.status.Completed?
  {
    var s := After(wf, cfg, Triggered(now), before);
    ReachableInv(wf, cfg, now, before);
    ExhaustedStepNeverSucceeds(wf, cfg, s, [], at);
    NoFreeAttemptNoCompletion(wf, cfg, s, evs, at);
  }
}
