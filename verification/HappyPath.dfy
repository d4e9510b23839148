/** A worker whom nobody disturbs: it can take any step that is due, and so every workflow can complete. */
module HappyPath {
  import opened Wrappers
  import opened WorkflowStore
  import opened RetryScheduler
  import opened Protocol
  import opened Completion

  // ----- one step

  ghost predicate OthersIdle(s: State, w: nat) {
    forall u :: u in s.workers && u != w ==> !s.workers[u].Beats()
  }

  /** Worker w is about to take a step that is due: not done, not active anywhere, its attempt not used up. */
  ghost predicate Ready(wf: Workflow, s: State, w: nat) {
    && w in s.workers && OthersIdle(s, w)
    && var wk := s.workers[w];
    && wk.pc.LookSucceeded? && wk.at < |wf| && wk.seenStep <= wf[wk.at].order
    && s.db.InProgress() && wk.Key() !in s.db.rows
    && (forall key :: key in s.db.rows && key.at == wk.at ==>
          !s.db.rows[key].status.StepRunning? && !s.db.rows[key].status.StepSucceeded?)
  }

  /** currentStep is as it was, or has moved up to an order, and the version counts whether it has. */
  predicate PointerAt(before: Db, after: Db, order: int, moved: bool) {
    && after.currentStep == (if moved then Max(before.currentStep, order) else before.currentStep)
    && after.version == before.version + One(after.currentStep != before.currentStep)
  }

  /** Since s0 only worker w, its row of the step, currentStep and the version have changed. */
  ghost predicate OnlyStepChanged(wf: Workflow, s0: State, s: State, w: nat)
    requires w in s0.workers && s0.workers[w].at < |wf|
  {
    && w in s.workers
    && s == s0.(db := s.db, workers := s0.workers[w := s.workers[w]], requests := s.requests)
    && s.db.status == s0.db.status
    && (forall key :: key != s0.workers[w].Key() ==>
          (key in s.db.rows <==> key in s0.db.rows) && (key in s0.db.rows ==> s.db.rows[key] == s0.db.rows[key]))
  }

  /** What the row of the step looks like while the worker stands at pc. */
  predicate RowFits(db: Db, now: int, wk: Worker) {
    match wk.pc
    case ClaimRow => wk.Key() in db.rows && db.rows[wk.Key()].status.StepPending?
    case Execute | Sent(_) | Finish(_) => db.OwnsRunning(wk.Key(), wk.host) &&
         db.rows[wk.Key()].heartbeatAt == Some(now)
    case _ => wk.Key() !in db.rows
  }

  ghost predicate OnTheWay(wf: Workflow, s0: State, s: State, w: nat, pc: Pc) {
    && Ready(wf, s0, w) && OnlyStepChanged(wf, s0, s, w)
    && s.workers[w] == s0.workers[w].(pc := pc) && RowFits(s.db, s.now, s.workers[w])
    && PointerAt(s0.db, s.db, wf[s0.workers[w].at].order, !(pc.LookSucceeded? || pc.LookActive? || pc.Advance?))
  }

  /** The way through a step, and how far it is to its end. */
  function Distance(pc: Pc): nat {
    match pc
    case LookSucceeded => 7
    case LookActive => 6
    case Advance => 5
    case Create => 4
    case ClaimRow => 3
    case Execute => 2
    case Sent(true) => 1
    case Finish(Succeed) => 0
    case _ => 8
  }

  predicate OnPath(pc: Pc) {
    Distance(pc) < 8
  }

  function NextAct(step: Step, pc: Pc): (Action, Pc)
    requires OnPath(pc) && pc != Finish(Succeed)
  {
    match pc
    case LookSucceeded => (DoLookSucceeded, LookActive)
    case LookActive => (DoLookActive(None), Advance)
    case Advance => (DoAdvance, Create)
    case Create => (DoCreate, ClaimRow)
    case ClaimRow => (DoClaimRow, Execute)
    case Execute => if step.http then (DoSend(true), Sent(true)) else (DoResolve(Succeed), Finish(Succeed))
    case _ => (DoResolve(Succeed), Finish(Succeed))
  }

  /** The two reads find the step due. */
  lemma ReadingGoesWell(wf: Workflow, cfg: RetryPolicyConfig, s0: State, s: State, w: nat, pc: Pc)
    requires OnTheWay(wf, s0, s, w, pc) && (pc.LookSucceeded? || pc.LookActive?)
    ensures var (act, pc') := NextAct(wf[s0.workers[w].at], pc);
            Enabled(wf, s, Work(w, act)) && OnTheWay(wf, s0, Apply(wf, cfg, s, Work(w, act)), w, pc')
  {
    assert forall key :: key in s.db.rows ==> key in s0.db.rows && s.db.rows[key] == s0.db.rows[key];
  }

  lemma DoingGoesWell(wf: Workflow, cfg: RetryPolicyConfig, s0: State, s: State, w: nat, pc: Pc)
    requires OnTheWay(wf, s0, s, w, pc) && (pc.Advance? || pc.Execute? || pc == Sent(true))
    ensures var (act, pc') := NextAct(wf[s0.workers[w].at], pc);
            Enabled(wf, s, Work(w, act)) && OnTheWay(wf, s0, Apply(wf, cfg, s, Work(w, act)), w, pc')
  {
    assert Apply(wf, cfg, s, Work(w, NextAct(wf[s0.workers[w].at], pc).0)).db.rows == s.db.rows;
  }

  lemma WritingGoesWell(wf: Workflow, cfg: RetryPolicyConfig, s0: State, s: State, w: nat, pc: Pc)
    requires OnTheWay(wf, s0, s, w, pc) && (pc.Create? || pc.ClaimRow?)
    ensures var (act, pc') := NextAct(wf[s0.workers[w].at], pc);
            Enabled(wf, s, Work(w, act)) && OnTheWay(wf, s0, Apply(wf, cfg, s, Work(w, act)), w, pc')
  {
  }

  lemma OnTheWayIsTimely(wf: Workflow, s0: State, s: State, w: nat, pc: Pc, H: nat)
    requires OnTheWay(wf, s0, s, w, pc)
    ensures Timely(s, H)
  {
  }

  lemma NextActGoesWell(d: Discipline, H: nat, wf: Workflow, cfg: RetryPolicyConfig, s0: State, s: State, w: nat,
                        pc: Pc)
    requires OnTheWay(wf, s0, s, w, pc) && OnPath(pc) && pc != Finish(Succeed)
    ensures var (act, pc') := NextAct(wf[s0.workers[w].at], pc);
            && Enabled(wf, s, Work(w, act))
            && var s' := Apply(wf, cfg, s, Work(w, act));
            Allowed(d, H, s, Work(w, act), s') && OnTheWay(wf, s0, s', w, pc')
  {
    var (act, pc') := NextAct(wf[s0.workers[w].at], pc);
    if pc.LookSucceeded? || pc.LookActive? {
      ReadingGoesWell(wf, cfg, s0, s, w, pc);
    } else if pc.Create? || pc.ClaimRow? {
      WritingGoesWell(wf, cfg, s0, s, w, pc);
    } else {
      DoingGoesWell(wf, cfg, s0, s, w, pc);
    }
    OnTheWayIsTimely(wf, s0, Apply(wf, cfg, s, Work(w, act)), w, pc', H);
  }

  /** From any point of the step on to a later one. */
  lemma WalkOn(d: Discipline, H: nat, wf: Workflow, cfg: RetryPolicyConfig, s0: State, s: State, w: nat, pc: Pc,
               goal: Pc)
    returns (evs: seq<Event>)
    requires OnTheWay(wf, s0, s, w, pc) && Distance(goal) <= Distance(pc) < 8 &&
             (goal == Execute || goal == Finish(Succeed))
    ensures IsRunUnder(d, H, wf, cfg, s, evs) && OnTheWay(wf, s0, After(wf, cfg, s, evs), w, goal)
    decreases Distance(pc)
  {
    if pc == goal {
      evs := [];
    } else {
      var (act, pc') := NextAct(wf[s0.workers[w].at], pc);
      NextActGoesWell(d, H, wf, cfg, s0, s, w, pc);
      var rest := WalkOn(d, H, wf, cfg, s0, Apply(wf, cfg, s, Work(w, act)), w, pc', goal);
      ConsRunUnder(d, H, wf, cfg, s, Work(w, act), rest);
      evs := [Work(w, act)] + rest;
    }
  }

  /** The step is done, the worker at the next, and currentStep not before the step. */
  ghost predicate Stepped(wf: Workflow, s0: State, s: State, w: nat) {
    && Ready(wf, s0, w) && OnlyStepChanged(wf, s0, s, w)
    && s.workers[w] == s0.workers[w].(at := s0.workers[w].at + 1)
    && s0.workers[w].Key() in s.db.rows && s.db.rows[s0.workers[w].Key()].status.StepSucceeded?
    && PointerAt(s0.db, s.db, wf[s0.workers[w].at].order, true)
  }

  lemma StartIsOnTheWay(wf: Workflow, s0: State, w: nat)
    requires Ready(wf, s0, w)
    ensures OnTheWay(wf, s0, s0, w, LookSucceeded)
  {
    assert s0.workers[w := s0.workers[w]] == s0.workers;
  }

  lemma StepGoesWell(d: Discipline, H: nat, wf: Workflow, cfg: RetryPolicyConfig, s0: State, w: nat)
    returns (evs: seq<Event>)
    requires Ready(wf, s0, w)
    ensures IsRunUnder(d, H, wf, cfg, s0, evs) && Stepped(wf, s0, After(wf, cfg, s0, evs), w)
  {
    StartIsOnTheWay(wf, s0, w);
    evs := WalkOn(d, H, wf, cfg, s0, s0, w, LookSucceeded, Finish(Succeed));
    FinishGoesWell(d, H, wf, cfg, s0, After(wf, cfg, s0, evs), w);
    RunUnderThen(d, H, wf, cfg, s0, evs, Work(w, DoFinish));
    evs := evs + [Work(w, DoFinish)];
  }

  lemma FinishGoesWell(d: Discipline, H: nat, wf: Workflow, cfg: RetryPolicyConfig, s0: State, s: State, w: nat)
    requires OnTheWay(wf, s0, s, w, Finish(Succeed))
    ensures Enabled(wf, s, Work(w, DoFinish))
    ensures var s' := Apply(wf, cfg, s, Work(w, DoFinish));
            Allowed(d, H, s, Work(w, DoFinish), s') && Stepped(wf, s0, s', w)
  {
  }

  // ----- steps that are done already

  /** A step is passed over at the loop head: before currentStep as the worker read it, or done. */
  predicate Passed(wf: Workflow, s: State, w: nat, i: nat)
    requires w in s.workers && i < |wf|
  {
    wf[i].order < s.workers[w].seenStep || s.db.Succeeded(i)
  }

  function MovedTo(s: State, w: nat, at: nat): State
    requires w in s.workers
  {
    s.(workers := s.workers[w := s.workers[w].(at := at)])
  }

  lemma PassOne(d: Discipline, H: nat, wf: Workflow, cfg: RetryPolicyConfig, s: State, w: nat)
    requires w in s.workers && s.workers[w].pc.LookSucceeded? && (d.timely ==> Timely(s, H))
    requires s.workers[w].at < |wf| && Passed(wf, s, w, s.workers[w].at)
    ensures var ev, s' := Work(w, DoLookSucceeded), MovedTo(s, w, s.workers[w].at + 1);
            && Enabled(wf, s, ev) && Apply(wf, cfg, s, ev) == s' && Allowed(d, H, s, ev, s')
            && (d.timely ==> Timely(s', H))
  {
    var s' := MovedTo(s, w, s.workers[w].at + 1);
    assert forall u :: u in s.workers && s'.workers[u].Beats() ==> s'.workers[u] == s.workers[u];
  }

  lemma PassOver(d: Discipline, H: nat, wf: Workflow, cfg: RetryPolicyConfig, s: State, w: nat, at: nat)
    returns (evs: seq<Event>)
    requires w in s.workers && s.workers[w].pc.LookSucceeded? && (d.timely ==> Timely(s, H))
    requires s.workers[w].at <= at <= |wf| && forall i :: s.workers[w].at <= i < at ==> Passed(wf, s, w, i)
    ensures IsRunUnder(d, H, wf, cfg, s, evs) && After(wf, cfg, s, evs) == MovedTo(s, w, at)
    decreases at - s.workers[w].at
  {
    if s.workers[w].at == at {
      evs := [];
      assert MovedTo(s, w, at) == s;
    } else {
      PassOne(d, H, wf, cfg, s, w);
      var s' := MovedTo(s, w, s.workers[w].at + 1);
      assert forall i :: s'.workers[w].at <= i < at ==> Passed(wf, s, w, i) ==> Passed(wf, s', w, i);
      var rest := PassOver(d, H, wf, cfg, s', w, at);
      ConsRunUnder(d, H, wf, cfg, s, Work(w, DoLookSucceeded), rest);
      evs := [Work(w, DoLookSucceeded)] + rest;
    }
  }

  // ----- the first attempt, step after step

  /** Worker w is at the first step of an execution without rows. */
  ghost predicate Starting(s: State, w: nat) {
    && w in s.workers && OthersIdle(s, w)
    && s.workers[w].pc.LookSucceeded? && s.workers[w].at == 0 && s.workers[w].seenStep == 1 && s.workers[w].attempt == 1
    && s.db.rows == map[] && s.db.status.Running? && s.db.currentStep == 1
  }

  /** The highest order among the first n steps, at least the 1 that currentStep starts from. */
  function HighestOrder(wf: Workflow, n: nat): (order: int)
    requires n <= |wf|
    ensures 1 <= order
  {
    if n == 0 then 1 else Max(HighestOrder(wf, n - 1), wf[n - 1].order)
  }

  /** How many of the first n steps are of a higher order than all before them. */
  function Rises(wf: Workflow, n: nat): nat
    requires n <= |wf|
  {
    if n == 0 then 0 else Rises(wf, n - 1) + One(HighestOrder(wf, n - 1) < wf[n - 1].order)
  }

  lemma {:induction false} HighestIsLast(wf: Workflow, n: nat)
    requires SortedByOrder(wf) && 0 < n <= |wf|
    ensures HighestOrder(wf, n) == Max(1, wf[n - 1].order)
  {
    if n > 1 {
      HighestIsLast(wf, n - 1);
    }
  }

  /** It has taken exactly the steps before `at` of order 1 and up, and moved currentStep along with them. */
  ghost predicate Reached(wf: Workflow, s0: State, s: State, w: nat, at: nat) {
    && Starting(s0, w) && w in s.workers && at <= |wf|
    && s == s0.(db := s.db, workers := s0.workers[w := s0.workers[w].(at := at)], requests := s.requests)
    && s.db.status.Running?
    && (forall key :: key in s.db.rows ==>
          key.at < at && key.at < |wf| && 1 <= wf[key.at].order && s.db.rows[key].status.StepSucceeded?)
    && (forall i :: 0 <= i < at && i < |wf| && 1 <= wf[i].order ==> RowKey(i, 1) in s.db.rows)
    && s.db.currentStep == HighestOrder(wf, at) && s.db.version == s0.db.version + Rises(wf, at)
  }

  lemma StartingIsReached(wf: Workflow, s0: State, w: nat)
    requires Starting(s0, w)
    ensures Reached(wf, s0, s0, w, 0)
  {
    assert s0.workers[w := s0.workers[w].(at := 0)] == s0.workers;
  }

  lemma {:induction false} WalkTo(d: Discipline, H: nat, wf: Workflow, cfg: RetryPolicyConfig, s0: State, w: nat,
                                  at: nat)
    returns (evs: seq<Event>)
    requires Starting(s0, w) && at <= |wf|
    ensures IsRunUnder(d, H, wf, cfg, s0, evs) && Reached(wf, s0, After(wf, cfg, s0, evs), w, at)
  {
    if at == 0 {
      evs := [];
      StartingIsReached(wf, s0, w);
    } else {
      evs := WalkTo(d, H, wf, cfg, s0, w, at - 1);
      var s := After(wf, cfg, s0, evs);
      var more := TakeOrPass(d, H, wf, cfg, s0, s, w, at - 1);
      var s' := After(wf, cfg, s, more);
      assert Reached(wf, s0, s', w, at);
      RunUnderJoins(d, H, wf, cfg, s0, evs, more);
      evs := evs + more;
      assert After(wf, cfg, s0, evs) == s';
    }
  }

  lemma TakeOrPass(d: Discipline, H: nat, wf: Workflow, cfg: RetryPolicyConfig, s0: State, s: State, w: nat, at: nat)
    returns (evs: seq<Event>)
    requires Reached(wf, s0, s, w, at) && at < |wf|
    ensures IsRunUnder(d, H, wf, cfg, s, evs) && Reached(wf, s0, After(wf, cfg, s, evs), w, at + 1)
  {
    if 1 <= wf[at].order {
      ReachedIsReady(wf, s0, s, w, at);
      evs := StepGoesWell(d, H, wf, cfg, s, w);
      StepReachesNext(wf, s0, s, After(wf, cfg, s, evs), w, at);
    } else {
      PassOne(d, H, wf, cfg, s, w);
      evs := [Work(w, DoLookSucceeded)] + [];
      ConsRunUnder(d, H, wf, cfg, s, Work(w, DoLookSucceeded), []);
      PassReachesNext(wf, s0, s, w, at);
    }
  }

  lemma ReachedIsReady(wf: Workflow, s0: State, s: State, w: nat, at: nat)
    requires Reached(wf, s0, s, w, at) && at < |wf| && 1 <= wf[at].order
    ensures Ready(wf, s, w)
  {
  }

  lemma StepReachesNext(wf: Workflow, s0: State, s: State, s': State, w: nat, at: nat)
    requires Reached(wf, s0, s, w, at) && at < |wf| && 1 <= wf[at].order && Stepped(wf, s, s', w)
    ensures Reached(wf, s0, s', w, at + 1)
  {
    assert forall key :: key in s'.db.rows ==> key == RowKey(at, 1) || key in s.db.rows;
    assert s'.workers == s0.workers[w := s0.workers[w].(at := at + 1)];
  }

  lemma PassReachesNext(wf: Workflow, s0: State, s: State, w: nat, at: nat)
    requires Reached(wf, s0, s, w, at) && at < |wf| && wf[at].order < 1
    ensures Reached(wf, s0, MovedTo(s, w, at + 1), w, at + 1)
  {
    assert MovedTo(s, w, at + 1).workers == s0.workers[w := s0.workers[w].(at := at + 1)];
  }

  lemma ReachedSucceeded(wf: Workflow, s0: State, s: State, w: nat, at: nat, i: nat)
    requires Reached(wf, s0, s, w, at) && i < at && i < |wf|
    ensures s.db.Succeeded(i) <==> 1 <= wf[i].order
  {
    if 1 <= wf[i].order {
      assert s.db.rows[RowKey(i, 1)].status.StepSucceeded?;
    }
  }

  // ----- the first worker

  /** The triggered execution once worker 0 on host "" has claimed it. */
  function FirstClaim(now: int): State {
    var s := Triggered(now);
    s.(jobs := map[0 := Job(1, 0, Active(0))], workers := map[0 := Worker("", 0, 1, 1, 0, LookSucceeded)],
       db := s.db.(status := Running, version := 2))
  }

  lemma FirstWorkerStarts(d: Discipline, H: nat, wf: Workflow, cfg: RetryPolicyConfig, now: int)
    returns (evs: seq<Event>)
    ensures IsRunUnder(d, H, wf, cfg, Triggered(now), evs)
    ensures After(wf, cfg, Triggered(now), evs) == FirstClaim(now) && Starting(FirstClaim(now), 0)
  {
    var e1, e2 := StartJob(0, "", 0), Work(0, DoClaimExecution);
    var s1 := Apply(wf, cfg, Triggered(now), e1);
    assert s1.workers == map[0 := Worker("", 0, 1, 1, 0, ClaimExecution)] && s1.jobs == map[0 := Job(1, 0, Active(0))];
    assert Apply(wf, cfg, s1, e2).workers == FirstClaim(now).workers;
    ConsRunUnder(d, H, wf, cfg, s1, e2, []);
    ConsRunUnder(d, H, wf, cfg, Triggered(now), e1, [e2] + []);
    evs := [e1] + ([e2] + []);
  }

  lemma FirstWorkerWalksTo(d: Discipline, H: nat, wf: Workflow, cfg: RetryPolicyConfig, now: int, at: nat)
    returns (evs: seq<Event>)
    requires at <= |wf|
    ensures IsRunUnder(d, H, wf, cfg, Triggered(now), evs)
    ensures Reached(wf, FirstClaim(now), After(wf, cfg, Triggered(now), evs), 0, at)
  {
    evs := FirstWorkerStarts(d, H, wf, cfg, now);
    var more := WalkTo(d, H, wf, cfg, FirstClaim(now), 0, at);
    RunUnderJoins(d, H, wf, cfg, Triggered(now), evs, more);
    evs := evs + more;
  }

  lemma SucceededStays(before: Db, after: Db)
    requires after.rows == before.rows
    ensures forall i :: after.Succeeded(i) <==> before.Succeeded(i)
  {
  }

  /** What the execution looks like behind the last step. */
  lemma ReachedTheEnd(wf: Workflow, s0: State, s: State, w: nat)
    requires Reached(wf, s0, s, w, |wf|)
    ensures forall i :: 0 <= i < |wf| ==> (s.db.Succeeded(i) <==> 1 <= wf[i].order)
    ensures SortedByOrder(wf) ==> s.db.currentStep == if wf == [] then 1 else Max(1, wf[|wf| - 1].order)
  {
    if SortedByOrder(wf) && wf != [] {
      HighestIsLast(wf, |wf|);
    }
    forall i | 0 <= i < |wf|
      ensures s.db.Succeeded(i) <==> 1 <= wf[i].order
    {
      ReachedSucceeded(wf, s0, s, w, |wf|, i);
    }
  }

  /**
   Every workflow has a run, under every discipline, that completes with exactly the steps of order 1 and up
   done. currentStep ends at the last order, and the version has counted the claim, its moves and the end.
   */
  lemma EveryWorkflowCanComplete(d: Discipline, H: nat, wf: Workflow, cfg: RetryPolicyConfig, now: int)
    returns (evs: seq<Event>)
    ensures IsRunUnder(d, H, wf, cfg, Triggered(now), evs)
    ensures var db := After(wf, cfg, Triggered(now), evs).db;
            && db.status.Completed? && (forall i :: 0 <= i < |wf| ==> (db.Succeeded(i) <==> 1 <= wf[i].order))
            && db.version == 3 + Rises(wf, |wf|)
            && (SortedByOrder(wf) ==> db.currentStep == if wf == [] then 1 else Max(1, wf[|wf| - 1].order))
  {
    evs := FirstWorkerWalksTo(d, H, wf, cfg, now, |wf|);
    var s := After(wf, cfg, Triggered(now), evs);
    BehindTheLastStep(d, H, wf, cfg, s, 0);
    ReachedTheEnd(wf, FirstClaim(now), s, 0);
    RunUnderThen(d, H, wf, cfg, Triggered(now), evs, Work(0, DoLookSucceeded));
    evs := evs + [Work(0, DoLookSucceeded)];
    RunUnderThen(d, H, wf, cfg, Triggered(now), evs, Work(0, DoComplete));
    evs := evs + [Work(0, DoComplete)];
    SucceededStays(s.db, After(wf, cfg, Triggered(now), evs).db);
  }
}
