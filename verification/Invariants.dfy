/** What every event of every run keeps, with workers, crashes, stalls, scans and replays interleaved at will. */
module Invariants {
  import opened Wrappers
  import opened WorkflowStore
  import opened RetryScheduler
  import opened Protocol

  // ----- the parts of the invariant

  /** The attempt numbers a job can carry: 1 up to this bound. */
  function AttemptBound(cfg: RetryPolicyConfig): nat {
    Max(1, cfg.maxNormalRetries)
  }

  predicate InBudget(attempt: nat, cfg: RetryPolicyConfig) {
    1 <= attempt <= AttemptBound(cfg)
  }

  /** Status fixes version; a claimed row has a heartbeat, an unclaimed one no times at all. */
  predicate RowShape(row: StepRow) {
    match row.status
    case StepPending => row.version == 1 && row.startedAt.None? && row.heartbeatAt.None?
    case StepRunning => row.version == 2 && row.heartbeatAt.Some?
    case StepTimedOut => row.version == 2 || row.version == 3
    case _ => row.version == 3
  }

  ghost predicate RowsInv(wf: Workflow, cfg: RetryPolicyConfig, db: Db) {
    forall key :: key in db.rows ==> key.at < |wf| && InBudget(key.attempt, cfg) && RowShape(db.rows[key])
  }

  ghost predicate JobsInv(cfg: RetryPolicyConfig, s: State) {
    && (forall j :: j in s.jobs ==> InBudget(s.jobs[j].attempt, cfg))
    && (forall j, k :: j in s.jobs && k in s.jobs ==> j == k)
  }

  ghost predicate Requested(requests: seq<Request>, key: RowKey) {
    exists i :: 0 <= i < |requests| && requests[i].key == key
  }

  /** What a worker's program counter says about its position, its row and its request. */
  ghost predicate WorkerInv(wf: Workflow, cfg: RetryPolicyConfig, v: View) {
    && InBudget(v.wk.attempt, cfg)
    && (v.wk.Holds() || v.wk.pc.LookActive? || v.wk.pc.Advance? || v.wk.pc.Create? ==> v.wk.at < |wf|)
    && (v.wk.pc.Complete? ==> v.wk.at >= |wf|)
    && (v.wk.Holds() ==> v.wk.Key() in v.db.rows && v.db.rows[v.wk.Key()].host == v.wk.host)
    && (v.wk.pc.ClaimRow? ==> v.db.rows[v.wk.Key()].status.StepPending?)
    && (v.wk.Beats() ==> !v.db.rows[v.wk.Key()].status.StepPending?)
    && (v.wk.pc.ClaimRow? || v.wk.pc.Execute? ==> !Requested(v.requests, v.wk.Key()))
    && (v.wk.pc == Sent(true) || (v.wk.pc == Finish(Succeed) && wf[v.wk.at].http) ==>
          Request(v.wk.Key(), true) in v.requests)
  }

  ghost predicate WorkersInv(wf: Workflow, cfg: RetryPolicyConfig, s: State) {
    && (forall w :: w in s.workers ==> WorkerInv(wf, cfg, ViewOf(s, w)))
    && (forall u, w :: u in s.workers && w in s.workers && u != w && s.workers[u].Holds() && s.workers[w].Holds() ==>
          s.workers[u].Key() != s.workers[w].Key())
  }

  /** An HTTP step that has succeeded has had a request delivered. */
  ghost predicate SuccessesDelivered(wf: Workflow, db: Db, requests: seq<Request>) {
    forall key :: key in db.rows && key.at < |wf| && db.rows[key].status.StepSucceeded? && wf[key.at].http ==>
      Request(key, true) in requests
  }

  /** Requests are sent only by claimed rows of HTTP steps, at most one by each, and only they make one succeed. */
  ghost predicate RequestsInv(wf: Workflow, db: Db, requests: seq<Request>) {
    && (forall i :: 0 <= i < |requests| ==> requests[i].key in db.rows && !db.rows[requests[i].key].status.StepPending?)
    && (forall i :: 0 <= i < |requests| ==> requests[i].key.at < |wf| && wf[requests[i].key.at].http)
    && (forall i, j :: 0 <= i < j < |requests| ==> requests[i].key != requests[j].key)
    && SuccessesDelivered(wf, db, requests)
  }

  ghost predicate Inv(wf: Workflow, cfg: RetryPolicyConfig, s: State) {
    && RowsInv(wf, cfg, s.db)
    && JobsInv(cfg, s)
    && WorkersInv(wf, cfg, s)
    && RequestsInv(wf, s.db, s.requests)
  }

  // ----- one event's effect on the rows

  /** One step of the row automaton: PENDING to RUNNING to an end state; only heartbeats repeat. */
  predicate RowStep(before: StepRow, after: StepRow) {
    || after == before
    || (before.status.StepPending? && after.status.StepRunning? && after.heartbeatAt.Some? &&
        after.version == before.version + 1)
    || (before.status.StepRunning? && after.heartbeatAt.Some? && after == before.(heartbeatAt := after.heartbeatAt))
    || (before.status.StepRunning? && after.Ended() &&
        after == before.(status := after.status, version := before.version + 1))
    || TimesOut(before, after)
  }

  /** The recovery scan's step, which leaves the version alone. */
  predicate TimesOut(before: StepRow, after: StepRow) {
    before.status.StepRunning? && after == before.(status := StepTimedOut)
  }

  /** What one event can do to the database: rows only step or appear PENDING, counters grow, the version by one. */
  ghost predicate DbStep(before: Db, after: Db) {
    && before.currentStep <= after.currentStep
    && before.version <= after.version <= before.version + 1
    && (forall key :: key in before.rows ==> key in after.rows && RowStep(before.rows[key], after.rows[key]))
    && (forall key :: key in after.rows && key !in before.rows ==>
          after.rows[key].status.StepPending? && RowShape(after.rows[key]))
  }

  lemma ActStepsDb(wf: Workflow, now: int, v: View, act: Action)
    requires CanAct(wf, now, v, act)
    ensures var v' := Act(wf, now, v, act);
            && DbStep(v.db, v'.db)
            && (forall key :: key in v.db.rows && v'.db.rows[key] != v.db.rows[key] ==>
                  v.wk.Holds() && key == v.wk.Key() && !TimesOut(v.db.rows[key], v'.db.rows[key]))
            && (forall key :: key in v'.db.rows && key !in v.db.rows ==> act.DoCreate? && key == v.wk.Key())
  {
  }

  /** A worker's action steps the database, touching no row but its own, and keeps the worker's identity. */
  lemma ActSteps(wf: Workflow, now: int, v: View, act: Action)
    requires CanAct(wf, now, v, act)
    ensures var v' := Act(wf, now, v, act);
            && DbStep(v.db, v'.db)
            && (forall key :: key in v.db.rows && v'.db.rows[key] != v.db.rows[key] ==>
                  v.wk.Holds() && key == v.wk.Key() && !TimesOut(v.db.rows[key], v'.db.rows[key]))
            && (forall key :: key in v'.db.rows && key !in v.db.rows ==> act.DoCreate? && key == v.wk.Key())
            && v'.wk == v.wk.(at := v'.wk.at, pc := v'.wk.pc)
            && (v'.wk.Holds() ==> v'.wk.at == v.wk.at && (v.wk.Holds() || (act.DoCreate? && v.wk.Key() !in v.db.rows)))
            && (v'.requests == v.requests
                || (v.wk.pc.Execute? && act.DoSend? &&
                    v'.requests == v.requests + [Request(v.wk.Key(), act.delivered)]))
  {
    ActStepsDb(wf, now, v, act);
  }

  /** Any other event steps the database too, and at most times a row out. */
  lemma OtherSteps(wf: Workflow, cfg: RetryPolicyConfig, s: State, ev: Event)
    requires Enabled(wf, s, ev) && !ev.Work?
    ensures var s' := Apply(wf, cfg, s, ev);
            && DbStep(s.db, s'.db)
            && s'.requests == s.requests
            && s'.db.rows.Keys == s.db.rows.Keys
            && (forall key :: key in s.db.rows && s'.db.rows[key] != s.db.rows[key] ==>
                  ev.ScanMark? && key == ev.suspect.key && TimesOut(s.db.rows[key], s'.db.rows[key]))
  {
    var s' := Apply(wf, cfg, s, ev);
    if ev.ScanMark? {
      assert s'.db == s.db.TimeOutRow(ev.suspect.key);
    } else {
      assert s'.db.rows == s.db.rows;
    }
  }

  /** It starts or removes workers, and moves none. */
  lemma OthersMoveNobody(wf: Workflow, cfg: RetryPolicyConfig, s: State, ev: Event)
    requires Enabled(wf, s, ev) && !ev.Work?
    ensures var s' := Apply(wf, cfg, s, ev);
            forall u :: u in s'.workers ==>
              if ev.StartJob? && u == ev.w then
                ev.job in s.jobs
                && s'.workers[u] == Worker(ev.host, ev.job, s.jobs[ev.job].attempt, s.db.currentStep, 0, ClaimExecution)
              else u in s.workers && s'.workers[u] == s.workers[u]
  {
  }

  lemma EventStepsDb(wf: Workflow, cfg: RetryPolicyConfig, s: State, ev: Event)
    requires Enabled(wf, s, ev)
    ensures DbStep(s.db, Apply(wf, cfg, s, ev).db)
  {
    if ev.Work? {
      ActSteps(wf, s.now, ViewOf(s, ev.w), ev.act);
    } else {
      OtherSteps(wf, cfg, s, ev);
    }
  }

  // ----- the invariant, part by part

  lemma ActKeepsWorker(wf: Workflow, cfg: RetryPolicyConfig, now: int, v: View, act: Action)
    requires WorkerInv(wf, cfg, v) && RequestsInv(wf, v.db, v.requests) && CanAct(wf, now, v, act)
    ensures WorkerInv(wf, cfg, Act(wf, now, v, act))
  {
  }

  lemma ActKeepsRows(wf: Workflow, cfg: RetryPolicyConfig, now: int, v: View, act: Action)
    requires WorkerInv(wf, cfg, v) && RowsInv(wf, cfg, v.db) && CanAct(wf, now, v, act)
    ensures RowsInv(wf, cfg, Act(wf, now, v, act).db)
  {
  }

  lemma ActKeepsDelivered(wf: Workflow, cfg: RetryPolicyConfig, now: int, v: View, act: Action)
    requires WorkerInv(wf, cfg, v) && SuccessesDelivered(wf, v.db, v.requests) && CanAct(wf, now, v, act)
    ensures var v' := Act(wf, now, v, act); SuccessesDelivered(wf, v'.db, v'.requests)
  {
    ActSteps(wf, now, v, act);
    var v' := Act(wf, now, v, act);
    assert v.requests <= v'.requests;
    forall key | key in v'.db.rows && key.at < |wf| && v'.db.rows[key].status.StepSucceeded? && wf[key.at].http
      ensures Request(key, true) in v'.requests
    {
      if v'.db.rows[key] != v.db.rows[key] {
        assert act.DoFinish? && key == v.wk.Key();
      }
    }
  }

  lemma ActKeepsRequests(wf: Workflow, cfg: RetryPolicyConfig, now: int, v: View, act: Action)
    requires WorkerInv(wf, cfg, v) && RequestsInv(wf, v.db, v.requests) && CanAct(wf, now, v, act)
    ensures var v' := Act(wf, now, v, act); RequestsInv(wf, v'.db, v'.requests)
  {
    ActSteps(wf, now, v, act);
    ActKeepsDelivered(wf, cfg, now, v, act);
  }

  /** A worker is undisturbed by a change that leaves its row alone or times it out, and its requests likewise. */
  lemma BystanderKeepsInv(wf: Workflow, cfg: RetryPolicyConfig, v: View, db': Db, requests': seq<Request>)
    requires WorkerInv(wf, cfg, v)
    requires v.wk.Holds() ==>
               && v.wk.Key() in db'.rows
               && var before, after := v.db.rows[v.wk.Key()], db'.rows[v.wk.Key()];
               after == before || TimesOut(before, after)
    requires requests' == v.requests || exists r ::
               requests' == v.requests + [r] && (v.wk.Holds() ==> r.key != v.wk.Key())
    ensures WorkerInv(wf, cfg, v.(db := db', requests := requests'))
  {
  }

  lemma WorkSparesOthers(wf: Workflow, cfg: RetryPolicyConfig, s: State, w: nat, act: Action, u: nat)
    requires Inv(wf, cfg, s) && Enabled(wf, s, Work(w, act)) && u in s.workers && u != w
    ensures var v' := Act(wf, s.now, ViewOf(s, w), act);
            && WorkerInv(wf, cfg, View(v'.db, s.workers[u], v'.requests))
            && (s.workers[u].Holds() && v'.wk.Holds() ==> s.workers[u].Key() != v'.wk.Key())
  {
    var v' := Act(wf, s.now, ViewOf(s, w), act);
    ActSteps(wf, s.now, ViewOf(s, w), act);
    assert WorkerInv(wf, cfg, ViewOf(s, u));
    BystanderKeepsInv(wf, cfg, ViewOf(s, u), v'.db, v'.requests);
  }

  lemma WorkKeepsWorkers(wf: Workflow, cfg: RetryPolicyConfig, s: State, w: nat, act: Action)
    requires Inv(wf, cfg, s) && Enabled(wf, s, Work(w, act))
    ensures WorkersInv(wf, cfg, Apply(wf, cfg, s, Work(w, act)))
  {
    var s' := Apply(wf, cfg, s, Work(w, act));
    var v' := Act(wf, s.now, ViewOf(s, w), act);
    assert s'.workers == s.workers[w := v'.wk];
    ActKeepsWorker(wf, cfg, s.now, ViewOf(s, w), act);
    forall u | u in s.workers && u != w
      ensures WorkerInv(wf, cfg, ViewOf(s', u))
      ensures s.workers[u].Holds() && v'.wk.Holds() ==> s.workers[u].Key() != v'.wk.Key()
    {
      WorkSparesOthers(wf, cfg, s, w, act, u);
    }
  }

  lemma OthersKeepWorkers(wf: Workflow, cfg: RetryPolicyConfig, s: State, ev: Event)
    requires Inv(wf, cfg, s) && Enabled(wf, s, ev) && !ev.Work?
    ensures WorkersInv(wf, cfg, Apply(wf, cfg, s, ev))
  {
    OtherSteps(wf, cfg, s, ev);
    OthersMoveNobody(wf, cfg, s, ev);
    var s' := Apply(wf, cfg, s, ev);
    forall u | u in s'.workers
      ensures WorkerInv(wf, cfg, ViewOf(s', u))
    {
      if u in s.workers {
        assert WorkerInv(wf, cfg, ViewOf(s, u));
        BystanderKeepsInv(wf, cfg, ViewOf(s, u), s'.db, s'.requests);
      }
    }
  }

  lemma OthersKeepRows(wf: Workflow, cfg: RetryPolicyConfig, s: State, ev: Event)
    requires Inv(wf, cfg, s) && Enabled(wf, s, ev) && !ev.Work?
    ensures var s' := Apply(wf, cfg, s, ev); RowsInv(wf, cfg, s'.db) && RequestsInv(wf, s'.db, s'.requests)
  {
    OtherSteps(wf, cfg, s, ev);
  }

  lemma EventKeepsJobs(wf: Workflow, cfg: RetryPolicyConfig, s: State, ev: Event)
    requires JobsInv(cfg, s) && Enabled(wf, s, ev)
    ensures JobsInv(cfg, Apply(wf, cfg, s, ev))
  {
  }

  lemma EventKeepsInv(wf: Workflow, cfg: RetryPolicyConfig, s: State, ev: Event)
    requires Inv(wf, cfg, s) && Enabled(wf, s, ev)
    ensures Inv(wf, cfg, Apply(wf, cfg, s, ev))
  {
    EventKeepsJobs(wf, cfg, s, ev);
    match ev
    case Work(w, act) =>
      assert WorkerInv(wf, cfg, ViewOf(s, w));
      WorkKeepsWorkers(wf, cfg, s, w, act);
      ActKeepsRows(wf, cfg, s.now, ViewOf(s, w), act);
      ActKeepsRequests(wf, cfg, s.now, ViewOf(s, w), act);
    case _ =>
      OthersKeepWorkers(wf, cfg, s, ev);
      OthersKeepRows(wf, cfg, s, ev);
  }
}
