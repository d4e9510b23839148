/**
 The engine's code in its own form: loops of guarded writes with an await between any two of them.
 The ghost trace records what every actor has done, and each method keeps it a run of the protocol,
 so what is proved about runs is proved about this code under any interference at its awaits.
 */
module Engine {
  import opened Wrappers
  import opened WorkflowStore
  import opened RetryScheduler
  import opened Protocol
  import opened Invariants
  import opened RunSafety
  import opened Carrier
  import opened Completion
  import opened CurrentStep
  import opened HappyPath
  import opened Trust

  /** How executeStep ended: refused before sending, not delivered, answered, or done without a request. */
  datatype Reply =
    | Refused(refusal: StepError)
    | Undelivered(fault: StepError)
    | Answered(answer: Outcome)

  /** What became of the attempt to claim a step: the row is ours, somebody else's, or the insert failed. */
  datatype Claim = Claimed | Lost | Duplicate {
    function Failure(): Option<StepError> {
      if Duplicate? then Some(OtherError(false)) else None
    }
  }

  datatype RunResult = Aborted | CompletedRun | Thrown(error: StepError)

  class WorkflowEngine {
    const wf: Workflow
    ghost const cfg: RetryPolicyConfig
    ghost const start: int
    var db: Db
    var now: int
    ghost var s: State
    ghost var trace: seq<Event>

    ghost predicate Valid()
      reads this
    {
      && IsRun(wf, cfg, Triggered(start), trace)
      && s == After(wf, cfg, Triggered(start), trace)
      && s.db == db && s.now == now
    }

    constructor (wf: Workflow, ghost cfg: RetryPolicyConfig, now: int)
      ensures Valid() && trace == [] && this.wf == wf
    {
      this.wf, this.cfg, this.start, this.now := wf, cfg, now, now;
      db := Triggered(now).db;
      s, trace := Triggered(now), [];
    }

    /** Anything the other actors, the clock and this worker's heartbeat timer may do while worker w awaits. */
    method Await(ghost w: nat)
      requires Valid() && w in s.workers
      modifies this
      ensures Valid() && old(trace) <= trace
      ensures w in s.workers && s.workers[w] == old(s.workers[w])
    {
    }

    /** Records worker w's action; the caller performs it on the rows. */
    ghost method Record(ev: Event)
      requires Valid() && Enabled(wf, s, ev)
      modifies this`s, this`trace
      ensures IsRun(wf, cfg, Triggered(start), trace) && s == After(wf, cfg, Triggered(start), trace)
      ensures s == Apply(wf, cfg, old(s), ev) && trace == old(trace) + [ev]
    {
      RunThen(wf, cfg, Triggered(start), trace, ev);
      s, trace := Apply(wf, cfg, s, ev), trace + [ev];
    }

    /** The row found active for a step, if any. */
    method FindActive(at: nat) returns (found: Option<RowKey>)
      requires Valid()
      ensures FindsActive(db, now, at, found)
    {
      if key :| key in db.rows && key.at == at && IsActive(db.rows[key], now) {
        return Some(key);
      }
      return None;
    }

    /** Requests stay in the log, whatever else happens. */
    lemma RequestsStay(before: State, evs: seq<Event>, r: Request)
      requires Valid() && evs <= trace
      requires IsRun(wf, cfg, Triggered(start), evs) && before == After(wf, cfg, Triggered(start), evs)
      requires r in before.requests
      ensures r in s.requests
    {
      RunSplits(wf, cfg, Triggered(start), evs, trace);
      RunKeepsRequests(wf, cfg, before, trace[|evs|..]);
    }

    /** The HTTP request, and the wait for what comes of it. */
    method SendRequest(ghost w: nat, at: nat, ghost delivered: bool)
      requires Valid() && w in s.workers && s.workers[w].pc.Execute? && s.workers[w].at == at < |wf| && wf[at].http
      modifies this
      ensures Valid() && old(trace) <= trace
      ensures w in s.workers && s.workers[w] == old(s.workers[w]).(pc := Sent(delivered))
      ensures Request(old(s.workers[w]).Key(), delivered) in s.requests
    {
      ghost var sent := Request(s.workers[w].Key(), delivered);
      Record(Work(w, DoSend(delivered)));
      assert sent == s.requests[|s.requests| - 1];
      ghost var before, evs := s, trace;
      Await(w);
      RequestsStay(before, evs, sent);
    }

    /** A worker about to execute its step has not sent anything for it. */
    lemma NothingSentYet(w: nat)
      requires Valid() && w in s.workers && s.workers[w].pc.Execute?
      ensures !Requested(s.requests, s.workers[w].Key())
    {
      ReachableInv(wf, cfg, start, trace);
      assert WorkerInv(wf, cfg, ViewOf(s, w));
    }

    /**
     The call of executeStep: what was sent, and what came of it. Of this attempt a refused call, like a
     step that is not HTTP, leaves no request in the log, and any other exactly one (no two requests are alike).
     */
    method ExecuteStep(ghost w: nat, at: nat, reply: Reply) returns (outcome: Outcome)
      requires Valid() && w in s.workers && s.workers[w].pc.Execute? && s.workers[w].at == at < |wf|
      requires reply.Answered? || wf[at].http
      modifies this
      ensures Valid() && old(trace) <= trace
      ensures w in s.workers && s.workers[w] == old(s.workers[w]).(pc := Finish(outcome))
      ensures outcome == match reply case Refused(e) => Fail(e) case Undelivered(e) => Fail(e) case Answered(o) => o
      ensures var key := old(s.workers[w]).Key();
              if wf[at].http && !reply.Refused? then Request(key, reply.Answered?) in s.requests
              else !Requested(s.requests, key)
    {
      NothingSentYet(w);
      if wf[at].http && !reply.Refused? {
        SendRequest(w, at, reply.Answered?);
      }
      outcome := match reply case Refused(e) => Fail(e) case Undelivered(e) => Fail(e) case Answered(o) => o;
      Record(Work(w, DoResolve(outcome)));
    }

    /** What has happened so far meets assumptions under which `completed` can be trusted. */
    ghost predicate IsTrustedRun(d: Discipline, H: int)
      reads this
    {
      Trusted(d) && IsRunUnder(d, H, wf, cfg, Triggered(start), trace) && SortedByOrder(wf) && OrdersFromOne(wf)
    }

    ghost predicate IsCrashFreeRun(d: Discipline, H: int)
      reads this
    {
      IsCrashFree(d) && IsRunUnder(d, H, wf, cfg, Triggered(start), trace)
    }

    /**
     executeExecution, run by worker w for a job of this execution. Whatever interferes, it drives the
     worker's program counter from the claim to Returned or Threw, and keeps everything a run keeps.
     */
    method ExecuteExecution(ghost w: nat, host: Host, attempt: nat, seenStep: int, ghost job: nat,
                            replies: nat -> Reply)
      returns (result: RunResult)
      requires Valid() && w in s.workers
      requires s.workers[w] == Worker(host, job, attempt, seenStep, 0, ClaimExecution)
      requires forall at :: 0 <= at < |wf| && !wf[at].http ==> replies(at).Answered?
      modifies this
      ensures Valid() && old(trace) <= trace && w in s.workers
      ensures s.workers[w].pc == if result.Thrown? then Threw(result.error) else Returned
      ensures result.CompletedRun? ==> s.workers[w].at == |wf|
      ensures forall d, H :: IsTrustedRun(d, H) ==>
                PointerIsSafe(wf, db) && (db.status.Completed? ==> AllSucceeded(wf, db))
      ensures forall d, H :: IsCrashFreeRun(d, H) && !result.Thrown? ==>
                db.status.Completed? && db.currentStep == HighestOrder(wf, |wf|)
    {
      result := RunSteps(w, host, attempt, seenStep, job, replies);
      forall d, H | IsTrustedRun(d, H)
        ensures PointerIsSafe(wf, db) && (db.status.Completed? ==> AllSucceeded(wf, db))
      {
        TrustedRunCompletes(d, H, wf, cfg, start, trace);
      }
      forall d, H | IsCrashFreeRun(d, H) && !result.Thrown?
        ensures db.status.Completed? && db.currentStep == HighestOrder(wf, |wf|)
      {
        RowTellsProgress(d, H, wf, cfg, start, trace);
      }
    }

    method RunSteps(ghost w: nat, host: Host, attempt: nat, seenStep: int, ghost job: nat, replies: nat -> Reply)
      returns (result: RunResult)
      requires Valid() && w in s.workers
      requires s.workers[w] == Worker(host, job, attempt, seenStep, 0, ClaimExecution)
      requires forall at :: 0 <= at < |wf| && !wf[at].http ==> replies(at).Answered?
      modifies this
      ensures Valid() && old(trace) <= trace && w in s.workers
      ensures s.workers[w].pc == if result.Thrown? then Threw(result.error) else Returned
      ensures result.CompletedRun? ==> s.workers[w].at == |wf|
    {
      var claimed := !db.Finished();
      Record(Work(w, DoClaimExecution));
      db := db.ClaimExecution(attempt);
      if !claimed {
        return Aborted;
      }
      for at := 0 to |wf|
        invariant Valid() && old(trace) <= trace
        invariant w in s.workers && s.workers[w] == Worker(host, job, attempt, seenStep, at, LookSucceeded)
      {
        Await(w);
        var error := RunStep(w, host, attempt, seenStep, job, at, replies(at));
        if error.Some? {
          return Thrown(error.value);
        }
      }
      Record(Work(w, DoLookSucceeded));
      Await(w);
      Record(Work(w, DoComplete));
      db := db.CompleteExecution();
      return CompletedRun;
    }

    /** One turn of the loop over the steps; None means on to the next step. */
    method RunStep(ghost w: nat, host: Host, attempt: nat, seenStep: int, ghost job: nat, at: nat, reply: Reply)
      returns (error: Option<StepError>)
      requires Valid() && w in s.workers && at < |wf|
      requires s.workers[w] == Worker(host, job, attempt, seenStep, at, LookSucceeded)
      requires reply.Answered? || wf[at].http
      modifies this
      ensures Valid() && old(trace) <= trace && w in s.workers
      ensures s.workers[w] == (if error.None? then Worker(host, job, attempt, seenStep, at + 1, LookSucceeded)
                               else Worker(host, job, attempt, seenStep, at, Threw(error.value)))
    {
      var due := IsDue(w, host, attempt, seenStep, job, at);
      if !due {
        return None;
      }
      Await(w);
      var claim := ClaimStep(w, host, attempt, seenStep, job, at);
      if !claim.Claimed? {
        return claim.Failure();
      }
      Await(w);
      var outcome := ExecuteStep(w, at, reply);
      Await(w);

      Record(Work(w, DoFinish));
      db := db.FinishRow(RowKey(at, attempt), host, EndStatus(outcome));
      match outcome {
        case Succeed => return None;
        case Fail(e) => return Some(e);
      }
    }

    /** The two reads that decide whether a step is to be run: not done yet, not active on another host. */
    method IsDue(ghost w: nat, host: Host, attempt: nat, seenStep: int, ghost job: nat, at: nat) returns (due: bool)
      requires Valid() && w in s.workers && at < |wf|
      requires s.workers[w] == Worker(host, job, attempt, seenStep, at, LookSucceeded)
      modifies this
      ensures Valid() && old(trace) <= trace && w in s.workers
      ensures s.workers[w] == (if due then Worker(host, job, attempt, seenStep, at, Advance)
                               else Worker(host, job, attempt, seenStep, at + 1, LookSucceeded))
    {
      due := !(wf[at].order < seenStep || db.Succeeded(at));
      Record(Work(w, DoLookSucceeded));
      if !due {
        return;
      }
      Await(w);
      var found := FindActive(at);
      Record(Work(w, DoLookActive(found)));
      due := !(found.Some? && db.rows[found.value].host != host);
    }

    /** Moves currentStep, inserts the row of this attempt, and claims it. */
    method ClaimStep(ghost w: nat, host: Host, attempt: nat, seenStep: int, ghost job: nat, at: nat)
      returns (claim: Claim)
      requires Valid() && w in s.workers && at < |wf|
      requires s.workers[w] == Worker(host, job, attempt, seenStep, at, Advance)
      modifies this
      ensures Valid() && old(trace) <= trace && w in s.workers
      ensures s.workers[w] == match claim
                              case Claimed => Worker(host, job, attempt, seenStep, at, Execute)
                              case Lost => Worker(host, job, attempt, seenStep, at + 1, LookSucceeded)
                              case Duplicate => Worker(host, job, attempt, seenStep, at, Threw(OtherError(false)))
    {
      var created := CreateRow(w, host, attempt, seenStep, job, at);
      if !created {
        return Duplicate;
      }
      Await(w);
      var key := RowKey(at, attempt);
      var claimed := key in db.rows && db.rows[key].status.StepPending?;
      Record(Work(w, DoClaimRow));
      db := db.ClaimRow(key, host, now);
      return if claimed then Claimed else Lost;
    }

    method CreateRow(ghost w: nat, host: Host, attempt: nat, seenStep: int, ghost job: nat, at: nat)
      returns (created: bool)
      requires Valid() && w in s.workers && at < |wf|
      requires s.workers[w] == Worker(host, job, attempt, seenStep, at, Advance)
      modifies this
      ensures Valid() && old(trace) <= trace && w in s.workers
      ensures s.workers[w] ==
              Worker(host, job, attempt, seenStep, at, if created then ClaimRow else Threw(OtherError(false)))
    {
      Record(Work(w, DoAdvance));
      db := db.AdvanceCurrentStep(wf[at].order);
      Await(w);
      var key := RowKey(at, attempt);
      created := key !in db.rows;
      Record(Work(w, DoCreate));
      if created {
        db := db.InsertRow(key, host);
      }
    }

    // ----- the recovery scan

    /** Anything anybody may do between two operations of the scan. */
    method AwaitScan()
      requires Valid()
      modifies this
      ensures Valid() && old(trace) <= trace
      ensures old(s.suspects) <= s.suspects && (old(s.demotable) ==> s.demotable) &&
              (old(s.recoverable) ==> s.recoverable)
    {
    }

    /** What the query of the scan has read. */
    ghost method RecordReads(lease: int, batch: set<RowKey>)
      requires Valid()
      requires forall key :: key in batch ==> key in db.rows && IsStale(db.rows[key], now, lease)
      modifies this`s, this`trace
      ensures Valid() && old(trace) <= trace
      ensures s == old(s).(suspects := s.suspects)
      ensures forall key :: key in batch ==> Suspect(key, db.status.Running?) in s.suspects
      ensures old(s.suspects) <= s.suspects
      decreases batch
    {
      if key :| key in batch {
        Record(ScanRead(key, lease));
        RecordReads(lease, batch - {key});
      }
    }

    /** What rows have become since an earlier point of the trace: they have only moved along the row automaton. */
    lemma RowsHaveEvolved(before: State, evs: seq<Event>)
      requires Valid() && evs <= trace
      requires IsRun(wf, cfg, Triggered(start), evs) && before == After(wf, cfg, Triggered(start), evs)
      ensures HaveEvolved(before.db, db)
    {
      RunSplits(wf, cfg, Triggered(start), evs, trace);
      forall key | key in before.db.rows
        ensures key in db.rows && RowEvolves(before.db.rows[key], db.rows[key])
      {
        RunEvolvesRow(wf, cfg, before, trace[|evs|..], key);
      }
    }

    static ghost predicate HaveEvolved(before: Db, after: Db) {
      forall key :: key in before.rows ==> key in after.rows && RowEvolves(before.rows[key], after.rows[key])
    }

    /** The event at position i of the trace is a scan's write to the row, and times it out. */
    ghost predicate TimesOutAt(evs: seq<Event>, i: nat, key: RowKey)
      requires i < |evs|
    {
      && evs[i].ScanMark? && evs[i].suspect.key == key
      && IsRun(wf, cfg, Triggered(start), evs[..i])
      && var db := After(wf, cfg, Triggered(start), evs[..i]).db;
      key in db.rows && db.rows[key].status.StepRunning?
    }

    /**
     The event at position k of the trace is a scan's write to the execution: one that is running then becomes
     retrying, with the next version; any other is left alone.
     */
    ghost predicate DemotesAt(evs: seq<Event>, k: nat)
      requires k < |evs|
    {
      && evs[k].ScanDemote?
      && IsRun(wf, cfg, Triggered(start), evs[..k]) && IsRun(wf, cfg, Triggered(start), evs[..k + 1])
      && var before, after :=
        After(wf, cfg, Triggered(start), evs[..k]).db, After(wf, cfg, Triggered(start), evs[..k + 1]).db;
      after == if before.status.Running? then before.(status := Retrying, version := before.version + 1) else before
    }

    /** Some event behind position `at` is such a write. */
    ghost predicate DemotesAfter(evs: seq<Event>, at: nat) {
      exists k :: at < k < |evs| && DemotesAt(evs, k)
    }

    lemma DemotionStays(evs: seq<Event>, evs': seq<Event>, at: nat)
      requires evs <= evs' && DemotesAfter(evs, at)
      ensures DemotesAfter(evs', at)
    {
      var k :| at < k < |evs| && DemotesAt(evs, k);
      assert evs[..k] == evs'[..k] && evs[..k + 1] == evs'[..k + 1];
      assert DemotesAt(evs', k);
    }

    /** The scan's guarded write to the execution. */
    method Demote()
      requires Valid() && s.demotable
      modifies this
      ensures Valid() && |trace| == |old(trace)| + 1 && old(trace) <= trace && DemotesAt(trace, |old(trace)|)
      ensures s.recoverable && s.suspects == old(s.suspects)
    {
      Record(ScanDemote);
      db := db.DemoteToRetrying();
      assert trace[..|old(trace)|] == old(trace) && trace[..|old(trace)| + 1] == trace;
    }

    /**
     One turn of the scan's loop: the guarded write to one row and, exactly if that has timed the row out and the
     execution was seen running, the one to the execution.
     */
    method MarkOne(key: RowKey, sawRunning: bool) returns (timedOut: bool, ghost at: nat)
      requires Valid() && key in db.rows && !db.rows[key].status.StepPending? && Suspect(key, sawRunning) in s.suspects
      modifies this
      ensures Valid() && old(trace) <= trace && HaveEvolved(old(db), db)
      ensures old(s.suspects) <= s.suspects && (old(s.recoverable) || timedOut ==> s.recoverable)
      ensures |old(trace)| <= at < |trace| && trace[at] == ScanMark(Suspect(key, sawRunning))
      ensures timedOut <==> TimesOutAt(trace, at, key)
      ensures key in db.rows && db.rows[key].Ended() && (timedOut ==> db.rows[key].status.StepTimedOut?)
      ensures if timedOut && sawRunning then at < |trace| - 1 && DemotesAt(trace, |trace| - 1) else at == |trace| - 1
    {
      ghost var s0, evs0 := s, trace;
      AwaitScan();
      RowsHaveEvolved(s0, evs0);
      timedOut, at := db.rows[key].status.StepRunning?, |trace|;
      Record(ScanMark(Suspect(key, sawRunning)));
      db := db.TimeOutRow(key);
      ghost var s1, evs1 := s, trace;
      if timedOut && sawRunning {
        AwaitScan();
        Demote();
      }
      assert evs1[..at] == trace[..at];
      RowsHaveEvolved(s0, evs0);
      RowsHaveEvolved(s1, evs1);
    }

    /** A row the scan has read and not yet written to. */
    ghost predicate StillSuspect(key: RowKey, sawRunning: bool)
      reads this
    {
      key in db.rows && !db.rows[key].status.StepPending? && Suspect(key, sawRunning) in s.suspects
    }

    /**
     A row the scan has written to, at position `at` of the events and not before `from`: it is at its
     end, and TIMED_OUT if it was this write that timed it out; then the execution, if it was seen running,
     has been written to later.
     */
    ghost predicate IsMarked(evs: seq<Event>, db: Db, from: nat, key: RowKey, sawRunning: bool, at: nat,
                             timedOut: bool) {
      && from <= at < |evs| && evs[at] == ScanMark(Suspect(key, sawRunning))
      && (timedOut <==> TimesOutAt(evs, at, key))
      && key in db.rows && db.rows[key].Ended() && (timedOut ==> db.rows[key].status.StepTimedOut?)
      && (timedOut && sawRunning ==> DemotesAfter(evs, at))
    }

    /** The scan has written to each of these rows, and its writes have timed out exactly some of them. */
    ghost predicate Scanned(evs: seq<Event>, db: Db, from: nat, sawRunning: bool, done: set<RowKey>,
                            timedOut: set<RowKey>,
                            marks: map<RowKey, nat>)
    {
      && marks.Keys == done && timedOut <= done
      && forall key :: key in done ==> IsMarked(evs, db, from, key, sawRunning, marks[key], key in timedOut)
    }

    lemma MarksStay(before: Db, evs: seq<Event>, from: nat, sawRunning: bool, done: set<RowKey>, timedOut: set<RowKey>,
                    marks: map<RowKey, nat>)
      requires evs <= trace && HaveEvolved(before, db) && Scanned(evs, before, from, sawRunning, done, timedOut, marks)
      ensures Scanned(trace, db, from, sawRunning, done, timedOut, marks)
    {
      forall key | key in done
        ensures IsMarked(trace, db, from, key, sawRunning, marks[key], key in timedOut)
      {
        assert IsMarked(evs, before, from, key, sawRunning, marks[key], key in timedOut);
        assert evs[..marks[key]] == trace[..marks[key]];
        if key in timedOut && sawRunning {
          DemotionStays(evs, trace, marks[key]);
        }
      }
    }

    /** One more row. */
    method MarkNext(key: RowKey, ghost from: nat, sawRunning: bool, ghost done: set<RowKey>,
                    ghost timedOut: set<RowKey>,
                    ghost marks: map<RowKey, nat>)
      returns (running: bool, ghost timedOut': set<RowKey>, ghost marks': map<RowKey, nat>)
      requires Valid() && StillSuspect(key, sawRunning) && key !in done && from <= |trace|
      requires Scanned(trace, db, from, sawRunning, done, timedOut, marks)
      modifies this
      ensures Valid() && old(trace) <= trace && HaveEvolved(old(db), db)
      ensures old(s.suspects) <= s.suspects && (old(s.recoverable) || running ==> s.recoverable)
      ensures Scanned(trace, db, from, sawRunning, done + {key}, timedOut', marks')
      ensures timedOut' == if running then timedOut + {key} else timedOut
    {
      ghost var before, evs := db, trace;
      ghost var at;
      running, at := MarkOne(key, sawRunning);
      MarksStay(before, evs, from, sawRunning, done, timedOut, marks);
      timedOut' := if running then timedOut + {key} else timedOut;
      marks' := marks[key := at];
    }

    /**
     findAndMarkStaleStepExecutions over the rows its query has returned, under any interference:
     each of them gets one write of the scan, after which it is no longer RUNNING, and the caller is told
     to re-enqueue exactly if one of these writes, and not somebody else's, has timed a row out.
     */
    method MarkStale(lease: int, batch: set<RowKey>)
      returns (recovered: bool, ghost timedOut: set<RowKey>, ghost marks: map<RowKey, nat>)
      requires Valid()
      requires forall key :: key in batch ==> key in db.rows && IsStale(db.rows[key], now, lease)
      modifies this
      ensures Valid() && old(trace) <= trace
      ensures Scanned(trace, db, |old(trace)|, old(db.status.Running?), batch, timedOut, marks)
      ensures recovered <==> timedOut != {}
      ensures recovered ==> s.recoverable
    {
      recovered, timedOut, marks := false, {}, map[];
      var sawRunning := db.status.Running?;
      RecordReads(lease, batch);
      var todo := batch;
      while todo != {}
        invariant todo <= batch
        invariant Valid() && old(trace) <= trace
        invariant forall key :: key in todo ==> StillSuspect(key, sawRunning)
        invariant Scanned(trace, db, |old(trace)|, sawRunning, batch - todo, timedOut, marks)
        invariant recovered <==> timedOut != {}
        invariant recovered ==> s.recoverable
      {
        var key :| key in todo;
        var running;
        running, timedOut, marks := MarkNext(key, |old(trace)|, sawRunning, batch - todo, timedOut, marks);
        assert batch - (todo - {key}) == batch - todo + {key};
        todo := todo - {key};
        recovered := recovered || running;
      }
      assert batch - todo == batch;
    }
  }
}
