/** Safety of whole runs: what holds after any sequence of events, however the actors interleave. */
module RunSafety {
  import opened Wrappers
  import opened WorkflowStore
  import opened RetryScheduler
  import opened Protocol
  import opened Invariants

  lemma {:induction false} RunKeepsInv(wf: Workflow, cfg: RetryPolicyConfig, s: State, evs: seq<Event>)
    requires Inv(wf, cfg, s) && IsRun(wf, cfg, s, evs)
    ensures Inv(wf, cfg, After(wf, cfg, s, evs))
    decreases |evs|
  {
    if evs == [] {
    } else {
      EventKeepsInv(wf, cfg, s, evs[0]);
      RunKeepsInv(wf, cfg, Apply(wf, cfg, s, evs[0]), evs[1..]);
    }
  }

  /** Everything reachable from a triggered execution satisfies the invariant. */
  lemma ReachableInv(wf: Workflow, cfg: RetryPolicyConfig, now: int, evs: seq<Event>)
    requires IsRun(wf, cfg, Triggered(now), evs)
    ensures Inv(wf, cfg, After(wf, cfg, Triggered(now), evs))
  {
    RunKeepsInv(wf, cfg, Triggered(now), evs);
  }

  // ----- rows and fencing

  /**
   What a run can do to a row: an ended row is frozen (a timed-out worker's late writes change
   nothing), a claimed row is never unclaimed, and the version never decreases.
   */
  predicate RowEvolves(before: StepRow, after: StepRow) {
    && (before.Ended() ==> after == before)
    && (before.status.StepRunning? ==> after.status.StepRunning? || after.Ended())
    && before.version <= after.version
  }

  lemma {:induction false} RunEvolvesRow(wf: Workflow, cfg: RetryPolicyConfig, s: State, evs: seq<Event>, key: RowKey)
    requires IsRun(wf, cfg, s, evs) && key in s.db.rows
    ensures key in After(wf, cfg, s, evs).db.rows
    ensures RowEvolves(s.db.rows[key], After(wf, cfg, s, evs).db.rows[key])
    decreases |evs|
  {
    if evs == [] {
    } else {
      EventStepsDb(wf, cfg, s, evs[0]);
      RunEvolvesRow(wf, cfg, Apply(wf, cfg, s, evs[0]), evs[1..], key);
    }
  }

  /**
   Between creation and end a row has one owner: two live workers never hold the same row, and its claim
   never fails.
   */
  lemma RowsHaveOneOwner(wf: Workflow, cfg: RetryPolicyConfig, now: int, evs: seq<Event>, v: nat)
    requires IsRun(wf, cfg, Triggered(now), evs)
    requires var s := After(wf, cfg, Triggered(now), evs); v in s.workers && s.workers[v].Holds()
    ensures var s := After(wf, cfg, Triggered(now), evs);
            && (forall w :: w in s.workers && w != v && s.workers[w].Holds() ==>
                  s.workers[w].Key() != s.workers[v].Key())
            && (Enabled(wf, s, Work(v, DoClaimRow)) ==> Apply(wf, cfg, s, Work(v, DoClaimRow)).workers[v].pc == Execute)
  {
    ReachableInv(wf, cfg, now, evs);
    var s := After(wf, cfg, Triggered(now), evs);
    assert WorkerInv(wf, cfg, ViewOf(s, v));
  }

  /** Status fixes version in every reachable row: 1 PENDING, 2 RUNNING, 3 SUCCEEDED or FAILED, 2 or 3 TIMED_OUT. */
  lemma VersionTracksStatus(wf: Workflow, cfg: RetryPolicyConfig, now: int, evs: seq<Event>, key: RowKey)
    requires IsRun(wf, cfg, Triggered(now), evs)
    requires key in After(wf, cfg, Triggered(now), evs).db.rows
    ensures RowShape(After(wf, cfg, Triggered(now), evs).db.rows[key])
  {
    ReachableInv(wf, cfg, now, evs);
  }

  /**
   How an attempt ended is on record for good: whatever happens later, the row its owner has written the end
   of says whether it succeeded, timed out, or failed in another way.
   */
  lemma EndIsOnRecord(wf: Workflow, cfg: RetryPolicyConfig, now: int, evs: seq<Event>, w: nat, more: seq<Event>)
    requires IsRun(wf, cfg, Triggered(now), evs)
    requires var s := After(wf, cfg, Triggered(now), evs);
             && Enabled(wf, s, Work(w, DoFinish)) && s.db.OwnsRunning(s.workers[w].Key(), s.workers[w].host)
             && IsRun(wf, cfg, Apply(wf, cfg, s, Work(w, DoFinish)), more)
    ensures var s := After(wf, cfg, Triggered(now), evs);
            var outcome, key := s.workers[w].pc.outcome, s.workers[w].Key();
            var rows := After(wf, cfg, Apply(wf, cfg, s, Work(w, DoFinish)), more).db.rows;
            && key in rows && rows[key].Ended()
            && (rows[key].status.StepSucceeded? <==> outcome.Succeed?)
            && (rows[key].status.StepTimedOut? <==> outcome.Fail? && match outcome.error
                  case OtherError(timeoutCode) => timeoutCode
                  case HttpStepError(category, _, statusCode, _) => category.Timeout? || statusCode == Some(408))
  {
    var s := After(wf, cfg, Triggered(now), evs);
    RunEvolvesRow(wf, cfg, Apply(wf, cfg, s, Work(w, DoFinish)), more, s.workers[w].Key());
  }

  /**
   When the write of a success fails, a failure is written in its place: the row ends FAILED, or TIMED_OUT if
   the database says so, and the worker throws what the database has thrown.
   */
  lemma LostSuccessIsRecordedAsFailure(wf: Workflow, cfg: RetryPolicyConfig, s: State, w: nat, timeoutCode: bool)
    requires w in s.workers && s.workers[w].pc == Finish(Succeed)
    requires s.db.OwnsRunning(s.workers[w].Key(), s.workers[w].host)
    ensures Enabled(wf, s, Work(w, DoThrow(timeoutCode)))
    ensures var s1 := Apply(wf, cfg, s, Work(w, DoThrow(timeoutCode)));
            && Enabled(wf, s1, Work(w, DoFinish))
            && var s2, key := Apply(wf, cfg, s1, Work(w, DoFinish)), s.workers[w].Key();
            && s2.db.rows[key].status == (if timeoutCode then StepTimedOut else StepFailed)
            && s2.workers[w] == s.workers[w].(pc := Threw(OtherError(timeoutCode)))
  {
  }

  // ----- execution lifecycle

  /**
   Despite stale reads by workers and scans, currentStep and version never go back; once the execution is
   finished neither its status nor currentStep changes, unless by a replay.
   */
  lemma {:induction false} LifecycleIsMonotone(wf: Workflow, cfg: RetryPolicyConfig, s: State, evs: seq<Event>)
    requires IsRun(wf, cfg, s, evs)
    ensures var s' := After(wf, cfg, s, evs);
            && s.db.currentStep <= s'.db.currentStep
            && s.db.version <= s'.db.version
            && (s.db.Finished() && (s'.db.status != s.db.status || s'.db.currentStep != s.db.currentStep) ==>
                  exists i :: 0 <= i < |evs| && evs[i].Replay?)
    decreases |evs|
  {
    if evs == [] {
    } else {
      var mid := Apply(wf, cfg, s, evs[0]);
      EventStepsDb(wf, cfg, s, evs[0]);
      LifecycleIsMonotone(wf, cfg, mid, evs[1..]);
      var s' := After(wf, cfg, s, evs);
      if s.db.Finished() && (s'.db.status != s.db.status || s'.db.currentStep != s.db.currentStep) &&
         !evs[0].Replay?
      {
        OnlyReplayReopens(wf, cfg, s, evs[0]);
        var i :| 0 <= i < |evs[1..]| && evs[1..][i].Replay?;
        assert evs[i + 1].Replay?;
      }
    }
  }

  /**
   Optimistic locking: over a run without a replay, two readings of an execution with the same version have
   the same status and the same currentStep.
   */
  lemma {:induction false} VersionDetectsChange(wf: Workflow, cfg: RetryPolicyConfig, s: State, evs: seq<Event>)
    requires IsRun(wf, cfg, s, evs) && forall i :: 0 <= i < |evs| ==> !evs[i].Replay?
    ensures var s' := After(wf, cfg, s, evs);
            s'.db.version == s.db.version ==>
              s'.db.status == s.db.status && s'.db.currentStep == s.db.currentStep
    decreases |evs|
  {
    if evs == [] {
    } else {
      var mid := Apply(wf, cfg, s, evs[0]);
      EventStepsDb(wf, cfg, s, evs[0]);
      ChangeRaisesVersion(wf, cfg, s, evs[0]);
      LifecycleIsMonotone(wf, cfg, mid, evs[1..]);
      VersionDetectsChange(wf, cfg, mid, evs[1..]);
    }
  }

  lemma ChangeRaisesVersion(wf: Workflow, cfg: RetryPolicyConfig, s: State, ev: Event)
    requires Enabled(wf, s, ev) && !ev.Replay?
    ensures var s' := Apply(wf, cfg, s, ev);
            || (s'.db.status == s.db.status && s'.db.currentStep == s.db.currentStep)
            || s'.db.version == s.db.version + 1
  {
    if ev.Work? {
      ActRaisesVersion(wf, s.now, ViewOf(s, ev.w), ev.act);
    }
  }

  lemma ActRaisesVersion(wf: Workflow, now: int, v: View, act: Action)
    requires CanAct(wf, now, v, act)
    ensures var v' := Act(wf, now, v, act);
            || (v'.db.status == v.db.status && v'.db.currentStep == v.db.currentStep)
            || v'.db.version == v.db.version + 1
  {
  }

  lemma OnlyReplayReopens(wf: Workflow, cfg: RetryPolicyConfig, s: State, ev: Event)
    requires Enabled(wf, s, ev) && s.db.Finished() && !ev.Replay?
    ensures var s' := Apply(wf, cfg, s, ev);
            s'.db.status == s.db.status && s'.db.currentStep == s.db.currentStep
  {
  }

  // ----- bounded side effects

  function RequestsOf(requests: seq<Request>, at: nat): nat {
    if requests == [] then 0
    else RequestsOf(requests[..|requests| - 1], at) + (if requests[|requests| - 1].key.at == at then 1 else 0)
  }

  function RequestKeys(requests: seq<Request>, at: nat): set<RowKey> {
    set i | 0 <= i < |requests| && requests[i].key.at == at :: requests[i].key
  }

  lemma OneMoreRequestKey(init: seq<Request>, last: Request, at: nat)
    requires forall i :: 0 <= i < |init| ==> init[i].key != last.key
    ensures last.key !in RequestKeys(init, at)
    ensures RequestKeys(init + [last], at) == RequestKeys(init, at) + if last.key.at == at then {last.key} else {}
  {
    var requests := init + [last];
    assert requests[|init|] == last && forall i :: 0 <= i < |init| ==> requests[i] == init[i];
  }

  lemma {:induction false} DistinctRequestsCountKeys(requests: seq<Request>, at: nat)
    requires forall i, j :: 0 <= i < j < |requests| ==> requests[i].key != requests[j].key
    ensures RequestsOf(requests, at) == |RequestKeys(requests, at)|
  {
    if requests == [] {
    } else {
      var init, last := requests[..|requests| - 1], requests[|requests| - 1];
      DistinctRequestsCountKeys(init, at);
      OneMoreRequestKey(init, last, at);
      assert requests == init + [last];
    }
  }

  lemma {:induction false} FewAttemptsFewKeys(keys: set<RowKey>, at: nat, bound: nat)
    requires forall key :: key in keys ==> key.at == at && 1 <= key.attempt <= bound
    ensures |keys| <= bound
    decreases bound
  {
    if bound == 0 {
      assert keys == {};
    } else {
      FewAttemptsFewKeys(keys - {RowKey(at, bound)}, at, bound - 1);
    }
  }

  function RowKeys(db: Db, at: nat): set<RowKey> {
    set key | key in db.rows && key.at == at
  }

  /**
   However often jobs are retried, redelivered, recovered or replayed, a step never has more rows,
   nor has its provider seen more requests, than there are attempt numbers; and only HTTP steps send any.
   */
  lemma SideEffectsBounded(wf: Workflow, cfg: RetryPolicyConfig, now: int, evs: seq<Event>, at: nat)
    requires IsRun(wf, cfg, Triggered(now), evs)
    ensures var s := After(wf, cfg, Triggered(now), evs);
            && RequestsOf(s.requests, at) <= |RowKeys(s.db, at)| <= Max(1, cfg.maxNormalRetries)
            && (RequestsOf(s.requests, at) > 0 ==> at < |wf| && wf[at].http)
  {
    ReachableInv(wf, cfg, now, evs);
    var s := After(wf, cfg, Triggered(now), evs);
    FewAttemptsFewKeys(RowKeys(s.db, at), at, AttemptBound(cfg));
    DistinctRequestsCountKeys(s.requests, at);
    if key :| key in RequestKeys(s.requests, at) {
      assert at < |wf| && wf[at].http;
    } else {
      assert RequestKeys(s.requests, at) == {};
    }
    SubsetIsSmaller(RequestKeys(s.requests, at), RowKeys(s.db, at));
  }

  /** Requests are never taken back. */
  lemma {:induction false} RunKeepsRequests(wf: Workflow, cfg: RetryPolicyConfig, s: State, evs: seq<Event>)
    requires IsRun(wf, cfg, s, evs)
    ensures s.requests <= After(wf, cfg, s, evs).requests
    decreases |evs|
  {
    if evs == [] {
    } else {
      if evs[0].Work? {
        ActSteps(wf, s.now, ViewOf(s, evs[0].w), evs[0].act);
      } else {
        OtherSteps(wf, cfg, s, evs[0]);
      }
      RunKeepsRequests(wf, cfg, Apply(wf, cfg, s, evs[0]), evs[1..]);
    }
  }

  /** Retries, scans and replays never put a second job on the queue. */
  lemma AtMostOneLiveJob(wf: Workflow, cfg: RetryPolicyConfig, now: int, evs: seq<Event>)
    requires IsRun(wf, cfg, Triggered(now), evs)
    ensures |After(wf, cfg, Triggered(now), evs).jobs| <= 1
  {
    ReachableInv(wf, cfg, now, evs);
    var jobs := After(wf, cfg, Triggered(now), evs).jobs;
    if j :| j in jobs {
      assert jobs.Keys == {j};
    }
  }
}
