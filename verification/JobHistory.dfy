/** A job from its trigger to its end: what its next jobs and its dead letter carry of the failures it has had. */
module JobHistory {
  import opened Wrappers
  import opened RetryScheduler
  import opened Queue

  /** The last job of a chain, the dead letter it ends in, if any, and the time its retries have waited. */
  datatype End = End(job: Job, letter: Option<DeadLetter>, waitedMs: int)

  /** What the failed handler makes of a job whose runs fail as listed. */
  function Follow(job: Job, failures: seq<FailedRun>): End
    decreases |failures|
  {
    if failures == [] then End(job, None, 0)
    else
      var decision := DecideOn(failures[0], job.attempt, job.deferrals, DEFAULT_POLICY);
      if decision.shouldRetry then
        var next := NextJob(job, decision);
        var end := Follow(next, failures[1..]);
        end.(waitedMs := (if next.state.Delayed? then next.state.ms else 0) + end.waitedMs)
      else End(job, Some(LetterFor(job)), 0)
  }

  /** The failures a job was retried after. */
  function Retried(job: Job, failures: seq<FailedRun>): seq<FailedRun> {
    failures[..RunsUntilSettled(failures, job.attempt, job.deferrals, DEFAULT_POLICY) - 1]
  }

  lemma ChargedCons(failures: seq<FailedRun>, n: nat, c: Charge)
    requires 0 < n <= |failures|
    ensures Charged(failures[..n], c) == One(ChargeOf(failures[0].error) == c) + Charged(failures[1..][..n - 1], c)
  {
    assert failures[..n][1..] == failures[1..][..n - 1];
  }

  lemma {:induction false} ChainKeepsCounts(job: Job, failures: seq<FailedRun>)
    ensures var end, retried := Follow(job, failures), Retried(job, failures);
            && end.job.execution == job.execution && end.job.tenant == job.tenant
            && end.job.attempt == job.attempt + Charged(retried, NormalBudget)
            && end.job.deferrals == job.deferrals + Charged(retried, DeferralBudget)
            && Charged(retried, NormalBudget) + Charged(retried, DeferralBudget) == |retried|
            && end.waitedMs == TotalDelay(failures, job.attempt, job.deferrals, DEFAULT_POLICY)
            && end.letter == if |retried| == |failures| then None else
               Some(DeadLetter(job.execution, job.tenant, end.job.attempt, end.job.deferrals, false))
    decreases |failures|
  {
    if failures == [] {
    } else {
      var decision := DecideOn(failures[0], job.attempt, job.deferrals, DEFAULT_POLICY);
      if decision.shouldRetry {
        var next, n := NextJob(job, decision), |Retried(job, failures)|;
        ChainKeepsCounts(next, failures[1..]);
        ChargedCons(failures, n, NormalBudget);
        ChargedCons(failures, n, DeferralBudget);
      }
    }
  }

  /**
   A dead letter tells its job's history: it is the triggering tenant's, of the triggered execution; its two
   counts add up to the runs there have been, each having counted the failures of its own budget; and there is
   one exactly if the last of these runs has failed. The delays the jobs were enqueued with are those decided.
   */
  lemma LetterTellsHistory(execution: ExecutionId, tenant: TenantId, failures: seq<FailedRun>)
    ensures var end := Follow(FreshJob(execution, tenant), failures);
            var runs := RunsUntilSettled(failures, 1, 0, DEFAULT_POLICY);
            && end.waitedMs == TotalDelay(failures, 1, 0, DEFAULT_POLICY)
            && (end.letter.Some? <==> runs <= |failures|)
            && (end.letter.Some? ==>
                  var DeadLetter(e, t, retryCount, deferralCount, replayed) := end.letter.value;
                  && e == execution && t == tenant && !replayed
                  && retryCount + deferralCount == runs
                  && retryCount == 1 + Charged(failures[..runs - 1], NormalBudget)
                  && deferralCount == Charged(failures[..runs - 1], DeferralBudget))
  {
    ChainKeepsCounts(FreshJob(execution, tenant), failures);
  }
}
