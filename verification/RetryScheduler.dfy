/**
 The retry scheduler: whether a failed run is tried again, which of the two budgets pays for it,
 and after what delay. Clock readings and random draws are parameters.
 */
module RetryScheduler {
  import opened Wrappers

  datatype Category = PermanentFailure | TransientFailure | RateLimited | NetworkFailure | Timeout

  /** What a run can fail with: a classified HTTP failure, or anything else that was thrown. */
  datatype StepError =
    | HttpStepError(category: Category, isRetryable: bool, statusCode: Option<int>, retryAfterSeconds: Option<nat>)
    | OtherError(timeoutCode: bool)

  datatype RetryPolicyConfig = RetryPolicyConfig(
    maxNormalRetries: int,
    maxRateLimitDeferrals: int,
    maxExecutionLifetimeMs: int,
    initialDelayMs: int,
    maxDelayMs: int,
    jitterMs: int)

  const DEFAULT_POLICY := RetryPolicyConfig(3, 5, 3_600_000, 1000, 60_000, 200)

  datatype Reason =
    | MaxLifetimeExceeded
    | Permanent
    | MaxRateLimitDeferralsExceeded
    | RateLimitedDeferred
    | MaxNormalRetriesExceeded
    | TransientBackoffRetry

  datatype RetryDecision = RetryDecision(
    shouldRetry: bool,
    delayMs: int,
    reason: Reason,
    isRateLimitDeferral: bool,
    newRateLimitDeferralsCount: nat,
    newNormalAttemptCount: nat)

  function Pow2(n: nat): nat {
    if n == 0 then 1 else 2 * Pow2(n - 1)
  }

  /** The values floor(random * jitterMs) can take when random ranges over [0, 1). */
  predicate IsJitterDraw(draw: int, jitterMs: int) {
    if jitterMs > 0 then 0 <= draw < jitterMs else jitterMs <= draw <= 0
  }

  function ExponentialBackoff(attempt: int, draw: int, cfg: RetryPolicyConfig): int {
    Min(cfg.maxDelayMs, cfg.initialDelayMs * Pow2(Max(0, attempt - 1)) + draw)
  }

  predicate IsRateLimitedOrOverloaded(error: StepError) {
    error.HttpStepError? &&
    (error.category.RateLimited? || error.retryAfterSeconds.Some? || error.statusCode == Some(529))
  }

  predicate IsPermanent(error: StepError) {
    error.HttpStepError? && !error.isRetryable
  }

  function DecideRetry(error: StepError, attempt: nat, deferrals: nat, elapsedMs: int, draw: int,
                       cfg: RetryPolicyConfig): RetryDecision
  {
    if elapsedMs >= cfg.maxExecutionLifetimeMs then
      RetryDecision(false, 0, MaxLifetimeExceeded, false, deferrals, attempt)
    else if IsPermanent(error) then
      RetryDecision(false, 0, Permanent, false, deferrals, attempt)
    else if IsRateLimitedOrOverloaded(error) then
      if deferrals >= cfg.maxRateLimitDeferrals then
        RetryDecision(false, 0, MaxRateLimitDeferralsExceeded, true, deferrals, attempt)
      else
        var delay :=
          if error.retryAfterSeconds.Some? then
            Min(cfg.maxDelayMs, Max(cfg.initialDelayMs, error.retryAfterSeconds.value * 1000))
          else
            ExponentialBackoff(attempt, draw, cfg);
        RetryDecision(true, delay, RateLimitedDeferred, true, deferrals + 1, attempt)
    else if attempt >= cfg.maxNormalRetries then
      RetryDecision(false, 0, MaxNormalRetriesExceeded, false, deferrals, attempt)
    else
      RetryDecision(true, ExponentialBackoff(attempt, draw, cfg), TransientBackoffRetry, false, deferrals, attempt + 1)
  }

  // ----- the two budgets

  function NormalBudgetLeft(attempt: nat, cfg: RetryPolicyConfig): nat {
    Max(0, cfg.maxNormalRetries - attempt)
  }

  function DeferralBudgetLeft(deferrals: nat, cfg: RetryPolicyConfig): nat {
    Max(0, cfg.maxRateLimitDeferrals - deferrals)
  }

  /** A retry charges exactly one budget by exactly one unit; a refusal charges neither and delays nothing. */
  lemma EveryRetryChargesExactlyOneBudget(error: StepError, attempt: nat, deferrals: nat, elapsedMs: int, draw: int,
                                          cfg: RetryPolicyConfig)
    ensures var d := DecideRetry(error, attempt, deferrals, elapsedMs, draw, cfg);
            var normal := NormalBudgetLeft(attempt, cfg) - NormalBudgetLeft(d.newNormalAttemptCount, cfg);
            var deferral := DeferralBudgetLeft(deferrals, cfg) - DeferralBudgetLeft(d.newRateLimitDeferralsCount, cfg);
            && 0 <= normal && 0 <= deferral
            && normal + deferral == (if d.shouldRetry then 1 else 0)
            && (d.shouldRetry ==> !IsPermanent(error) && (deferral == 1 <==> IsRateLimitedOrOverloaded(error)))
  {
  }

  /** What the failures of successive runs were, and what the clock and the random source said then. */
  datatype FailedRun = FailedRun(error: StepError, elapsedMs: int, draw: int)

  function DecideOn(f: FailedRun, attempt: nat, deferrals: nat, cfg: RetryPolicyConfig): RetryDecision {
    DecideRetry(f.error, attempt, deferrals, f.elapsedMs, f.draw, cfg)
  }

  /** How many runs one enqueued job leads to when its runs fail as listed and the run after the last one succeeds. */
  function RunsUntilSettled(failures: seq<FailedRun>, attempt: nat, deferrals: nat, cfg: RetryPolicyConfig): (runs: nat)
    ensures 1 <= runs <= |failures| + 1
    decreases |failures|
  {
    if failures == [] then 1
    else
      var d := DecideOn(failures[0], attempt, deferrals, cfg);
      if d.shouldRetry then
        1 + RunsUntilSettled(failures[1..], d.newNormalAttemptCount, d.newRateLimitDeferralsCount, cfg)
      else 1
  }

  lemma {:induction false} RunsBoundedByBudgets(failures: seq<FailedRun>, attempt: nat, deferrals: nat,
                                                cfg: RetryPolicyConfig)
    ensures RunsUntilSettled(failures, attempt, deferrals, cfg)
            <= 1 + NormalBudgetLeft(attempt, cfg) + DeferralBudgetLeft(deferrals, cfg)
    decreases |failures|
  {
    if failures == [] {
    } else {
      var d := DecideOn(failures[0], attempt, deferrals, cfg);
      if d.shouldRetry {
        RunsBoundedByBudgets(failures[1..], d.newNormalAttemptCount, d.newRateLimitDeferralsCount, cfg);
      }
    }
  }

  /** Whatever goes wrong, a fresh job ends in success or the dead-letter queue within a fixed number of runs. */
  lemma FreshJobSettles(failures: seq<FailedRun>, cfg: RetryPolicyConfig)
    ensures RunsUntilSettled(failures, 1, 0, cfg)
            <= Max(1, cfg.maxNormalRetries) + Max(0, cfg.maxRateLimitDeferrals)
    ensures RunsUntilSettled(failures, 1, 0, DEFAULT_POLICY) <= 8
  {
    RunsBoundedByBudgets(failures, 1, 0, cfg);
    RunsBoundedByBudgets(failures, 1, 0, DEFAULT_POLICY);
  }

  // ----- what a job can afford

  datatype Charge = NoRetry | DeferralBudget | NormalBudget

  /** Which budget a failure draws on. */
  function ChargeOf(error: StepError): Charge {
    if IsPermanent(error) then NoRetry else if IsRateLimitedOrOverloaded(error) then DeferralBudget else NormalBudget
  }

  /** How many of the failures draw on a budget. */
  function Charged(failures: seq<FailedRun>, c: Charge): nat {
    if failures == [] then 0 else One(ChargeOf(failures[0].error) == c) + Charged(failures[1..], c)
  }

  /** All of the failures can be retried: none is permanent or late, and together they stay within both budgets. */
  ghost predicate IsAffordable(failures: seq<FailedRun>, attempt: nat, deferrals: nat, cfg: RetryPolicyConfig) {
    && (forall f :: f in failures ==> f.elapsedMs < cfg.maxExecutionLifetimeMs)
    && Charged(failures, NoRetry) == 0
    && Charged(failures, NormalBudget) <= NormalBudgetLeft(attempt, cfg)
    && Charged(failures, DeferralBudget) <= DeferralBudgetLeft(deferrals, cfg)
  }

  lemma AffordableCons(f: FailedRun, rest: seq<FailedRun>, attempt: nat, deferrals: nat, cfg: RetryPolicyConfig)
    ensures var d := DecideOn(f, attempt, deferrals, cfg);
            IsAffordable([f] + rest, attempt, deferrals, cfg) <==>
            d.shouldRetry && IsAffordable(rest, d.newNormalAttemptCount, d.newRateLimitDeferralsCount, cfg)
  {
    assert ([f] + rest)[1..] == rest;
    assert forall g :: g in [f] + rest <==> g == f || g in rest;
  }

  /** A job retries exactly the failures it can afford: the longest affordable beginning of them. */
  lemma {:induction false} JobRetriesWhatItCanAfford(failures: seq<FailedRun>, attempt: nat, deferrals: nat,
                                                     cfg: RetryPolicyConfig)
    ensures var retries := RunsUntilSettled(failures, attempt, deferrals, cfg) - 1;
            && IsAffordable(failures[..retries], attempt, deferrals, cfg)
            && (retries < |failures| ==> !IsAffordable(failures[..retries + 1], attempt, deferrals, cfg))
    decreases |failures|
  {
    var retries := RunsUntilSettled(failures, attempt, deferrals, cfg) - 1;
    if failures == [] {
    } else {
      var f, rest := failures[0], failures[1..];
      var d := DecideOn(f, attempt, deferrals, cfg);
      if d.shouldRetry {
        JobRetriesWhatItCanAfford(rest, d.newNormalAttemptCount, d.newRateLimitDeferralsCount, cfg);
        AffordableCons(f, rest[..retries - 1], attempt, deferrals, cfg);
        assert failures[..retries] == [f] + rest[..retries - 1];
        if retries < |failures| {
          AffordableCons(f, rest[..retries], attempt, deferrals, cfg);
          assert failures[..retries + 1] == [f] + rest[..retries];
        }
      } else {
        AffordableCons(f, [], attempt, deferrals, cfg);
        assert failures[..1] == [f] + [];
      }
    }
  }

  // ----- delays

  /**
   No delay exceeds the cap. A Retry-After value is obeyed up to the floor and the cap; without one the wait
   doubles with every attempt, plus the draw.
   */
  lemma DelaysAreClamped(error: StepError, attempt: nat, deferrals: nat, elapsedMs: int, draw: int,
                         cfg: RetryPolicyConfig)
    requires DecideRetry(error, attempt, deferrals, elapsedMs, draw, cfg).shouldRetry
    ensures var delay := DecideRetry(error, attempt, deferrals, elapsedMs, draw, cfg).delayMs;
            && delay <= cfg.maxDelayMs
            && (error.HttpStepError? && error.retryAfterSeconds.Some? && cfg.initialDelayMs <= cfg.maxDelayMs ==>
                  var asked := 1000 * error.retryAfterSeconds.value;
                  && cfg.initialDelayMs <= delay
                  && (cfg.initialDelayMs <= asked <= cfg.maxDelayMs ==> delay == asked)
                  && (asked < cfg.initialDelayMs ==> delay == cfg.initialDelayMs)
                  && (cfg.maxDelayMs < asked ==> delay == cfg.maxDelayMs))
            && (!(error.HttpStepError? && error.retryAfterSeconds.Some?) ==>
                  delay == Min(cfg.maxDelayMs, cfg.initialDelayMs * Pow2(Max(0, attempt - 1)) + draw))
  {
  }

  /** Why a decision was taken, in terms of the lifetime, of what the failure draws on, and of what is left of that. */
  lemma ReasonTellsWhy(error: StepError, attempt: nat, deferrals: nat, elapsedMs: int, draw: int,
                       cfg: RetryPolicyConfig)
    ensures var d, late := DecideRetry(error, attempt, deferrals, elapsedMs, draw, cfg),
                           elapsedMs >= cfg.maxExecutionLifetimeMs;
            && (d.reason.MaxLifetimeExceeded? <==> late)
            && (d.reason.Permanent? <==> !late && ChargeOf(error).NoRetry?)
            && (d.isRateLimitDeferral <==> !late && ChargeOf(error).DeferralBudget?)
            && (d.reason.MaxRateLimitDeferralsExceeded? <==>
                  d.isRateLimitDeferral && DeferralBudgetLeft(deferrals, cfg) == 0)
            && (d.reason.RateLimitedDeferred? <==> d.isRateLimitDeferral && DeferralBudgetLeft(deferrals, cfg) > 0)
            && (d.reason.MaxNormalRetriesExceeded? <==>
                  !late && ChargeOf(error).NormalBudget? && NormalBudgetLeft(attempt, cfg) == 0)
            && (d.reason.TransientBackoffRetry? <==>
                  !late && ChargeOf(error).NormalBudget? && NormalBudgetLeft(attempt, cfg) > 0)
            && (d.shouldRetry <==> d.reason.RateLimitedDeferred? || d.reason.TransientBackoffRetry?)
            && (!d.shouldRetry ==>
                  d.delayMs == 0 && d.newNormalAttemptCount == attempt && d.newRateLimitDeferralsCount == deferrals)
  {
  }

  lemma Pow2Doubles(m: nat, k: nat, initial: nat)
    requires m < k
    ensures initial * Pow2(m) + initial * Pow2(m) <= initial * Pow2(k)
    decreases k
  {
  }

  /** A later attempt never waits less, however the two jitter draws fall. */
  lemma BackoffIsMonotone(earlier: nat, later: nat, draw: int, draw': int, cfg: RetryPolicyConfig)
    requires 1 <= earlier < later
    requires 0 <= cfg.jitterMs <= cfg.initialDelayMs
    requires IsJitterDraw(draw, cfg.jitterMs) && IsJitterDraw(draw', cfg.jitterMs)
    ensures ExponentialBackoff(earlier, draw, cfg) <= ExponentialBackoff(later, draw', cfg)
  {
    Pow2Doubles(earlier - 1, later - 1, cfg.initialDelayMs);
    Pow2Positive(earlier - 1, cfg.initialDelayMs);
  }

  lemma Pow2Positive(n: nat, initial: nat)
    ensures initial <= initial * Pow2(n)
  {
  }

  /** The summed delays of the first |draws| backoff retries of one job. */
  function TotalBackoff(draws: seq<int>, cfg: RetryPolicyConfig): int {
    if draws == [] then 0
    else TotalBackoff(draws[..|draws| - 1], cfg) + ExponentialBackoff(|draws|, draws[|draws| - 1], cfg)
  }

  lemma OneMoreDelay(initial: int, pow: nat, n: int, jitter: int, cap: int)
    ensures initial * (pow - 1) + initial * pow == initial * (2 * pow - 1)
    ensures (n - 1) * jitter + jitter == n * jitter
    ensures (n - 1) * cap + cap == n * cap
  {
  }

  lemma {:induction false} TotalBackoffBounded(draws: seq<int>, cfg: RetryPolicyConfig)
    requires 0 <= cfg.initialDelayMs && 0 <= cfg.jitterMs
    requires forall i :: 0 <= i < |draws| ==> IsJitterDraw(draws[i], cfg.jitterMs)
    ensures TotalBackoff(draws, cfg) <= cfg.initialDelayMs * (Pow2(|draws|) - 1) + |draws| * cfg.jitterMs
    ensures TotalBackoff(draws, cfg) <= |draws| * cfg.maxDelayMs
  {
    var n := |draws|;
    if n == 0 {
    } else {
      var init, last := draws[..n - 1], draws[n - 1];
      TotalBackoffBounded(init, cfg);
      OneMoreDelay(cfg.initialDelayMs, Pow2(n - 1), n, cfg.jitterMs, cfg.maxDelayMs);
    }
  }

  /** What a job's retries wait in all, over the failures RunsUntilSettled counts. */
  function TotalDelay(failures: seq<FailedRun>, attempt: nat, deferrals: nat, cfg: RetryPolicyConfig): int
    decreases |failures|
  {
    if failures == [] then 0
    else
      var d := DecideOn(failures[0], attempt, deferrals, cfg);
      if d.shouldRetry then
        d.delayMs + TotalDelay(failures[1..], d.newNormalAttemptCount, d.newRateLimitDeferralsCount, cfg)
      else 0
  }

  /** Whatever its failures, a job waits no longer than its budgets times the cap. */
  lemma {:induction false} TotalDelayBounded(failures: seq<FailedRun>, attempt: nat, deferrals: nat,
                                             cfg: RetryPolicyConfig)
    requires 0 <= cfg.maxDelayMs
    ensures TotalDelay(failures, attempt, deferrals, cfg)
            <= (NormalBudgetLeft(attempt, cfg) + DeferralBudgetLeft(deferrals, cfg)) * cfg.maxDelayMs
    decreases |failures|
  {
    if failures == [] {
    } else {
      var d := DecideOn(failures[0], attempt, deferrals, cfg);
      if d.shouldRetry {
        TotalDelayBounded(failures[1..], d.newNormalAttemptCount, d.newRateLimitDeferralsCount, cfg);
        var left := NormalBudgetLeft(attempt, cfg) + DeferralBudgetLeft(deferrals, cfg);
        OneMoreDelay(0, 0, left, 0, cfg.maxDelayMs);
      }
    }
  }

  function Draws(failures: seq<FailedRun>, n: nat): (draws: seq<int>)
    requires n <= |failures|
    ensures |draws| == n && forall i :: 0 <= i < n ==> draws[i] == failures[i].draw
  {
    seq(n, i requires 0 <= i < n => failures[i].draw)
  }

  lemma DrawsContinue(failures: seq<FailedRun>, earlier: seq<int>, n: nat)
    requires n < |failures|
    ensures earlier + [failures[0].draw] + Draws(failures[1..], n) == earlier + Draws(failures, n + 1)
  {
  }

  /** The first of several normal retries: one attempt more, and the backoff of that attempt. */
  lemma OneMoreBackoff(failures: seq<FailedRun>, earlier: seq<int>, deferrals: nat, cfg: RetryPolicyConfig)
    requires failures != [] && !IsRateLimitedOrOverloaded(failures[0].error)
    requires DecideOn(failures[0], |earlier| + 1, deferrals, cfg).shouldRetry
    ensures var next := earlier + [failures[0].draw];
            && TotalBackoff(earlier, cfg) + TotalDelay(failures, |earlier| + 1, deferrals, cfg)
               == TotalBackoff(next, cfg) + TotalDelay(failures[1..], |next| + 1, deferrals, cfg)
            && RunsUntilSettled(failures, |earlier| + 1, deferrals, cfg)
               == 1 + RunsUntilSettled(failures[1..], |next| + 1, deferrals, cfg)
  {
    var next := earlier + [failures[0].draw];
    assert next[..|next| - 1] == earlier;
  }

  /** Retries that defer nothing wait the successive backoffs: the total continues that of the attempts before. */
  lemma {:induction false} NormalRetriesBackOff(failures: seq<FailedRun>, earlier: seq<int>, deferrals: nat,
                                                cfg: RetryPolicyConfig)
    requires forall f :: f in failures ==> !IsRateLimitedOrOverloaded(f.error)
    ensures var retries := RunsUntilSettled(failures, |earlier| + 1, deferrals, cfg) - 1;
            TotalBackoff(earlier, cfg) + TotalDelay(failures, |earlier| + 1, deferrals, cfg)
            == TotalBackoff(earlier + Draws(failures, retries), cfg)
    decreases |failures|
  {
    if RunsUntilSettled(failures, |earlier| + 1, deferrals, cfg) == 1 {
      assert earlier + Draws(failures, 0) == earlier;
    } else {
      var next := earlier + [failures[0].draw];
      NormalRetriesBackOff(failures[1..], next, deferrals, cfg);
      OneMoreBackoff(failures, earlier, deferrals, cfg);
      DrawsContinue(failures, earlier, RunsUntilSettled(failures[1..], |next| + 1, deferrals, cfg) - 1);
    }
  }

  /** The draws of the first n failures, added up. */
  function DrawsOf(failures: seq<FailedRun>, n: nat): int
    requires n <= |failures|
  {
    if n == 0 then 0 else failures[0].draw + DrawsOf(failures[1..], n - 1)
  }

  /** None of n backoffs reaches the cap; the first waits `base` and its draw, and the base doubles each time. */
  predicate IsBelowCap(failures: seq<FailedRun>, n: nat, base: int, cfg: RetryPolicyConfig)
    requires n <= |failures|
  {
    n == 0 || (base + failures[0].draw <= cfg.maxDelayMs && IsBelowCap(failures[1..], n - 1, 2 * base, cfg))
  }

  /** What n such backoffs take without their draws. */
  function Backoffs(base: int, n: nat): int
    decreases n
  {
    if n == 0 then 0 else base + Backoffs(2 * base, n - 1)
  }

  lemma {:induction false} BackoffsAddUp(base: int, n: nat)
    ensures Backoffs(base, n) == base * (Pow2(n) - 1)
    decreases n
  {
    if n == 0 {
    } else {
      BackoffsAddUp(2 * base, n - 1);
      assert base + 2 * base * (Pow2(n - 1) - 1) == base * (2 * Pow2(n - 1) - 1);
    }
  }

  /** The first of the retries waits its backoff. */
  lemma OneMoreWait(failures: seq<FailedRun>, n: nat, attempt: nat, base: int, deferrals: nat, cfg: RetryPolicyConfig)
    requires 1 <= n && failures != [] && !IsRateLimitedOrOverloaded(failures[0].error)
    requires 1 <= attempt && base == cfg.initialDelayMs * Pow2(attempt - 1)
    requires RunsUntilSettled(failures, attempt, deferrals, cfg) == n + 1 && IsBelowCap(failures, n, base, cfg)
    ensures RunsUntilSettled(failures[1..], attempt + 1, deferrals, cfg) == n
    ensures TotalDelay(failures, attempt, deferrals, cfg) ==
              base + failures[0].draw + TotalDelay(failures[1..], attempt + 1, deferrals, cfg)
  {
    DelaysAreClamped(failures[0].error, attempt, deferrals, failures[0].elapsedMs, failures[0].draw, cfg);
  }

  lemma NextBase(initial: int, n: nat)
    ensures 2 * (initial * Pow2(n)) == initial * Pow2(n + 1)
  {
  }

  lemma {:induction false} RetriesWaitBackoffs(failures: seq<FailedRun>, n: nat, attempt: nat, base: int,
                                               deferrals: nat, cfg: RetryPolicyConfig)
    requires forall f :: f in failures ==> !IsRateLimitedOrOverloaded(f.error)
    requires 1 <= attempt && base == cfg.initialDelayMs * Pow2(attempt - 1)
    requires RunsUntilSettled(failures, attempt, deferrals, cfg) == n + 1 && IsBelowCap(failures, n, base, cfg)
    ensures TotalDelay(failures, attempt, deferrals, cfg) == Backoffs(base, n) + DrawsOf(failures, n)
    decreases n
  {
    if n == 0 {
      NoRetryNoWait(failures, attempt, deferrals, cfg);
    } else {
      OneMoreWait(failures, n, attempt, base, deferrals, cfg);
      NextBase(cfg.initialDelayMs, attempt - 1);
      RetriesWaitBackoffs(failures[1..], n - 1, attempt + 1, 2 * base, deferrals, cfg);
    }
  }

  /**
   The exact waiting time of a job whose failures defer nothing, as long as no wait reaches the cap: n retries
   take initialDelayMs * (2^n - 1) and their draws.
   */
  lemma NormalRetriesWaitExactly(failures: seq<FailedRun>, n: nat, deferrals: nat, cfg: RetryPolicyConfig)
    requires forall f :: f in failures ==> !IsRateLimitedOrOverloaded(f.error)
    requires RunsUntilSettled(failures, 1, deferrals, cfg) == n + 1 && IsBelowCap(failures, n, cfg.initialDelayMs, cfg)
    ensures TotalDelay(failures, 1, deferrals, cfg) == cfg.initialDelayMs * (Pow2(n) - 1) + DrawsOf(failures, n)
  {
    RetriesWaitBackoffs(failures, n, 1, cfg.initialDelayMs, deferrals, cfg);
    BackoffsAddUp(cfg.initialDelayMs, n);
  }

  lemma NoRetryNoWait(failures: seq<FailedRun>, attempt: nat, deferrals: nat, cfg: RetryPolicyConfig)
    requires RunsUntilSettled(failures, attempt, deferrals, cfg) == 1
    ensures TotalDelay(failures, attempt, deferrals, cfg) == 0
  {
  }

  // ----- the default policy in numbers

  /** Failures that defer nothing: three runs in all, and between them one and two seconds, each plus up to 199 ms. */
  lemma DefaultNormalRetries(first: FailedRun, second: FailedRun, rest: seq<FailedRun>)
    requires forall f :: f in [first, second] + rest ==>
               && f.elapsedMs < 3_600_000 && ChargeOf(f.error).NormalBudget?
               && IsJitterDraw(f.draw, DEFAULT_POLICY.jitterMs)
    ensures var failures := [first, second] + rest;
            && RunsUntilSettled(failures, 1, 0, DEFAULT_POLICY) == 3
            && TotalDelay(failures, 1, 0, DEFAULT_POLICY) == 3000 + first.draw + second.draw
    ensures forall draw :: IsJitterDraw(draw, DEFAULT_POLICY.jitterMs) <==> 0 <= draw < 200
  {
    var failures := [first, second] + rest;
    assert failures[0] in failures && failures[1] in failures;
    assert failures[1..] == [second] + rest && failures[1..][1..] == rest;
    assert rest != [] ==> rest[0] in failures;
    assert Pow2(0) == 1 && Pow2(1) == 2;
    assert DecideOn(first, 1, 0, DEFAULT_POLICY).delayMs == 1000 + first.draw;
    assert DecideOn(second, 2, 0, DEFAULT_POLICY).delayMs == 2000 + second.draw;
    SettledAtOnce(rest, 3, 0, DEFAULT_POLICY);
  }

  /** A job whose first failure it cannot afford has one more run at most, and waits for nothing. */
  lemma SettledAtOnce(failures: seq<FailedRun>, attempt: nat, deferrals: nat, cfg: RetryPolicyConfig)
    requires failures != [] ==> !DecideOn(failures[0], attempt, deferrals, cfg).shouldRetry
    ensures RunsUntilSettled(failures, attempt, deferrals, cfg) == 1
    ensures TotalDelay(failures, attempt, deferrals, cfg) == 0
  {
  }

  /** Failures that ask for a minute or more, all within the hour: five deferrals of exactly the 60 s cap. */
  lemma {:induction false} DefaultDeferrals(failures: seq<FailedRun>, attempt: nat, deferrals: nat)
    requires deferrals <= 5 <= deferrals + |failures|
    requires forall f :: f in failures ==>
               && f.elapsedMs < 3_600_000 && !IsPermanent(f.error)
               && f.error.HttpStepError? && f.error.retryAfterSeconds.Some? && f.error.retryAfterSeconds.value >= 60
    ensures RunsUntilSettled(failures, attempt, deferrals, DEFAULT_POLICY) == 6 - deferrals
    ensures TotalDelay(failures, attempt, deferrals, DEFAULT_POLICY) == (5 - deferrals) * 60_000
    decreases |failures|
  {
    assert failures != [] ==> failures[0] in failures;
    if deferrals == 5 {
      SettledAtOnce(failures, attempt, deferrals, DEFAULT_POLICY);
    } else {
      DefaultDeferrals(failures[1..], attempt, deferrals + 1);
    }
  }

  /** After an hour nothing is tried again. */
  lemma DefaultLifetime(failures: seq<FailedRun>, attempt: nat, deferrals: nat)
    requires failures != [] && failures[0].elapsedMs >= 3_600_000
    ensures RunsUntilSettled(failures, attempt, deferrals, DEFAULT_POLICY) == 1
  {
    SettledAtOnce(failures, attempt, deferrals, DEFAULT_POLICY);
  }
}
