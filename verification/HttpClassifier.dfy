/**
 Classifying a failed HTTP step: what its Retry-After header says, whether it may be retried, and
 (with the retry scheduler) which budget pays for the retry and how long it waits.
 */
module HttpClassifier {
  import opened Decimals
  import Protocol
  import opened RetryScheduler
  import opened WorkflowStore
  import opened Wrappers

  // ----- Retry-After

  /** Integers up to here are exact in a JavaScript number. */
  const MAX_SAFE_INTEGER := 9_007_199_254_740_991

  /** What the runtime decides: dates, and numerals too large to be exact. */
  datatype Runtime = Runtime(dateParse: string -> Option<int>, largeNumeral: string -> Option<int>, now: int)

  /** The test for an integer: what parseInt read prints as the very same string. */
  function IntegerBranch(s: string, rt: Runtime): Option<int> {
    match ParseInt(s)
    case None => None
    case Some(n) =>
      if -MAX_SAFE_INTEGER <= n <= MAX_SAFE_INTEGER then (if PrintInt(n) == s then Some(n) else None)
      else rt.largeNumeral(s)
  }

  function CeilSeconds(ms: int): int {
    (ms + 999) / 1000
  }

  function ParseRetryAfter(header: Option<string>, rt: Runtime): Option<nat> {
    if header == None || header == Some("") then None
    else
      var s := Trim(header.value);
      match IntegerBranch(s, rt)
      case Some(n) => if n >= 0 then Some(n) else None
      case None =>
        match rt.dateParse(s)
        case Some(dateMs) => Some(Max(0, CeilSeconds(dateMs - rt.now)))
        case None => None
  }

  /** The integer branch accepts exactly the canonical printings of exact integers, each as itself. */
  lemma IntegerBranchReadsPrintings(s: string, n: int, rt: Runtime)
    requires -MAX_SAFE_INTEGER <= n <= MAX_SAFE_INTEGER
    requires ParseInt(s).Some? ==> -MAX_SAFE_INTEGER <= ParseInt(s).value <= MAX_SAFE_INTEGER
    ensures IntegerBranch(s, rt) == Some(n) <==> s == PrintInt(n)
  {
    ParsePrinted(n);
  }

  /**
   Delay-seconds in RFC 9110 (section 10.2.3) is any run of digits. The integer branch takes those
   without a needless leading zero, and leaves the others to the date parser.
   */
  lemma DelaySecondsNeedsNoLeadingZero(s: string, rt: Runtime)
    requires s != "" && AllDigits(s) && Value(s) <= MAX_SAFE_INTEGER
    ensures IntegerBranch(s, rt) == (if s[0] != '0' || s == "0" then Some(Value(s)) else None)
  {
    assert ParseInt(s) == Some(Value(s)) by {
      DigitsAreTheirOwnPrefix(s);
      assert IsDigit(s[0]);
    }
    assert Print(Value(s)) == s <==> Canonical(s) by {
      PrintIsCanonical(Value(s));
      if Canonical(s) {
        CanonicalIsPrinted(s);
      }
    }
  }

  /** The runtime, not this model, knows what numerals beyond the safe integers print as. */
  predicate IsOversize(s: string) {
    ParseInt(s).Some? && !(-MAX_SAFE_INTEGER <= ParseInt(s).value <= MAX_SAFE_INTEGER)
  }

  /** The text is what the number prints as. */
  predicate IsPrinting(s: string, n: int, rt: Runtime) {
    if IsOversize(s) then rt.largeNumeral(s) == Some(n) else s == PrintInt(n)
  }

  /** The least whole number of seconds, from 0 on, that is no shorter than this time. */
  predicate IsLeastWait(ms: int, seconds: nat) {
    ms <= 1000 * seconds && (seconds > 0 ==> 1000 * (seconds - 1) < ms)
  }

  /**
   What a Retry-After header means: a number of seconds that it prints, or else the wait until the date that the
   runtime reads it as.
   */
  ghost predicate Means(header: Option<string>, seconds: nat, rt: Runtime) {
    && header.Some? && header.value != ""
    && var s := Trim(header.value);
    || IsPrinting(s, seconds, rt)
    || (&& (forall n :: !IsPrinting(s, n, rt))
        && rt.dateParse(s).Some? && IsLeastWait(rt.dateParse(s).value - rt.now, seconds))
  }

  lemma IntegerBranchIsPrinting(s: string, rt: Runtime)
    ensures forall n :: IntegerBranch(s, rt) == Some(n) <==> IsPrinting(s, n, rt)
    ensures IntegerBranch(s, rt).None? ==> forall n :: !IsPrinting(s, n, rt)
  {
    forall n
      ensures IntegerBranch(s, rt) == Some(n) <==> IsPrinting(s, n, rt)
    {
      ParsePrinted(n);
    }
  }

  lemma CeilIsLeastWait(ms: int)
    ensures forall seconds: nat :: IsLeastWait(ms, seconds) <==> seconds == Max(0, CeilSeconds(ms))
  {
  }

  /** A header is read as exactly what it means, and as nothing exactly if it means nothing. */
  lemma RetryAfterIsWhatItMeans(header: Option<string>, rt: Runtime)
    ensures forall seconds: nat :: ParseRetryAfter(header, rt) == Some(seconds) <==> Means(header, seconds, rt)
    ensures ParseRetryAfter(header, rt).None? <==> forall seconds: nat :: !Means(header, seconds, rt)
  {
    if header.Some? && header.value != "" {
      var s := Trim(header.value);
      IntegerBranchIsPrinting(s, rt);
      if IntegerBranch(s, rt).Some? {
        assert IsPrinting(s, IntegerBranch(s, rt).value, rt);
      } else if rt.dateParse(s).Some? {
        CeilIsLeastWait(rt.dateParse(s).value - rt.now);
      }
    }
    match ParseRetryAfter(header, rt)
    case Some(seconds) => assert Means(header, seconds, rt);
    case None =>
  }

  /**
   So a header means nothing exactly if it is missing or empty, or prints a negative number, or is neither a
   number nor a date.
   */
  lemma MeansNothingIff(header: Option<string>, rt: Runtime)
    ensures (forall seconds: nat :: !Means(header, seconds, rt)) <==>
              || header == None || header == Some("")
              || (exists n :: n < 0 && IsPrinting(Trim(header.value), n, rt))
              || ((forall n :: !IsPrinting(Trim(header.value), n, rt)) && rt.dateParse(Trim(header.value)).None?)
  {
    RetryAfterIsWhatItMeans(header, rt);
    if header.Some? && header.value != "" {
      var s := Trim(header.value);
      IntegerBranchIsPrinting(s, rt);
      if IntegerBranch(s, rt).Some? {
        assert IsPrinting(s, IntegerBranch(s, rt).value, rt);
      }
    }
  }

  /** Whatever whitespace surrounds it, a printed number of seconds is read back; a negative one is refused. */
  lemma RetryAfterRoundTrip(before: string, n: int, after: string, rt: Runtime)
    requires forall c :: c in before + after ==> IsSpace(c)
    requires -9_007_199_254_740_991 <= n <= 9_007_199_254_740_991
    ensures ParseRetryAfter(Some(before + PrintInt(n) + after), rt) == if n >= 0 then Some(n) else None
  {
    var s := PrintInt(n);
    PrintIsCanonical(if n < 0 then -n else n);
    assert IsDigit(s[|s| - 1]);
    assert IsDigit(s[0]) || s[0] == '-';
    TrimDropsPadding(before, s, after);
    ParsePrinted(n);
  }

  // ----- classification

  datatype Response = Response(status: int, retryAfter: Option<string>)

  /** What the HTTP client threw: the response if there was one, and its error code and message. */
  datatype Fault = Fault(response: Option<Response>, code: string, message: string)

  function ToUpper(s: string): string {
    seq(|s|, i requires 0 <= i < |s| => if 'a' <= s[i] <= 'z' then s[i] - 'a' + 'A' else s[i])
  }

  function ToLower(s: string): string {
    seq(|s|, i requires 0 <= i < |s| => if 'A' <= s[i] <= 'Z' then s[i] - 'A' + 'a' else s[i])
  }

  predicate Contains(s: string, part: string) {
    exists i :: 0 <= i <= |s| - |part| && s[i..][..|part|] == part
  }

  const TLS_ERROR_CODES := {
    "UNABLE_TO_VERIFY_LEAF_SIGNATURE", "CERT_HAS_EXPIRED", "DEPTH_ZERO_SELF_SIGNED_CERT",
    "SELF_SIGNED_CERT_IN_CHAIN", "ERR_TLS_CERT_ALTNAME_INVALID"
  }

  /** Failures without a usable response: connection, name resolution, certificates, time-outs, the rest. */
  function ClassifyRequestFault(fault: Fault): StepError {
    var code, message := ToUpper(fault.code), ToLower(fault.message);
    if code in {"ECONNREFUSED", "ENOTFOUND", "EAI_AGAIN", "ECONNRESET"} then
      HttpStepError(NetworkFailure, true, None, None)
    else if code in TLS_ERROR_CODES || Contains(message, "certificate") then
      HttpStepError(PermanentFailure, false, None, None)
    else if code in {"ETIMEDOUT", "ESOCKETTIMEDOUT", "ECONNABORTED"}
         || Contains(message, "timeout") || Contains(message, "timed out") then
      HttpStepError(Timeout, true, None, None)
    else
      HttpStepError(TransientFailure, true, None, None)
  }

  function Classify(fault: Fault, rt: Runtime): StepError {
    if fault.response == None then ClassifyRequestFault(fault)
    else
      var Response(status, header) := fault.response.value;
      if status == 429 then HttpStepError(RateLimited, true, Some(status), ParseRetryAfter(header, rt))
      else if status == 408 then HttpStepError(TransientFailure, true, Some(status), None)
      else if 400 <= status < 500 then HttpStepError(PermanentFailure, false, Some(status), None)
      else if status >= 500 then HttpStepError(TransientFailure, true, Some(status), ParseRetryAfter(header, rt))
      else ClassifyRequestFault(fault)
  }

  // ----- error codes and messages, whatever their case

  predicate SameLetter(c: char, d: char) {
    || c == d
    || ('a' <= c <= 'z' && d == c - 'a' + 'A')
    || ('A' <= c <= 'Z' && d == c - 'A' + 'a')
  }

  predicate SameButCase(s: string, t: string) {
    |s| == |t| && forall i :: 0 <= i < |s| ==> SameLetter(s[i], t[i])
  }

  /** The code is one of these. */
  ghost predicate IsOneOf(code: string, codes: set<string>) {
    exists c :: c in codes && SameButCase(code, c)
  }

  /** The words occur somewhere in the message. */
  ghost predicate Mentions(message: string, words: string) {
    exists before, middle, after :: message == before + (middle + after) && SameButCase(middle, words)
  }

  predicate NoneLower(s: string) { forall i :: 0 <= i < |s| ==> !('a' <= s[i] <= 'z') }

  predicate NoneUpper(s: string) { forall i :: 0 <= i < |s| ==> !('A' <= s[i] <= 'Z') }

  lemma UpperIsSameButCase(s: string, t: string)
    requires NoneLower(t)
    ensures ToUpper(s) == t <==> SameButCase(s, t)
  {
    if SameButCase(s, t) {
      assert forall i :: 0 <= i < |t| ==> ToUpper(s)[i] == t[i];
    }
  }

  lemma LowerIsSameButCase(s: string, t: string)
    requires NoneUpper(t)
    ensures ToLower(s) == t <==> SameButCase(s, t)
  {
    if SameButCase(s, t) {
      assert forall i :: 0 <= i < |t| ==> ToLower(s)[i] == t[i];
    }
  }

  lemma CodesIgnoreCase(code: string, codes: set<string>)
    requires forall c :: c in codes ==> NoneLower(c)
    ensures ToUpper(code) in codes <==> IsOneOf(code, codes)
  {
    if ToUpper(code) in codes {
      UpperIsSameButCase(code, ToUpper(code));
    }
    if IsOneOf(code, codes) {
      var c :| c in codes && SameButCase(code, c);
      UpperIsSameButCase(code, c);
    }
  }

  lemma ContainedIsMentioned(message: string, words: string, i: nat)
    requires NoneUpper(words) && i + |words| <= |message| && ToLower(message)[i..][..|words|] == words
    ensures Mentions(message, words)
  {
    var before, middle, after := message[..i], message[i..][..|words|], message[i..][|words|..];
    assert message == before + (middle + after);
    assert ToLower(middle) == ToLower(message)[i..][..|words|];
    LowerIsSameButCase(middle, words);
  }

  lemma MentionedIsContained(before: string, middle: string, after: string, words: string)
    requires NoneUpper(words) && SameButCase(middle, words)
    ensures Contains(ToLower(before + (middle + after)), words)
  {
    LowerIsSameButCase(middle, words);
    assert ToLower(before + (middle + after))[|before|..][..|words|] == ToLower(middle);
  }

  lemma MessagesIgnoreCase(message: string, words: string)
    requires NoneUpper(words)
    ensures Contains(ToLower(message), words) <==> Mentions(message, words)
  {
    var lower := ToLower(message);
    if Contains(lower, words) {
      var i :| 0 <= i <= |lower| - |words| && lower[i..][..|words|] == words;
      ContainedIsMentioned(message, words, i);
    }
    if Mentions(message, words) {
      var before, middle, after :| message == before + (middle + after) && SameButCase(middle, words);
      MentionedIsContained(before, middle, after, words);
    }
  }

  // ----- classification and scheduling together

  /** Which budget a fault draws on. */
  function ChargeOfFault(fault: Fault, rt: Runtime): Charge {
    ChargeOf(Classify(fault, rt))
  }

  /**
   A server's answer alone decides: 429 and 529 defer, other 5xx defer exactly when Retry-After means
   a time (503 is not an exception), 408 counts as a failed attempt whatever it says, and any
   other 4xx is final.
   */
  lemma AnswersAreChargedByStatus(fault: Fault, rt: Runtime)
    requires fault.response.Some? && fault.response.value.status >= 400
    ensures var Response(status, header) := fault.response.value;
            && (ChargeOfFault(fault, rt).DeferralBudget? <==>
                  || status == 429 || status == 529
                  || (status >= 500 && exists seconds: nat :: Means(header, seconds, rt)))
            && (ChargeOfFault(fault, rt).NoRetry? <==> status < 500 && status != 408 && status != 429)
  {
    RetryAfterIsWhatItMeans(fault.response.value.retryAfter, rt);
  }

  /** The client's own time-outs, unless they are connection or certificate trouble. */
  ghost predicate IsTimeoutFault(fault: Fault) {
    && !IsConnectionFault(fault) && !IsTlsFault(fault)
    && (|| IsOneOf(fault.code, {"ETIMEDOUT", "ESOCKETTIMEDOUT", "ECONNABORTED"})
        || Mentions(fault.message, "timeout") || Mentions(fault.message, "timed out"))
  }

  ghost predicate IsTlsFault(fault: Fault) {
    || IsOneOf(fault.code, {
         "UNABLE_TO_VERIFY_LEAF_SIGNATURE", "CERT_HAS_EXPIRED", "DEPTH_ZERO_SELF_SIGNED_CERT",
         "SELF_SIGNED_CERT_IN_CHAIN", "ERR_TLS_CERT_ALTNAME_INVALID"
       })
    || Mentions(fault.message, "certificate")
  }

  ghost predicate IsConnectionFault(fault: Fault) {
    IsOneOf(fault.code, {"ECONNREFUSED", "ENOTFOUND", "EAI_AGAIN", "ECONNRESET"})
  }

  lemma ConnectionIsRecognised(fault: Fault)
    ensures ToUpper(fault.code) in {"ECONNREFUSED", "ENOTFOUND", "EAI_AGAIN", "ECONNRESET"} <==>
            IsConnectionFault(fault)
  {
    CodesIgnoreCase(fault.code, {"ECONNREFUSED", "ENOTFOUND", "EAI_AGAIN", "ECONNRESET"});
  }

  lemma ChainCodesAreUpper()
    ensures NoneLower("UNABLE_TO_VERIFY_LEAF_SIGNATURE") && NoneLower("SELF_SIGNED_CERT_IN_CHAIN")
  {
  }

  lemma CertificateCodesAreUpper()
    ensures NoneLower("CERT_HAS_EXPIRED") && NoneLower("DEPTH_ZERO_SELF_SIGNED_CERT")
    ensures NoneLower("ERR_TLS_CERT_ALTNAME_INVALID")
  {
  }

  lemma TlsCodesAreUpper()
    ensures forall c :: c in TLS_ERROR_CODES ==> NoneLower(c)
  {
    ChainCodesAreUpper();
    CertificateCodesAreUpper();
  }

  lemma TlsIsRecognised(fault: Fault)
    ensures ToUpper(fault.code) in TLS_ERROR_CODES || Contains(ToLower(fault.message), "certificate") <==>
            IsTlsFault(fault)
  {
    TlsCodesAreUpper();
    CodesIgnoreCase(fault.code, TLS_ERROR_CODES);
    MessagesIgnoreCase(fault.message, "certificate");
  }

  lemma TimeoutCodesIgnoreCase(code: string)
    ensures ToUpper(code) in {"ETIMEDOUT", "ESOCKETTIMEDOUT", "ECONNABORTED"} <==>
            IsOneOf(code, {"ETIMEDOUT", "ESOCKETTIMEDOUT", "ECONNABORTED"})
  {
    CodesIgnoreCase(code, {"ETIMEDOUT", "ESOCKETTIMEDOUT", "ECONNABORTED"});
  }

  lemma TimeoutWordsIgnoreCase(message: string)
    ensures Contains(ToLower(message), "timeout") <==> Mentions(message, "timeout")
    ensures Contains(ToLower(message), "timed out") <==> Mentions(message, "timed out")
  {
    MessagesIgnoreCase(message, "timeout");
    MessagesIgnoreCase(message, "timed out");
  }

  lemma TimeoutIsRecognised(fault: Fault)
    requires !IsConnectionFault(fault) && !IsTlsFault(fault)
    ensures (|| ToUpper(fault.code) in {"ETIMEDOUT", "ESOCKETTIMEDOUT", "ECONNABORTED"}
             || Contains(ToLower(fault.message), "timeout") || Contains(ToLower(fault.message), "timed out"))
            <==> IsTimeoutFault(fault)
  {
    TimeoutCodesIgnoreCase(fault.code);
    TimeoutWordsIgnoreCase(fault.message);
  }

  /** Without an answer the kind of trouble decides, told by code or message in any case. */
  lemma RequestFaultsAreToldApart(fault: Fault)
    ensures ClassifyRequestFault(fault) ==
              if IsConnectionFault(fault) then HttpStepError(NetworkFailure, true, None, None)
              else if IsTlsFault(fault) then HttpStepError(PermanentFailure, false, None, None)
              else if IsTimeoutFault(fault) then HttpStepError(Timeout, true, None, None)
              else HttpStepError(TransientFailure, true, None, None)
  {
    ConnectionIsRecognised(fault);
    TlsIsRecognised(fault);
    if !IsConnectionFault(fault) && !IsTlsFault(fault) {
      TimeoutIsRecognised(fault);
    }
  }

  /**
   Without an answer nothing is deferred, and only certificate trouble is final; a failure to connect
   is retried even if its message speaks of certificates.
   */
  lemma SilenceIsRetriedUnlessTls(fault: Fault, rt: Runtime)
    requires fault.response.None? || fault.response.value.status < 400
    ensures ChargeOfFault(fault, rt) == if IsTlsFault(fault) && !IsConnectionFault(fault) then NoRetry else NormalBudget
  {
    RequestFaultsAreToldApart(fault);
  }

  /** The step's row ends TIMED_OUT for a 408, and for the client's own time-outs; in every other case FAILED. */
  lemma TimeoutsAreRecordedAsTimeouts(fault: Fault, rt: Runtime)
    ensures var timedOut :=
              if fault.response.Some? && fault.response.value.status >= 400 then fault.response.value.status == 408
              else IsTimeoutFault(fault);
            Protocol.EndStatus(Protocol.Fail(Classify(fault, rt))) == if timedOut then StepTimedOut else StepFailed
  {
    RequestFaultsAreToldApart(fault);
  }

  /** The category tells where the fault lies, and a status is reported exactly for an answer that is an error. */
  lemma CategoryTellsWhere(fault: Fault, rt: Runtime)
    ensures var error, answered := Classify(fault, rt), fault.response.Some? && fault.response.value.status >= 400;
            && error.HttpStepError?
            && error.statusCode == (if answered then Some(fault.response.value.status) else None)
            && (error.category.RateLimited? <==> answered && fault.response.value.status == 429)
            && (error.category.NetworkFailure? <==> !answered && IsConnectionFault(fault))
            && (error.category.Timeout? <==> !answered && IsTimeoutFault(fault))
            && (error.category.PermanentFailure? <==> IsPermanent(error))
  {
    RequestFaultsAreToldApart(fault);
  }

  /** A step that ends TIMED_OUT has cost an attempt: it is neither final nor deferred. */
  lemma TimedOutStepsCostAnAttempt(fault: Fault, rt: Runtime)
    ensures Protocol.EndStatus(Protocol.Fail(Classify(fault, rt))).StepTimedOut? ==>
              ChargeOfFault(fault, rt).NormalBudget?
  {
    TimeoutsAreRecordedAsTimeouts(fault, rt);
    if fault.response.Some? && fault.response.value.status >= 400 {
      AnswersAreChargedByStatus(fault, rt);
    } else {
      SilenceIsRetriedUnlessTls(fault, rt);
    }
  }

  // ----- whole jobs against one provider

  /** A run that failed with a fault, and what the clock and the random source said then. */
  datatype FaultyRun = FaultyRun(fault: Fault, elapsedMs: int, draw: int)

  function Failures(runs: seq<FaultyRun>, rt: Runtime): (failures: seq<FailedRun>)
    ensures |failures| == |runs|
    ensures forall i :: 0 <= i < |runs| ==>
              failures[i] == FailedRun(Classify(runs[i].fault, rt), runs[i].elapsedMs, runs[i].draw)
  {
    seq(|runs|, i requires 0 <= i < |runs| => FailedRun(Classify(runs[i].fault, rt), runs[i].elapsedMs, runs[i].draw))
  }

  lemma {:induction false} ChargedAlike(failures: seq<FailedRun>, c: Charge, b: Charge)
    requires forall f :: f in failures ==> ChargeOf(f.error) == c
    ensures Charged(failures, b) == if b == c then |failures| else 0
  {
    if failures == [] {
    } else {
      ChargedAlike(failures[1..], c, b);
    }
  }

  /** A job whose faults all draw on one budget is retried exactly as often as that budget allows. */
  lemma AlikeFaultsUseUpTheirBudget(runs: seq<FaultyRun>, c: Charge, rt: Runtime, cfg: RetryPolicyConfig)
    requires forall run :: run in runs ==>
               run.elapsedMs < cfg.maxExecutionLifetimeMs && ChargeOfFault(run.fault, rt) == c
    ensures RunsUntilSettled(Failures(runs, rt), 1, 0, cfg) - 1 == match c
            case NoRetry => 0
            case DeferralBudget => Min(|runs|, DeferralBudgetLeft(0, cfg))
            case NormalBudget => Min(|runs|, NormalBudgetLeft(1, cfg))
  {
    var failures := Failures(runs, rt);
    var retries := RunsUntilSettled(failures, 1, 0, cfg) - 1;
    JobRetriesWhatItCanAfford(failures, 1, 0, cfg);
    forall f | f in failures
      ensures f.elapsedMs < cfg.maxExecutionLifetimeMs && ChargeOf(f.error) == c
    {
      var i :| 0 <= i < |failures| && failures[i] == f;
      assert runs[i] in runs;
    }
    forall n, b | 0 <= n <= |failures|
      ensures Charged(failures[..n], b) == if b == c then n else 0
    {
      ChargedAlike(failures[..n], c, b);
    }
  }

  /** An overloaded provider (429 or 529) is asked again maxRateLimitDeferrals times, and costs no attempt. */
  lemma OverloadCostsNoAttempt(runs: seq<FaultyRun>, rt: Runtime, cfg: RetryPolicyConfig)
    requires forall run :: run in runs ==>
               && run.elapsedMs < cfg.maxExecutionLifetimeMs
               && run.fault.response.Some? && run.fault.response.value.status in {429, 529}
    ensures RunsUntilSettled(Failures(runs, rt), 1, 0, cfg) == 1 + Min(|runs|, Max(0, cfg.maxRateLimitDeferrals))
  {
    forall run | run in runs
      ensures ChargeOfFault(run.fault, rt) == DeferralBudget
    {
      AnswersAreChargedByStatus(run.fault, rt);
    }
    AlikeFaultsUseUpTheirBudget(runs, DeferralBudget, rt, cfg);
  }

  /**
   A provider that answers 5xx without saying when gets maxNormalRetries runs, at least one: every answer costs
   an attempt. (529 draws on the deferrals.)
   */
  lemma PlainServerErrorsCostAttempts(runs: seq<FaultyRun>, rt: Runtime, cfg: RetryPolicyConfig)
    requires forall run :: run in runs ==>
               && run.elapsedMs < cfg.maxExecutionLifetimeMs && run.fault.response.Some?
               && var Response(status, header) := run.fault.response.value;
               status >= 500 && status != 529 && forall seconds: nat :: !Means(header, seconds, rt)
    ensures RunsUntilSettled(Failures(runs, rt), 1, 0, cfg) == Min(|runs| + 1, Max(1, cfg.maxNormalRetries))
  {
    forall run | run in runs
      ensures ChargeOfFault(run.fault, rt) == NormalBudget
    {
      AnswersAreChargedByStatus(run.fault, rt);
    }
    AlikeFaultsUseUpTheirBudget(runs, NormalBudget, rt, cfg);
  }

  /** A missing or an empty header says nothing. */
  lemma NoHeaderMeansNothing(header: Option<string>, seconds: nat, rt: Runtime)
    requires header == None || header == Some("")
    ensures !Means(header, seconds, rt) && ParseRetryAfter(header, rt) == None
  {
  }

  /** A provider that never answers gets maxNormalRetries runs, at least one, unless its certificate is at fault. */
  lemma SilenceCostsAttempts(runs: seq<FaultyRun>, rt: Runtime, cfg: RetryPolicyConfig)
    requires forall run :: run in runs ==>
               && run.elapsedMs < cfg.maxExecutionLifetimeMs && run.fault.response.None?
               && (IsTlsFault(run.fault) ==> IsConnectionFault(run.fault))
    ensures RunsUntilSettled(Failures(runs, rt), 1, 0, cfg) == 1 + Min(|runs|, Max(0, cfg.maxNormalRetries - 1))
  {
    forall run | run in runs
      ensures ChargeOfFault(run.fault, rt) == NormalBudget
    {
      SilenceIsRetriedUnlessTls(run.fault, rt);
    }
    AlikeFaultsUseUpTheirBudget(runs, NormalBudget, rt, cfg);
  }

  /** From header to delay: the printed seconds are waited, up to the floor and the cap, by 429 and every 5xx. */
  lemma PrintedSecondsAreWaited(before: string, seconds: nat, after: string, status: int, code: string, message: string,
                                rt: Runtime, attempt: nat, deferrals: nat, elapsedMs: int, draw: int,
                                cfg: RetryPolicyConfig)
    requires forall c :: c in before + after ==> IsSpace(c)
    requires seconds <= MAX_SAFE_INTEGER && (status == 429 || status >= 500)
    requires elapsedMs < cfg.maxExecutionLifetimeMs && deferrals < cfg.maxRateLimitDeferrals
    ensures var fault := Fault(Some(Response(status, Some(before + Print(seconds) + after))), code, message);
            var d := DecideRetry(Classify(fault, rt), attempt, deferrals, elapsedMs, draw, cfg);
            && d.shouldRetry && d.newRateLimitDeferralsCount == deferrals + 1 && d.newNormalAttemptCount == attempt
            && d.delayMs == Min(cfg.maxDelayMs, Max(cfg.initialDelayMs, 1000 * seconds))
  {
    RetryAfterRoundTrip(before, seconds, after, rt);
  }
}
