/**
 Runs that mix limited and unlimited failures: exactly how long the longest of them takes, for every
 configuration in which a limited class gets at most one retry.
 */
module RetryMixed {
  import opened Wrappers
  import opened Durations
  import opened ProviderErrors
  import opened RetryAfterHeader
  import opened Backoff
  import opened RetryLoop
  import opened RetryBounds
  import opened RetryWitnesses

  /** Failures that are retried on the general count cost at most `quick` each. */
  ghost predicate UnlimitedWithin(cfg: RetryConfig, env: Env, n: nat, quick: nat) {
    forall k: nat | k < n && env.calls(k).outcome.Failure? && IsRetryable(env.calls(k).outcome.error)
                    && !Limited(cfg, env.calls(k).outcome.error) ::
      env.calls(k).duration <= quick
  }

  const RETRYABLE_CLASSES: seq<RetryClass> :=
    [TimeoutClass, NetworkClass, HttpClass, ExternalClass, ResponseContractClass]

  /** A retryable failure of each class that has one, without a header. */
  function Sample(c: RetryClass): ProviderError {
    match c
    case NetworkClass => Network("")
    case HttpClass => UNAVAILABLE
    case ExternalClass => External("", ExternalTimeout)
    case ResponseContractClass => ResponseContract(Unreadable, "")
    case _ => Timeout("")
  }

  lemma SampleMeaning(cfg: RetryConfig, c: RetryClass)
    requires c in RETRYABLE_CLASSES
    ensures IsRetryable(Sample(c)) && Classify(Sample(c)) == c && HeaderDecision(cfg, Sample(c)).Absent?
  {
    assert 503 == TRANSIENT_STATUSES[4];
  }

  lemma RetryableClass(e: ProviderError)
    requires IsRetryable(e)
    ensures Classify(e) in RETRYABLE_CLASSES
  {
    assert RETRYABLE_CLASSES[0] == TimeoutClass && RETRYABLE_CLASSES[1] == NetworkClass;
    assert RETRYABLE_CLASSES[2] == HttpClass && RETRYABLE_CLASSES[3] == ExternalClass;
    assert RETRYABLE_CLASSES[4] == ResponseContractClass;
  }

  /** Some failure of a limited class is retried at all. */
  predicate RetriesLimited(cfg: RetryConfig) {
    && cfg.limitedMaxRetries > 0 && cfg.maxRetries > 0
    && exists c | c in RETRYABLE_CLASSES :: c in cfg.limitedRetryClasses
  }

  // ---- the longest run ----

  /** The longest sleep after a first failure of a limited class; only `Http` can bring a header. */
  function FirstSleep(cfg: RetryConfig, slack: nat): (sleep: Duration)
    ensures sleep <= LongestSleep(cfg)
  {
    if HttpClass in cfg.limitedRetryClasses then Max(LongestHonoured(cfg), FirstPause(cfg, slack))
    else FirstPause(cfg, slack)
  }

  /** The longest sleep after an unlimited failure. */
  function UnlimitedSleep(cfg: RetryConfig): Duration {
    if HttpClass in cfg.limitedRetryClasses then cfg.cap else LongestSleep(cfg)
  }

  /** The longest an unlimited failure takes, its sleep included. */
  function LaterStep(cfg: RetryConfig, ct: nat, quick: nat): nat { Min(quick, ct) + UnlimitedSleep(cfg) }

  /** The longest the first failure takes, its sleep included. */
  function FirstStep(cfg: RetryConfig, ct: nat, quick: nat, slack: nat): nat {
    if RetriesLimited(cfg) then Max(LaterStep(cfg, ct, quick), ct + FirstSleep(cfg, slack))
    else LaterStep(cfg, ct, quick)
  }

  /** How long `m` retried failures can take. */
  function Reach(cfg: RetryConfig, ct: nat, quick: nat, slack: nat, m: nat): nat {
    if m == 0 then 0 else FirstStep(cfg, ct, quick, slack) + (m - 1) * LaterStep(cfg, ct, quick)
  }

  /** How late a call can start after `m` retried failures. */
  function LatestStart(cfg: RetryConfig, ct: nat, quick: nat, slack: nat, m: nat): nat {
    Min(Max(cfg.operationBudget - 1, 0), Reach(cfg, ct, quick, slack, m))
  }

  /** The last call is not retried, or it is the last unlimited one that is, or the first one hangs. */
  function LongestMixedRun(cfg: RetryConfig, ct: nat, quick: nat, slack: nat): nat {
    var unretried := LatestStart(cfg, ct, quick, slack, cfg.maxRetries) + ct;
    if cfg.maxRetries == 0 then unretried
    else
      var retried := LatestStart(cfg, ct, quick, slack, cfg.maxRetries - 1) + LaterStep(cfg, ct, quick);
      Max(Max(unretried, retried), if RetriesLimited(cfg) then ct + FirstSleep(cfg, slack) else 0)
  }

  // ---- no run takes longer ----

  lemma UnlimitedWait(cfg: RetryConfig, env: Env, k: nat)
    requires env.calls(k).outcome.Failure? && !Limited(cfg, env.calls(k).outcome.error)
    ensures WaitAfter(cfg, env, k) <= UnlimitedSleep(cfg)
  {
    hide LongestSleep, WaitAfter;
    if HttpClass in cfg.limitedRetryClasses {
      FormulaSleep(cfg, env, k);
    } else {
      WaitWithinCaps(cfg, env, k);
    }
  }

  lemma LimitedFirstWait(cfg: RetryConfig, env: Env, slack: nat)
    requires env.calls(0).outcome.Failure? && Limited(cfg, env.calls(0).outcome.error)
    requires RoundsWithin(env.scale, Min(cfg.baseDelay, cfg.cap), slack)
    ensures WaitAfter(cfg, env, 0) <= FirstSleep(cfg, slack)
  {
    hide LongestHonoured, FirstPause, RoundsWithin, WaitAfter, Decide;
    if HeaderDecision(cfg, env.calls(0).outcome.error).Honor? {
      HonouredSleep(cfg, env, 0);
    } else {
      FirstWait(cfg, env, slack);
    }
  }

  /** What a retried failure costs: limited ones are retried after the first call alone. */
  lemma RetriedStep(cfg: RetryConfig, env: Env, n: nat, k: nat, ct: nat, quick: nat, slack: nat)
    requires CallsWithin(env, n, ct) && UnlimitedWithin(cfg, env, n, quick) && k < n
    requires cfg.limitedMaxRetries <= 1 && RoundsWithin(env.scale, Min(cfg.baseDelay, cfg.cap), slack)
    requires WorthRetrying(cfg, env, k)
    ensures || StartOf(cfg, env, k + 1) - StartOf(cfg, env, k) <= LaterStep(cfg, ct, quick)
            || (&& k == 0 && RetriesLimited(cfg)
                && StartOf(cfg, env, k + 1) - StartOf(cfg, env, k) <= ct + FirstSleep(cfg, slack))
  {
    hide UnlimitedSleep, FirstSleep, HeaderDecision, RoundsWithin, StartOf, WaitAfter;
    NextStart(cfg, env, k);
    var e := env.calls(k).outcome.error;
    if Limited(cfg, e) {
      RetryableClass(e);
      LimitedFirstWait(cfg, env, slack);
    } else {
      UnlimitedWait(cfg, env, k);
    }
  }

  lemma {:induction false} StartsWithinReach(cfg: RetryConfig, env: Env, n: nat, k: nat, ct: nat, quick: nat, slack: nat)
    requires CallsWithin(env, n, ct) && UnlimitedWithin(cfg, env, n, quick) && k <= n && Made(cfg, env, k)
    requires cfg.limitedMaxRetries <= 1 && RoundsWithin(env.scale, Min(cfg.baseDelay, cfg.cap), slack)
    ensures StartOf(cfg, env, k) <= env.started + Reach(cfg, ct, quick, slack, k)
  {
    hide LaterStep, FirstSleep, RetriesLimited, RoundsWithin, WorthRetrying, UnlimitedWithin, CallsWithin, StartOf;
    if k == 0 {
      StartsFirst(cfg, env);
    } else {
      StartsWithinReach(cfg, env, n, k - 1, ct, quick, slack);
      assert Continues(cfg, env, k - 1);
      RetriedStep(cfg, env, n, k - 1, ct, quick, slack);
      if k > 1 {
        TimesSuccessor(k - 2, LaterStep(cfg, ct, quick));
      }
    }
  }

  lemma ReachMonotone(cfg: RetryConfig, ct: nat, quick: nat, slack: nat, i: nat, m: nat)
    requires i <= m
    ensures Reach(cfg, ct, quick, slack, i) <= Reach(cfg, ct, quick, slack, m)
  {
    hide FirstStep, LaterStep;
    if i > 0 {
      TimesMonotone(i - 1, m - 1, LaterStep(cfg, ct, quick));
    }
  }

  /**
   No mixed run takes longer, whatever rounding does within `slack`; a `slack` of `MAX_DURATION` assumes
   nothing. In particular it overstays the last instant of its budget by at most one call or one
   unlimited failure with its sleep, unless it is a first hang with its pause.
   */
  lemma MixedChainBound(cfg: RetryConfig, env: Env, n: nat, ct: nat, quick: nat, slack: nat)
    requires IsRun(cfg, env, n) && CallsWithin(env, n, ct) && UnlimitedWithin(cfg, env, n, quick)
    requires cfg.limitedMaxRetries <= 1
    requires RoundsWithin(env.scale, Min(cfg.baseDelay, cfg.cap), slack)
    ensures FinishAfter(cfg, env, n - 1) - env.started <= LongestMixedRun(cfg, ct, quick, slack)
    ensures var taken := FinishAfter(cfg, env, n - 1) - env.started;
            || taken <= Max(cfg.operationBudget - 1, 0) + Max(ct, LaterStep(cfg, ct, quick))
            || (RetriesLimited(cfg) && taken <= ct + FirstSleep(cfg, slack))
  {
    hide LaterStep, FirstSleep, RetriesLimited, Reach, RoundsWithin, StartOf, WaitAfter, HeaderDecision, UnlimitedWithin;
    var last := n - 1;
    RunUnique(cfg, env, n, n);
    StartsInsideBudget(cfg, env, last);
    StartsFirst(cfg, env);
    StartsWithinReach(cfg, env, n, last, ct, quick, slack);
    ReachMonotone(cfg, ct, quick, slack, last, cfg.maxRetries);
    if WorthRetrying(cfg, env, last) {
      RetriedStep(cfg, env, n, last, ct, quick, slack);
      ReachMonotone(cfg, ct, quick, slack, last, cfg.maxRetries - 1);
    }
  }

  // ---- some run takes as long ----

  lemma SomeHang(cfg: RetryConfig) returns (e: ProviderError)
    requires RetriesLimited(cfg)
    ensures IsRetryable(e) && Limited(cfg, e) && HeaderDecision(cfg, e).Absent?
  {
    var c :| c in RETRYABLE_CLASSES && c in cfg.limitedRetryClasses;
    SampleMeaning(cfg, c);
    e := Sample(c);
  }

  /** A first call that fails with `e` after `slow`, and draws the whole pause. */
  function Hanging(cfg: RetryConfig, e: ProviderError, slow: nat): Call {
    Call(slow, Failure(e), Finite(TopFactor(Min(cfg.baseDelay, cfg.cap))))
  }

  lemma HangingStep(cfg: RetryConfig, env: Env, e: ProviderError, slow: nat, slack: nat)
    requires RetriesLimited(cfg) && IsRetryable(e) && Limited(cfg, e) && HeaderDecision(cfg, e).Absent?
    requires env.calls(0) == Hanging(cfg, e, slow)
    requires env.scale == OvershootScaling(Min(cfg.baseDelay, cfg.cap), slack)
    ensures WorthRetrying(cfg, env, 0)
    ensures StartOf(cfg, env, 1) == env.started + slow + FirstPause(cfg, slack)
  {
    hide HeaderDecision, TopFactor, Sanitize, IsRetryable, StartOf;
    FirstCeiling(Classify(e), cfg.baseDelay, cfg.cap, cfg.flatClasses);
    StartsFirst(cfg, env);
    NextStart(cfg, env, 0);
  }

  lemma PlannedIsHttp(cfg: RetryConfig, at: nat, slow: nat, wait: nat)
    requires wait <= LongestHonoured(cfg) && EPOCH <= at
    ensures PlannedCall(cfg, at, slow, wait).outcome.Failure?
    ensures Classify(PlannedCall(cfg, at, slow, wait).outcome.error) == HttpClass
  {
    hide LongestHonoured;
  }

  /** A run of a single call that takes `ct` and is followed by the longest first sleep. */
  lemma FirstHangRun(cfg: RetryConfig, ct: nat, slack: nat) returns (env: Env)
    requires RetriesLimited(cfg) && ct + FirstSleep(cfg, slack) >= cfg.operationBudget
    ensures IsRun(cfg, env, 1) && CallsWithin(env, 1, ct) && UnlimitedWithin(cfg, env, 1, 0)
    ensures RoundsWithin(env.scale, Min(cfg.baseDelay, cfg.cap), slack)
    ensures FinishAfter(cfg, env, 0) - env.started == ct + FirstSleep(cfg, slack)
  {
    hide LongestHonoured, FirstPause, PlannedCall, WorthRetrying, StartOf, HeaderDecision, NearestScale;
    var scale := OvershootScaling(Min(cfg.baseDelay, cfg.cap), slack);
    if HttpClass in cfg.limitedRetryClasses && LongestHonoured(cfg) >= FirstPause(cfg, slack) {
      env := Env(EPOCH, (k: nat) => PlannedCall(cfg, EPOCH, ct, LongestHonoured(cfg)), scale);
      StartsFirst(cfg, env);
      PlannedStep(cfg, env, 0, ct, LongestHonoured(cfg));
      PlannedIsHttp(cfg, EPOCH, ct, LongestHonoured(cfg));
    } else {
      var e := SomeHang(cfg);
      env := Env(EPOCH, (k: nat) => Hanging(cfg, e, ct), scale);
      HangingStep(cfg, env, e, ct, slack);
    }
    assert !Continues(cfg, env, 0);
  }

  /** Where call `i` starts when full steps from there lead to `at`, after a first call that hangs. */
  function FullStepStart(at: nat, step: nat, m: nat, i: nat): nat {
    if i == 0 then 0 else Max(at - (m - i) * step, 0)
  }

  lemma FullSteps(at: nat, step: nat, m: nat, i: nat)
    requires 0 < i <= m && m * step <= at
    ensures FullStepStart(at, step, m, i) == at - (m - i) * step >= i * step
    ensures i < m ==> FullStepStart(at, step, m, i + 1) == FullStepStart(at, step, m, i) + step
  {
    assert (m - i) * step + i * step == m * step;
    if i < m {
      assert (m - i) * step == (m - (i + 1)) * step + step;
      assert (m - (i + 1)) * step + (i + 1) * step == m * step;
    }
  }

  /** A hang first, and then failures at full length, where those alone would not arrive. */
  lemma ArriveAfterHang(cfg: RetryConfig, ct: nat, slow: nat, slack: nat, m: nat, at: nat, final: Call)
    returns (env: Env)
    requires RetriesLimited(cfg) && HttpClass !in cfg.limitedRetryClasses && cfg.cap <= LongestHonoured(cfg)
    requires 0 < m <= cfg.maxRetries && at < cfg.operationBudget && slow <= ct
    requires m * (slow + LongestHonoured(cfg)) <= at
             <= ct + FirstPause(cfg, slack) + (m - 1) * (slow + LongestHonoured(cfg))
    ensures env.scale == OvershootScaling(Min(cfg.baseDelay, cfg.cap), slack)
    ensures Arrives(cfg, env, m, at, ct, final) && UnlimitedWithin(cfg, env, m, slow)
  {
    hide LongestHonoured, FirstPause, PlannedCall, NearestScale, TimetableCall, StartOf, Hanging, HeaderDecision;
    hide WorthRetrying, FullStepStart, OvershootScale;
    var step := slow + LongestHonoured(cfg);
    var times := seq(m + 1, (i: nat) => FullStepStart(at, step, m, i));
    forall i | 1 <= i < |times| - 1 ensures times[i] <= times[i + 1] <= times[i] + slow + LongestHonoured(cfg) {
      FullSteps(at, step, m, i);
    }
    FullSteps(at, step, m, 1);
    FullSteps(at, step, m, m);
    var e := SomeHang(cfg);
    var hang := times[1] - FirstPause(cfg, slack);
    env := Env(EPOCH,
               (i: nat) => if i == 0 then Hanging(cfg, e, hang)
                           else if i < m then TimetableCall(cfg, times, slow, 1, i)
                           else final,
               OvershootScaling(Min(cfg.baseDelay, cfg.cap), slack));
    HangingStep(cfg, env, e, hang, slack);
    AfterHang(cfg, env, times, slow, e, hang);
  }

  lemma AfterHang(cfg: RetryConfig, env: Env, times: seq<nat>, slow: nat, e: ProviderError, hang: nat)
    requires |times| > 1 && Timetable(cfg, times, slow, 1) && Follows(cfg, env, times, slow, 1)
    requires HttpClass !in cfg.limitedRetryClasses && |times| - 1 <= cfg.maxRetries
    requires times[|times| - 1] < cfg.operationBudget
    requires env.calls(0) == Hanging(cfg, e, hang) && Limited(cfg, e) && WorthRetrying(cfg, env, 0)
    ensures StartOf(cfg, env, |times| - 1) == EPOCH + times[|times| - 1]
    ensures Made(cfg, env, |times| - 1) && UnlimitedWithin(cfg, env, |times| - 1, slow)
    ensures CallsWithin(env, |times| - 1, Max(slow, hang))
  {
    hide LongestHonoured, TimetableCall, StartOf, HeaderDecision, WorthRetrying, TopFactor;
    var m: nat := |times| - 1;
    TimetableKept(cfg, env, times, slow, 1, m);
    TimesAscend(cfg, times, slow, 1, 1);
    forall j: nat | j < m ensures Continues(cfg, env, j) {
      if j > 0 {
        TimetableContinues(cfg, env, times, slow, 1, j);
      }
    }
  }

  /** After at most `m` retried failures a given call can start as late as any can. */
  lemma ArriveLatest(cfg: RetryConfig, ct: nat, quick: nat, slack: nat, m: nat, final: Call) returns (env: Env, k: nat)
    requires HttpClass !in cfg.limitedRetryClasses && cfg.cap <= LongestHonoured(cfg) && m <= cfg.maxRetries
    ensures k <= m && env.scale == OvershootScaling(Min(cfg.baseDelay, cfg.cap), slack)
    ensures Arrives(cfg, env, k, LatestStart(cfg, ct, quick, slack, m), ct, final)
    ensures UnlimitedWithin(cfg, env, k, quick)
  {
    hide LongestHonoured, FirstPause, NearestScale, StartOf, Made, RetriesLimited, OvershootScale;
    var slow, at := Min(quick, ct), LatestStart(cfg, ct, quick, slack, m);
    if m > 0 {
      TimesSuccessor(m - 1, slow + LongestHonoured(cfg));
    }
    if at == ThrottleReach(cfg, slow, m) {
      var scale := OvershootScaling(Min(cfg.baseDelay, cfg.cap), slack);
      env, k := ArriveByThrottles(cfg, slow, m, final, scale);
    } else {
      k := m;
      env := ArriveAfterHang(cfg, ct, slow, slack, m, at, final);
    }
  }

  /** A call that is not retried, or ends past the budget with its sleep, ends the run there. */
  lemma RunEnds(cfg: RetryConfig, env: Env, k: nat, at: nat, slow: nat, final: Call)
    requires Arrives(cfg, env, k, at, slow, final)
    requires final.outcome.Failure? ==> WorthRetrying(cfg, env, k) && StartOf(cfg, env, k + 1) - EPOCH >= cfg.operationBudget
    ensures IsRun(cfg, env, k + 1)
    ensures final.outcome.Failure? ==> FinishAfter(cfg, env, k) == StartOf(cfg, env, k + 1)
    ensures final.outcome.Success? ==> FinishAfter(cfg, env, k) == EPOCH + at + final.duration
  {
    hide StartOf, HeaderDecision;
    if final.outcome.Success? {
      NextStart(cfg, env, k);
    }
  }

  /** The bound is attained to the nanosecond: the longest mixed run exists. */
  lemma LongestMixedRunExists(cfg: RetryConfig, ct: nat, quick: nat, slack: nat) returns (env: Env, n: nat)
    requires HttpClass !in cfg.limitedRetryClasses && cfg.cap <= LongestHonoured(cfg)
    ensures IsRun(cfg, env, n) && CallsWithin(env, n, ct) && UnlimitedWithin(cfg, env, n, quick)
    ensures RoundsWithin(env.scale, Min(cfg.baseDelay, cfg.cap), slack)
    ensures FinishAfter(cfg, env, n - 1) - env.started == LongestMixedRun(cfg, ct, quick, slack)
  {
    hide LongestHonoured, FirstPause, FirstSleep, LatestStart, NearestScale, StartOf, WorthRetrying, IsRun, FinishAfter;
    hide PlannedCall, RetriesLimited, OvershootScale, Made;
    LongestIsUnretried(cfg, ct, quick, slack);
    var longest := LongestMixedRun(cfg, ct, quick, slack);
    var unretried := LatestStart(cfg, ct, quick, slack, cfg.maxRetries);
    if longest == unretried + ct {
      var k: nat;
      var final := Call(ct, Success(""), Finite(0.0));
      env, k := ArriveLatest(cfg, ct, quick, slack, cfg.maxRetries, final);
      RunEnds(cfg, env, k, unretried, ct, final);
      n := k + 1;
    } else if RetriesLimited(cfg) && longest == ct + FirstSleep(cfg, slack) {
      env := FirstHangRun(cfg, ct, slack);
      n := 1;
    } else {
      env, n := LastRetriedRun(cfg, ct, quick, slack);
    }
  }

  /** The last unlimited failure that is retried starts as late as it can and sleeps longest. */
  lemma LastRetriedRun(cfg: RetryConfig, ct: nat, quick: nat, slack: nat) returns (env: Env, n: nat)
    requires HttpClass !in cfg.limitedRetryClasses && cfg.cap <= LongestHonoured(cfg) && cfg.maxRetries > 0
    requires LatestStart(cfg, ct, quick, slack, cfg.maxRetries - 1) + LaterStep(cfg, ct, quick) >= cfg.operationBudget
    ensures IsRun(cfg, env, n) && CallsWithin(env, n, ct) && UnlimitedWithin(cfg, env, n, quick)
    ensures RoundsWithin(env.scale, Min(cfg.baseDelay, cfg.cap), slack)
    ensures FinishAfter(cfg, env, n - 1) - env.started
            == LatestStart(cfg, ct, quick, slack, cfg.maxRetries - 1) + LaterStep(cfg, ct, quick)
  {
    hide LongestHonoured, LatestStart, NearestScale, StartOf, WorthRetrying, IsRun, FinishAfter, PlannedCall, Made;
    hide OvershootScale;
    var slow, at := Min(quick, ct), LatestStart(cfg, ct, quick, slack, cfg.maxRetries - 1);
    var final := PlannedCall(cfg, EPOCH + at, slow, LongestHonoured(cfg));
    var k: nat;
    env, k := ArriveLatest(cfg, ct, quick, slack, cfg.maxRetries - 1, final);
    PlannedStep(cfg, env, k, slow, LongestHonoured(cfg));
    PlannedIsHttp(cfg, EPOCH + at, slow, LongestHonoured(cfg));
    RunEnds(cfg, env, k, at, ct, final);
    n := k + 1;
  }

  /** Where a retried failure leaves budget over, a later call that is not retried takes longer still. */
  lemma LongestIsUnretried(cfg: RetryConfig, ct: nat, quick: nat, slack: nat)
    ensures var unretried := LatestStart(cfg, ct, quick, slack, cfg.maxRetries) + ct;
            LongestMixedRun(cfg, ct, quick, slack) == unretried || LongestMixedRun(cfg, ct, quick, slack) >= cfg.operationBudget
  {
    hide LaterStep, FirstSleep, RetriesLimited;
    if cfg.maxRetries > 0 {
      TimesMonotone(0, cfg.maxRetries - 1, LaterStep(cfg, ct, quick));
      if cfg.maxRetries > 1 {
        TimesSuccessor(cfg.maxRetries - 2, LaterStep(cfg, ct, quick));
      }
    }
  }
}
