/** How long a run of the retry loop can take, and how many failures of a limited class it can meet. */
module RetryBounds {
  import opened Durations
  import opened ProviderErrors
  import opened RetryAfterHeader
  import opened Backoff
  import opened RetryLoop

  ghost predicate CallsWithin(env: Env, n: nat, ct: nat) {
    forall k: nat | k < n :: env.calls(k).duration <= ct
  }

  ghost predicate Limited(cfg: RetryConfig, e: ProviderError) {
    Classify(e) in cfg.limitedRetryClasses
  }

  ghost predicate LimitedFailure(cfg: RetryConfig, env: Env, k: nat) {
    env.calls(k).outcome.Failure? && Limited(cfg, env.calls(k).outcome.error)
  }

  // ---- single waits and start times ----

  lemma {:induction false} StartsAfter(cfg: RetryConfig, env: Env, k: nat)
    ensures StartOf(cfg, env, k) >= env.started
  {
    if k > 0 {
      StartsAfter(cfg, env, k - 1);
    }
  }

  /** A call after the first starts strictly inside the budget. */
  lemma StartsInsideBudget(cfg: RetryConfig, env: Env, k: nat)
    requires Made(cfg, env, k)
    ensures env.started <= StartOf(cfg, env, k)
    ensures k > 0 ==> StartOf(cfg, env, k) < env.started + cfg.operationBudget
    ensures StartOf(cfg, env, k) <= env.started + Max(cfg.operationBudget - 1, 0)
  {
    StartsAfter(cfg, env, k);
    if k > 0 {
      assert Continues(cfg, env, k - 1);
      ElapsedAgainstBudget(StartOf(cfg, env, k), env.started, cfg.operationBudget);
    }
  }

  /** The longest sleep a header can ask for: whole seconds within the cap, and full jitter. */
  function LongestHonoured(cfg: RetryConfig): (longest: Duration)
    ensures longest <= cfg.retryAfterCap + RETRY_AFTER_JITTER
    ensures cfg.retryAfterCap >= NANOS_PER_SEC ==> longest >= 2 * NANOS_PER_SEC
  {
    var seconds := AsSecs(cfg.retryAfterCap);
    if seconds == 0 then 0 else SaturatingAdd(FromSecs(seconds), RETRY_AFTER_JITTER)
  }

  function LongestSleep(cfg: RetryConfig): Duration { Max(cfg.cap, LongestHonoured(cfg)) }

  lemma HonouredSleep(cfg: RetryConfig, env: Env, k: nat)
    requires env.calls(k).outcome.Failure? && HeaderDecision(cfg, env.calls(k).outcome.error).Honor?
    ensures WaitAfter(cfg, env, k) <= LongestHonoured(cfg)
  {
    hide Decide;
    HonouredWholeSeconds(env.calls(k).outcome.error.retryAfterRaw, cfg.retryAfterCap);
  }

  lemma FormulaSleep(cfg: RetryConfig, env: Env, k: nat)
    requires env.calls(k).outcome.Failure? ==> !HeaderDecision(cfg, env.calls(k).outcome.error).Honor?
    ensures WaitAfter(cfg, env, k) <= cfg.cap
  {
    hide HeaderDecision;
  }

  /** No sleep is longer than the formula's cap or the longest honoured header. */
  lemma WaitWithinCaps(cfg: RetryConfig, env: Env, k: nat)
    ensures WaitAfter(cfg, env, k) <= LongestSleep(cfg)
  {
    hide HeaderDecision, LongestHonoured, WaitAfter;
    if env.calls(k).outcome.Failure? && HeaderDecision(cfg, env.calls(k).outcome.error).Honor? {
      HonouredSleep(cfg, env, k);
    } else {
      FormulaSleep(cfg, env, k);
    }
  }

  lemma ScaledWithin(d: Duration, rand: F64, scale: Scaling, slack: nat)
    requires RoundsWithin(scale, d, slack)
    ensures scale(d, Sanitize(rand)).Some? ==> scale(d, Sanitize(rand)).value <= d + slack
  {
  }

  lemma NextStart(cfg: RetryConfig, env: Env, k: nat)
    ensures StartOf(cfg, env, k + 1) == StartOf(cfg, env, k) + env.calls(k).duration + WaitAfter(cfg, env, k)
    ensures EndOf(cfg, env, k) == StartOf(cfg, env, k) + env.calls(k).duration
  {
  }

  lemma StartsFirst(cfg: RetryConfig, env: Env)
    ensures StartOf(cfg, env, 0) == env.started
  {
  }

  /** The longest formula sleep after a first failure; one second, alone of all pauses, never rounds up. */
  function FirstPause(cfg: RetryConfig, slack: nat): (pause: Duration)
    ensures Min(cfg.baseDelay, cfg.cap) <= pause <= Min(Min(cfg.baseDelay, cfg.cap) + slack, cfg.cap)
  {
    var pause := Min(cfg.baseDelay, cfg.cap);
    if pause == RETRY_AFTER_JITTER then pause else Min(pause + slack, cfg.cap)
  }

  /** Before the growth sets in every class pauses alike. */
  lemma FirstWait(cfg: RetryConfig, env: Env, slack: nat)
    requires env.calls(0).outcome.Failure? && !HeaderDecision(cfg, env.calls(0).outcome.error).Honor?
    requires RoundsWithin(env.scale, Min(cfg.baseDelay, cfg.cap), slack)
    ensures WaitAfter(cfg, env, 0) <= FirstPause(cfg, slack)
  {
    hide HeaderDecision, RoundsWithin;
    FirstCeiling(Classify(env.calls(0).outcome.error), cfg.baseDelay, cfg.cap, cfg.flatClasses);
    ScaledWithin(Min(cfg.baseDelay, cfg.cap), env.calls(0).rand, env.scale, slack);
  }

  /** A flat failure without a usable header sleeps for at most the base delay, up to rounding. */
  lemma FlatWait(cfg: RetryConfig, env: Env, k: nat, slack: nat)
    requires env.calls(k).outcome.Failure?
    requires HeaderDecision(cfg, env.calls(k).outcome.error).Absent?
    requires Classify(env.calls(k).outcome.error) in cfg.flatClasses
    requires RoundsWithin(env.scale, Min(cfg.baseDelay, cfg.cap), slack)
    ensures WaitAfter(cfg, env, k) <= Min(cfg.baseDelay, cfg.cap) + slack
  {
    ScaledWithin(Min(cfg.baseDelay, cfg.cap), env.calls(k).rand, env.scale, slack);
  }

  // ---- the whole run ----

  lemma TimesSuccessor(k: nat, x: nat)
    ensures (k + 1) * x == k * x + x
  {
  }

  lemma TimesMonotone(a: nat, b: nat, x: nat)
    requires a <= b
    ensures a * x <= b * x
  {
  }

  /**
   How long a run with so many retries can take: the last retried call starts as late as the budget and
   the calls before it allow and is followed by the longest sleep, or a call that is not retried does.
   */
  function LongestRun(cfg: RetryConfig, ct: nat, retries: nat): nat {
    var step := ct + LongestSleep(cfg);
    var latest := Max(cfg.operationBudget - 1, 0);
    var unretried := Min(latest, retries * step) + ct;
    if retries == 0 then unretried else Max(Min(latest, (retries - 1) * step) + step, unretried)
  }

  lemma {:induction false} StartsWithin(cfg: RetryConfig, env: Env, n: nat, ct: nat, k: nat)
    requires CallsWithin(env, n, ct) && k <= n
    ensures StartOf(cfg, env, k) <= env.started + k * (ct + LongestSleep(cfg))
  {
    hide LongestSleep;
    if k > 0 {
      StartsWithin(cfg, env, n, ct, k - 1);
      WaitWithinCaps(cfg, env, k - 1);
      TimesSuccessor(k - 1, ct + LongestSleep(cfg));
    }
  }

  /**
   Whatever the provider does, a run ends within the longest one. In simpler terms it overstays the last
   instant of its budget by at most one call and one sleep; in the documentation's, by `ct` and the
   larger of the two caps.
   */
  lemma WallClockBound(cfg: RetryConfig, env: Env, n: nat, ct: nat)
    requires IsRun(cfg, env, n) && CallsWithin(env, n, ct)
    ensures FinishAfter(cfg, env, n - 1) - env.started <= LongestRun(cfg, ct, cfg.maxRetries)
    ensures FinishAfter(cfg, env, n - 1) - env.started
            <= Max(cfg.operationBudget - 1, 0) + ct + LongestSleep(cfg)
    ensures FinishAfter(cfg, env, n - 1) - env.started
            <= cfg.operationBudget + ct + Max(cfg.cap, cfg.retryAfterCap + RETRY_AFTER_JITTER)
  {
    hide LongestHonoured, LongestRun, StartOf, WaitAfter;
    var last := n - 1;
    StartsInsideBudget(cfg, env, last);
    StartsWithin(cfg, env, n, ct, last);
    WaitWithinCaps(cfg, env, last);
    NextStart(cfg, env, last);
    RunUnique(cfg, env, n, n);
    FinishFitsRun(cfg, env, last, ct);
  }

  lemma FinishFitsRun(cfg: RetryConfig, env: Env, last: nat, ct: nat)
    requires last <= cfg.maxRetries && env.calls(last).duration <= ct
    requires StartOf(cfg, env, last) <= env.started + Max(cfg.operationBudget - 1, 0)
    requires StartOf(cfg, env, last) <= env.started + last * (ct + LongestSleep(cfg))
    requires WaitAfter(cfg, env, last) <= LongestSleep(cfg)
    ensures FinishAfter(cfg, env, last) - env.started <= LongestRun(cfg, ct, cfg.maxRetries)
    ensures FinishAfter(cfg, env, last) - env.started
            <= Max(cfg.operationBudget - 1, 0) + ct + LongestSleep(cfg)
  {
    hide LongestSleep, StartOf, WaitAfter, HeaderDecision;
    NextStart(cfg, env, last);
    TimesMonotone(last, cfg.maxRetries, ct + LongestSleep(cfg));
    if WorthRetrying(cfg, env, last) {
      TimesMonotone(last, cfg.maxRetries - 1, ct + LongestSleep(cfg));
    }
  }

  lemma LastIndexBelowLimit(cfg: RetryConfig, env: Env, n: nat, k: nat)
    requires IsRun(cfg, env, n) && k < n && LimitedFailure(cfg, env, k)
    ensures k >= cfg.limitedMaxRetries ==> k == n - 1
  {
    assert k < n - 1 ==> Continues(cfg, env, k);
  }

  function Below(m: nat): (s: set<nat>)
    ensures forall k: nat :: k in s <==> k < m
    ensures |s| == m
  {
    if m == 0 then {} else Below(m - 1) + {m - 1}
  }

  lemma SubsetSize(a: set<nat>, b: set<nat>)
    requires a <= b
    ensures |a| <= |b|
  {
    assert b == a + (b - a);
  }

  /** Any run, however mixed, meets at most `limitedMaxRetries + 1` failures of limited classes. */
  lemma LimitedFailureCount(cfg: RetryConfig, env: Env, n: nat)
    requires IsRun(cfg, env, n)
    ensures |set k: nat | k < n && LimitedFailure(cfg, env, k)| <= cfg.limitedMaxRetries + 1
  {
    var met := set k: nat | k < n && LimitedFailure(cfg, env, k);
    forall k | k in met ensures k in Below(cfg.limitedMaxRetries) + {n - 1} {
      LastIndexBelowLimit(cfg, env, n, k);
    }
    SubsetSize(met, Below(cfg.limitedMaxRetries) + {n - 1});
  }

  /** A hang: a limited, flat failure that brings no usable `Retry-After`. */
  ghost predicate Hang(cfg: RetryConfig, e: ProviderError) {
    Limited(cfg, e) && Classify(e) in cfg.flatClasses && HeaderDecision(cfg, e).Absent?
  }

  ghost predicate FailsOnlyByHanging(cfg: RetryConfig, env: Env, n: nat) {
    forall k: nat | k < n && env.calls(k).outcome.Failure? :: Hang(cfg, env.calls(k).outcome.error)
  }

  lemma HangStep(cfg: RetryConfig, env: Env, k: nat, ct: nat, slack: nat)
    requires WorthRetrying(cfg, env, k) && Hang(cfg, env.calls(k).outcome.error)
    requires env.calls(k).duration <= ct
    requires RoundsWithin(env.scale, Min(cfg.baseDelay, cfg.cap), slack)
    ensures k < cfg.limitedMaxRetries
    ensures StartOf(cfg, env, k + 1) <= StartOf(cfg, env, k) + (ct + cfg.baseDelay + slack)
  {
    FlatWait(cfg, env, k, slack);
  }

  lemma {:induction false} HangStart(cfg: RetryConfig, env: Env, n: nat, k: nat, ct: nat, slack: nat)
    requires CallsWithin(env, n, ct) && FailsOnlyByHanging(cfg, env, n)
    requires RoundsWithin(env.scale, Min(cfg.baseDelay, cfg.cap), slack)
    requires k <= n && forall j: nat | j < k :: WorthRetrying(cfg, env, j)
    ensures k <= cfg.limitedMaxRetries
    ensures StartOf(cfg, env, k) <= env.started + k * (ct + cfg.baseDelay + slack)
  {
    if k > 0 {
      HangStart(cfg, env, n, k - 1, ct, slack);
      assert WorthRetrying(cfg, env, k - 1);
      HangStep(cfg, env, k - 1, ct, slack);
      TimesSuccessor(k - 1, ct + cfg.baseDelay + slack);
    }
  }

  lemma SplitCost(m: nat, ct: nat, pause: nat)
    ensures m * (ct + pause) + ct == (1 + m) * ct + m * pause
  {
  }

  /** A chain of nothing but hangs costs one client timeout per allowed attempt, plus the pauses between. */
  lemma HangChainBound(cfg: RetryConfig, env: Env, n: nat, ct: nat, slack: nat)
    requires IsRun(cfg, env, n) && CallsWithin(env, n, ct) && FailsOnlyByHanging(cfg, env, n)
    requires RoundsWithin(env.scale, Min(cfg.baseDelay, cfg.cap), slack)
    ensures FinishAfter(cfg, env, n - 1) - env.started
            <= (1 + cfg.limitedMaxRetries) * ct + cfg.limitedMaxRetries * (cfg.baseDelay + slack)
  {
    var last := n - 1;
    forall j: nat | j < last ensures WorthRetrying(cfg, env, j) {
      assert Continues(cfg, env, j);
    }
    HangStart(cfg, env, n, last, ct, slack);
    TimesMonotone(last, cfg.limitedMaxRetries, ct + cfg.baseDelay + slack);
    SplitCost(cfg.limitedMaxRetries, ct, cfg.baseDelay + slack);
    if WorthRetrying(cfg, env, last) {
      HangStart(cfg, env, n, n, ct, slack);
      TimesMonotone(n, cfg.limitedMaxRetries, ct + cfg.baseDelay + slack);
    }
  }

  /** The shipped configuration: a hang costs at most 601 s, with no assumption on rounding. */
  lemma ShippedHangChain(env: Env, n: nat)
    requires IsRun(SHIPPED, env, n) && FailsOnlyByHanging(SHIPPED, env, n)
    requires CallsWithin(env, n, FromSecs(300))
    ensures FinishAfter(SHIPPED, env, n - 1) - env.started <= FromSecs(601)
  {
    assert RoundsWithin(env.scale, RETRY_AFTER_JITTER, 0);
    HangChainBound(SHIPPED, env, n, FromSecs(300), 0);
  }
}
