/** Laws over whole runs of the retry loop: identity of the error, header timing, monotonicity, total waiting. */
module RetryLaws {
  import opened Wrappers
  import opened Durations
  import opened ProviderErrors
  import opened RetryAfterHeader
  import opened Backoff
  import opened RetryLoop
  import opened RetryBounds

  // ---- which error comes back ----

  /**
   Failed runs lose no information the core needs: a mage-local last error comes back as it is, and
   anything else that comes back is a typed abandonment counting exactly the calls made.
   */
  lemma ErrorIdentity(cfg: RetryConfig, env: Env, n: nat, r: Result<string, ProviderError>, finish: nat)
    requires Ends(cfg, env, n, r, finish)
    ensures r.Failure? <==> env.calls(n - 1).outcome.Failure?
    ensures r.Success? ==> r == env.calls(n - 1).outcome
    ensures r.Failure? ==>
              var last := env.calls(n - 1).outcome.error;
              && (IsMageLocal(last) ==> r.error == last)
              && (r.error != last ==> !IsMageLocal(last) && r.error.RetryAbandoned? && r.error.attempts == n)
  {
  }

  /** The last error is replaced exactly when the run stopped by its own decision on a run-wide failure. */
  lemma AbandonedExactlyWhen(cfg: RetryConfig, env: Env, n: nat, r: Result<string, ProviderError>, finish: nat)
    requires Ends(cfg, env, n, r, finish) && r.Failure?
    requires !env.calls(n - 1).outcome.error.RetryAbandoned?
    ensures var last := env.calls(n - 1).outcome.error;
            r.error.RetryAbandoned? <==>
            && !IsMageLocal(last) && IsRetryable(last) && n - 1 < cfg.maxRetries
            && (|| HeaderDecision(cfg, last).TooLong? || HeaderDecision(cfg, last).Unintelligible?
                || n - 1 < Limit(cfg, last))
  {
  }

  /** Every earlier call failed with an error worth retrying, so a success is always the last call. */
  lemma OnlyLastCallDecides(cfg: RetryConfig, env: Env, n: nat, k: nat)
    requires IsRun(cfg, env, n) && k < n - 1
    ensures env.calls(k).outcome.Failure? && IsRetryable(env.calls(k).outcome.error)
  {
    assert Continues(cfg, env, k);
  }

  // ---- honoured headers ----

  /**
   After an honoured value with a known receipt time, the next call starts no earlier than the
   server asked and no later than the jitter allows, whatever the gap and the random value.
   A receipt time in the future counts as the present.
   */
  lemma HonouredTiming(cfg: RetryConfig, env: Env, k: nat, asked: Duration, receivedAt: nat)
    requires env.calls(k).outcome.Failure?
    requires HeaderDecision(cfg, env.calls(k).outcome.error) == Honor(asked)
    requires env.calls(k).outcome.error.receivedAt == Some(receivedAt)
    ensures var now := EndOf(cfg, env, k);
            var receipt := Min(receivedAt, now);
            receipt + asked <= StartOf(cfg, env, k + 1) <= Max(now, receipt + asked) + RETRY_AFTER_JITTER
    ensures EndOf(cfg, env, k) <= StartOf(cfg, env, k + 1)
  {
  }

  // ---- configurations ----

  /** `more` differs from `cfg` at most by larger retry counts and a larger budget. */
  predicate Raises(cfg: RetryConfig, more: RetryConfig) {
    && cfg.maxRetries <= more.maxRetries
    && cfg.limitedMaxRetries <= more.limitedMaxRetries
    && cfg.operationBudget <= more.operationBudget
    && more == cfg.(maxRetries := more.maxRetries, limitedMaxRetries := more.limitedMaxRetries,
                    operationBudget := more.operationBudget)
  }

  lemma {:induction false} SameTimes(cfg: RetryConfig, more: RetryConfig, env: Env, k: nat)
    requires Raises(cfg, more)
    ensures StartOf(cfg, env, k) == StartOf(more, env, k)
  {
    if k > 0 {
      SameTimes(cfg, more, env, k - 1);
    }
  }

  lemma StillContinues(cfg: RetryConfig, more: RetryConfig, env: Env, k: nat)
    requires Raises(cfg, more) && Continues(cfg, env, k)
    ensures Continues(more, env, k)
  {
    SameTimes(cfg, more, env, k + 1);
  }

  /**
   With the same world, raising the limits makes the old run a prefix of the new one, call for call
   and at the same times, and never turns a success into a failure.
   */
  lemma RaisingLimitsExtendsRun(cfg: RetryConfig, more: RetryConfig, env: Env, m: nat, n: nat)
    requires Raises(cfg, more) && IsRun(cfg, env, m) && IsRun(more, env, n)
    ensures m <= n
    ensures forall k: nat | k < m :: StartOf(cfg, env, k) == StartOf(more, env, k)
    ensures env.calls(m - 1).outcome.Success? ==> m == n
  {
    var last: nat := n - 1;
    if last < m - 1 {
      assert Continues(cfg, env, last);
      StillContinues(cfg, more, env, last);
    }
    forall k: nat | k < m ensures StartOf(cfg, env, k) == StartOf(more, env, k) {
      SameTimes(cfg, more, env, k);
    }
    if m < n {
      OnlyLastCallDecides(more, env, n, m - 1);
    }
  }

  lemma RaisingLimitsKeepsSuccess(cfg: RetryConfig, more: RetryConfig, env: Env,
                                  m: nat, r: Result<string, ProviderError>, f: nat,
                                  n: nat, r': Result<string, ProviderError>, f': nat)
    requires Raises(cfg, more) && Ends(cfg, env, m, r, f) && Ends(more, env, n, r', f')
    requires r.Success?
    ensures n == m && r' == r && f' == f
  {
    ErrorIdentity(cfg, env, m, r, f);
    RaisingLimitsExtendsRun(cfg, more, env, m, n);
    SameTimes(cfg, more, env, m - 1);
  }

  // ---- total waiting ----

  function TotalWait(cfg: RetryConfig, env: Env, n: nat): nat {
    if n == 0 then 0 else TotalWait(cfg, env, n - 1) + WaitAfter(cfg, env, n - 1)
  }

  function TotalCallTime(env: Env, n: nat): nat {
    if n == 0 then 0 else TotalCallTime(env, n - 1) + env.calls(n - 1).duration
  }

  /** Time is spent in calls and in waits, and nowhere else. */
  lemma {:induction false} TimeIsAccountedFor(cfg: RetryConfig, env: Env, n: nat)
    ensures StartOf(cfg, env, n) == env.started + TotalCallTime(env, n) + TotalWait(cfg, env, n)
  {
    if n > 0 {
      TimeIsAccountedFor(cfg, env, n - 1);
    }
  }

  /** No failure among the first `n` calls asks for a wait that is honoured. */
  ghost predicate FormulaOnly(cfg: RetryConfig, env: Env, n: nat) {
    forall k: nat | k < n ::
      env.calls(k).outcome.Failure? && !HeaderDecision(cfg, env.calls(k).outcome.error).Honor?
  }

  /** Under the cap the waits of a formula chain grow linearly, whatever the rounding does. */
  lemma {:induction false} FormulaWaitsCapped(cfg: RetryConfig, env: Env, n: nat)
    requires FormulaOnly(cfg, env, n)
    ensures TotalWait(cfg, env, n) <= n * cfg.cap
  {
    hide WaitAfter, HeaderDecision;
    if n > 0 {
      FormulaWaitsCapped(cfg, env, n - 1);
      FormulaSleep(cfg, env, n - 1);
      TimesSuccessor(n - 1, cfg.cap);
    }
  }

  /** No pause, of whatever length, is rounded up by more than `slack`. */
  ghost predicate AlwaysRoundsWithin(scale: Scaling, slack: nat) {
    forall d: Duration :: RoundsWithin(scale, d, slack)
  }

  lemma GrowingWait(cfg: RetryConfig, env: Env, k: nat, slack: nat)
    requires FormulaOnly(cfg, env, k + 1) && AlwaysRoundsWithin(env.scale, slack)
    ensures WaitAfter(cfg, env, k) <= cfg.baseDelay * Pow2(k) + slack
  {
    var e := env.calls(k).outcome.error;
    FormulaGrowth(k, Classify(e), cfg.baseDelay, cfg.cap, cfg.flatClasses);
    assert RoundsWithin(env.scale, FormulaCeiling(k, Classify(e), cfg.baseDelay, cfg.cap, cfg.flatClasses), slack);
  }

  /** Below the cap they grow geometrically at most, plus what rounding adds to each. */
  lemma {:induction false} FormulaWaitsGeometric(cfg: RetryConfig, env: Env, n: nat, slack: nat)
    requires FormulaOnly(cfg, env, n) && AlwaysRoundsWithin(env.scale, slack)
    ensures TotalWait(cfg, env, n) <= cfg.baseDelay * (Pow2(n) - 1) + n * slack
  {
    hide WaitAfter, HeaderDecision, AlwaysRoundsWithin;
    if n > 0 {
      FormulaWaitsGeometric(cfg, env, n - 1, slack);
      GrowingWait(cfg, env, n - 1, slack);
      TimesSuccessor(n - 1, slack);
      GeometricStep(cfg.baseDelay, Pow2(n - 1));
    }
  }

  lemma GeometricStep(base: nat, p: nat)
    ensures base * (2 * p - 1) == base * (p - 1) + base * p
  {
  }
}
