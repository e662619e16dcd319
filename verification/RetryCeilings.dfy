/** The wall-clock ceilings written for runs of the retry loop: when they hold, and that they are attained. */
module RetryCeilings {
  import opened Durations
  import opened Wrappers
  import opened ProviderErrors
  import opened Backoff
  import opened RetryLoop
  import opened RetryBounds
  import opened RetryWitnesses
  import opened RetryMixed

  // ---- the unconditional bound ----

  /**
   The unconditional bound is attained to the nanosecond, for every call time and every budget: some run
   takes the longest that the retries left to `Http` failures allow.
   */
  lemma WallClockBoundIsTight(cfg: RetryConfig, ct: nat) returns (env: Env, n: nat)
    requires cfg.cap <= LongestHonoured(cfg)
    ensures IsRun(cfg, env, n) && CallsWithin(env, n, ct)
    ensures FinishAfter(cfg, env, n - 1) - env.started == LongestRun(cfg, ct, HttpRetries(cfg))
  {
    hide LongestHonoured, HttpRetries, NearestScale, StartOf, IsRun, FinishAfter, PlannedCall, Made, WorthRetrying;
    var retries, step := HttpRetries(cfg), ct + LongestHonoured(cfg);
    var k: nat;
    if retries > 0 {
      TimesSuccessor(retries - 1, step);
    }
    if LongestRun(cfg, ct, retries) == ThrottleReach(cfg, ct, retries) + ct {
      var final := Call(ct, Success(""), Finite(0.0));
      env, k := ArriveByThrottles(cfg, ct, retries, final, NearestScaling());
      RunEnds(cfg, env, k, ThrottleReach(cfg, ct, retries), ct, final);
    } else {
      var at := ThrottleReach(cfg, ct, retries - 1);
      var final := PlannedCall(cfg, EPOCH + at, ct, LongestHonoured(cfg));
      env, k := ArriveByThrottles(cfg, ct, retries - 1, final, NearestScaling());
      PlannedStep(cfg, env, k, ct, LongestHonoured(cfg));
      PlannedIsHttp(cfg, EPOCH + at, ct, LongestHonoured(cfg));
      RunEnds(cfg, env, k, at, ct, final);
    }
    n := k + 1;
  }

  // ---- the ceiling documented for mixed chains ----

  /** The documented figure: 751 s as shipped, when `ct` is 300 s. */
  function DocumentedCeiling(cfg: RetryConfig, ct: nat): nat {
    cfg.operationBudget + Max(ct, cfg.retryAfterCap + RETRY_AFTER_JITTER)
  }

  /**
   The ceiling as documented: it needs unlimited failures to take no time, and a budget that covers
   the smaller of its two terms, or the pause after a hang where no limited failure has a header.
   */
  lemma DocumentedMixedChainBound(cfg: RetryConfig, env: Env, n: nat, ct: nat, slack: nat)
    requires IsRun(cfg, env, n) && CallsWithin(env, n, ct) && UnlimitedWithin(cfg, env, n, 0)
    requires cfg.limitedMaxRetries <= 1 && cfg.cap <= cfg.retryAfterCap + RETRY_AFTER_JITTER
    requires || Min(ct, cfg.retryAfterCap + RETRY_AFTER_JITTER) <= cfg.operationBudget
             || (&& HttpClass !in cfg.limitedRetryClasses
                 && RoundsWithin(env.scale, Min(cfg.baseDelay, cfg.cap), slack)
                 && Min(cfg.baseDelay, cfg.cap) + slack <= cfg.operationBudget)
    ensures FinishAfter(cfg, env, n - 1) - env.started <= DocumentedCeiling(cfg, ct)
  {
    hide LongestHonoured, FinishAfter, IsRun, UnlimitedWithin, LongestMixedRun, RetriesLimited;
    if Min(ct, cfg.retryAfterCap + RETRY_AFTER_JITTER) <= cfg.operationBudget {
      MixedChainBound(cfg, env, n, ct, 0, MAX_DURATION);
    } else {
      MixedChainBound(cfg, env, n, ct, 0, slack);
    }
  }

  // ---- exactly when the documented ceiling holds ----

  ghost predicate WithinDocumentedCeiling(cfg: RetryConfig, ct: nat, quick: nat, slack: nat) {
    forall env: Env, n: nat
      | && IsRun(cfg, env, n) && CallsWithin(env, n, ct) && UnlimitedWithin(cfg, env, n, quick)
        && RoundsWithin(env.scale, Min(cfg.baseDelay, cfg.cap), slack) ::
      FinishAfter(cfg, env, n - 1) - env.started <= DocumentedCeiling(cfg, ct)
  }

  /** The last unlimited failure that is retried fits in the ceiling with its sleep, however late it starts. */
  predicate LastFailureFits(cfg: RetryConfig, ct: nat, quick: nat, slack: nat) {
    cfg.maxRetries > 0 ==>
      LatestStart(cfg, ct, quick, slack, cfg.maxRetries - 1) + LaterStep(cfg, ct, quick) <= DocumentedCeiling(cfg, ct)
  }

  /** A limited failure that uses up `ct` fits in the ceiling with its sleep. */
  predicate FirstHangFits(cfg: RetryConfig, ct: nat, slack: nat) {
    RetriesLimited(cfg) ==> ct + FirstSleep(cfg, slack) <= DocumentedCeiling(cfg, ct)
  }

  /** Where earlier failures can reach the end of the budget, how late the last starts drops out. */
  lemma LastFailureAtTheEnd(cfg: RetryConfig, ct: nat, quick: nat, slack: nat)
    requires cfg.operationBudget > 0
    ensures LaterStep(cfg, ct, quick) <= Max(ct, cfg.retryAfterCap + RETRY_AFTER_JITTER) + 1 ==>
              LastFailureFits(cfg, ct, quick, slack)
    ensures cfg.maxRetries > 0 && cfg.operationBudget - 1 <= Reach(cfg, ct, quick, slack, cfg.maxRetries - 1) ==>
              (LastFailureFits(cfg, ct, quick, slack)
               <==> LaterStep(cfg, ct, quick) <= Max(ct, cfg.retryAfterCap + RETRY_AFTER_JITTER) + 1)
  {
    hide LaterStep, Reach;
  }

  lemma CeilingHolds(cfg: RetryConfig, ct: nat, quick: nat, slack: nat)
    requires cfg.limitedMaxRetries <= 1
    requires LastFailureFits(cfg, ct, quick, slack) && FirstHangFits(cfg, ct, slack)
    ensures WithinDocumentedCeiling(cfg, ct, quick, slack)
  {
    hide LaterStep, Reach, FirstSleep, RetriesLimited, FinishAfter, RoundsWithin, Continues, Made;
    forall env: Env, n: nat
      | && IsRun(cfg, env, n) && CallsWithin(env, n, ct) && UnlimitedWithin(cfg, env, n, quick)
        && RoundsWithin(env.scale, Min(cfg.baseDelay, cfg.cap), slack)
      ensures n > 0 && FinishAfter(cfg, env, n - 1) - env.started <= DocumentedCeiling(cfg, ct)
    {
      MixedChainBound(cfg, env, n, ct, quick, slack);
    }
  }

  lemma Refutes(cfg: RetryConfig, env: Env, n: nat, ct: nat, quick: nat, slack: nat)
    requires IsRun(cfg, env, n) && CallsWithin(env, n, ct) && UnlimitedWithin(cfg, env, n, quick)
    requires RoundsWithin(env.scale, Min(cfg.baseDelay, cfg.cap), slack)
    requires FinishAfter(cfg, env, n - 1) - env.started > DocumentedCeiling(cfg, ct)
    ensures !WithinDocumentedCeiling(cfg, ct, quick, slack)
  {
    hide FinishAfter, IsRun, UnlimitedWithin;
  }

  /** A first hang that does not fit breaks the ceiling, in every configuration. */
  lemma FirstHangMustFit(cfg: RetryConfig, ct: nat, quick: nat, slack: nat)
    requires WithinDocumentedCeiling(cfg, ct, quick, slack)
    ensures FirstHangFits(cfg, ct, slack)
  {
    hide LongestHonoured, FirstSleep, FinishAfter, IsRun, RetriesLimited, RoundsWithin, WithinDocumentedCeiling;
    if !FirstHangFits(cfg, ct, slack) {
      var env := FirstHangRun(cfg, ct, slack);
      Refutes(cfg, env, 1, ct, quick, slack);
    }
  }

  /**
   The documented ceiling is false in general. Where `Http` is not limited, it holds for every
   environment if and only if the last retried failure and a first hang fit in it.
   */
  lemma DocumentedCeilingIff(cfg: RetryConfig, ct: nat, quick: nat, slack: nat)
    requires cfg.limitedMaxRetries <= 1 && cfg.cap <= LongestHonoured(cfg)
    requires HttpClass !in cfg.limitedRetryClasses
    ensures WithinDocumentedCeiling(cfg, ct, quick, slack)
            <==> LastFailureFits(cfg, ct, quick, slack) && FirstHangFits(cfg, ct, slack)
  {
    hide LongestHonoured, FinishAfter, IsRun, FirstHangFits, RoundsWithin, LatestStart, WithinDocumentedCeiling, LaterStep;
    if LastFailureFits(cfg, ct, quick, slack) && FirstHangFits(cfg, ct, slack) {
      CeilingHolds(cfg, ct, quick, slack);
    } else if !LastFailureFits(cfg, ct, quick, slack) {
      var env, n := LastRetriedRun(cfg, ct, quick, slack);
      Refutes(cfg, env, n, ct, quick, slack);
    } else if WithinDocumentedCeiling(cfg, ct, quick, slack) {
      FirstHangMustFit(cfg, ct, quick, slack);
    }
  }

  /**
   Where `Http` is limited, an unlimited failure never brings a header. When those fit, the ceiling
   stands or falls with the first failure, which can bring the longest one: for whole-second caps it
   holds exactly when the budget covers the smaller documented term.
   */
  lemma LimitedHttpCeilingIff(cfg: RetryConfig, ct: nat, quick: nat, slack: nat)
    requires HttpClass in cfg.limitedRetryClasses && cfg.limitedMaxRetries == 1 && cfg.maxRetries > 0
    requires LastFailureFits(cfg, ct, quick, slack)
    ensures WithinDocumentedCeiling(cfg, ct, quick, slack) <==> ct + FirstSleep(cfg, slack) <= DocumentedCeiling(cfg, ct)
    ensures cfg.cap <= LongestHonoured(cfg) == cfg.retryAfterCap + RETRY_AFTER_JITTER ==>
              (WithinDocumentedCeiling(cfg, ct, quick, slack)
               <==> Min(ct, cfg.retryAfterCap + RETRY_AFTER_JITTER) <= cfg.operationBudget)
  {
    hide LongestHonoured, LastFailureFits, WithinDocumentedCeiling;
    assert RETRYABLE_CLASSES[2] == HttpClass;
    if ct + FirstSleep(cfg, slack) <= DocumentedCeiling(cfg, ct) {
      CeilingHolds(cfg, ct, quick, slack);
    } else if WithinDocumentedCeiling(cfg, ct, quick, slack) {
      FirstHangMustFit(cfg, ct, quick, slack);
    }
  }

  // ---- the shipped configuration ----

  /** As shipped, whatever rounding does: an unlimited failure and 301 s fit in the larger term. */
  lemma ShippedCeilingIff(ct: nat, quick: nat)
    ensures WithinDocumentedCeiling(SHIPPED, ct, quick, MAX_DURATION)
            <==> Min(quick, ct) + FromSecs(301) <= Max(ct, FromSecs(301)) + 1
  {
    hide WithinDocumentedCeiling;
    DocumentedCeilingIff(SHIPPED, ct, quick, MAX_DURATION);
    LastFailureAtTheEnd(SHIPPED, ct, quick, MAX_DURATION);
  }

  /** In particular a throttled response that itself takes the whole client timeout breaks 751 s. */
  lemma ShippedCeilingIsExceeded()
    ensures DocumentedCeiling(SHIPPED, FromSecs(300)) == FromSecs(751)
    ensures !WithinDocumentedCeiling(SHIPPED, FromSecs(300), FromSecs(300), MAX_DURATION)
    ensures WithinDocumentedCeiling(SHIPPED, FromSecs(300), 0, MAX_DURATION)
  {
    hide WithinDocumentedCeiling;
    ShippedCeilingIff(FromSecs(300), FromSecs(300));
    ShippedCeilingIff(FromSecs(300), 0);
  }

  /** The retry count decides too: with one retry 751 s holds, with two and 800 s the ceiling fails. */
  lemma RetriesDecideCeiling()
    ensures WithinDocumentedCeiling(SHIPPED.(maxRetries := 1), FromSecs(300), FromSecs(300), MAX_DURATION)
    ensures !WithinDocumentedCeiling(SHIPPED.(maxRetries := 2, operationBudget := FromSecs(800)),
                                     FromSecs(300), FromSecs(300), MAX_DURATION)
  {
    hide WithinDocumentedCeiling;
    DocumentedCeilingIff(SHIPPED.(maxRetries := 1), FromSecs(300), FromSecs(300), MAX_DURATION);
    DocumentedCeilingIff(SHIPPED.(maxRetries := 2, operationBudget := FromSecs(800)),
                         FromSecs(300), FromSecs(300), MAX_DURATION);
  }
}
