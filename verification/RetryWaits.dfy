/** What a run looks like from outside: how long it waits, what it retries, and why it says it stopped. */
module RetryWaits {
  import opened Wrappers
  import opened Durations
  import opened Text
  import opened ProviderErrors
  import opened RetryAfterHeader
  import opened Backoff
  import opened RetryLoop
  import opened RetryBounds

  // ---- how long ----

  /** The retry index and the draw reach the formula: the exact pause after failure `k`, for any rounding. */
  lemma FormulaPause(cfg: RetryConfig, env: Env, k: nat, v: real)
    requires env.calls(k).outcome.Failure? && env.calls(k).rand == Finite(v) && 0.0 <= v <= 1.0
    requires !HeaderDecision(cfg, env.calls(k).outcome.error).Honor?
    ensures var longest := FormulaCeiling(k, Classify(env.calls(k).outcome.error), cfg.baseDelay, cfg.cap, cfg.flatClasses);
            var scaled := env.scale(longest, v);
            StartOf(cfg, env, k + 1) - EndOf(cfg, env, k)
            == if scaled.Some? then Min(scaled.value, cfg.cap) else longest
  {
    hide HeaderDecision, StartOf, EndOf, FormulaCeiling;
    NextStart(cfg, env, k);
  }

  /** With a full draw and exact scaling the pause is the formula itself: base, twice that, four times that. */
  lemma FullPause(cfg: RetryConfig, env: Env, k: nat)
    requires env.calls(k).outcome.Failure? && env.calls(k).rand == Finite(1.0)
    requires !HeaderDecision(cfg, env.calls(k).outcome.error).Honor?
    requires forall d: Duration :: env.scale(d, 1.0) == Some(d)
    ensures StartOf(cfg, env, k + 1) - EndOf(cfg, env, k)
            == if Classify(env.calls(k).outcome.error) in cfg.flatClasses then Min(cfg.baseDelay, cfg.cap)
               else Min(cfg.baseDelay * Pow2(Min(k, 31)), cfg.cap)
  {
    hide HeaderDecision, StartOf, EndOf, Pow2;
    FormulaPause(cfg, env, k, 1.0);
  }

  /** The exact pause after an honoured header: what is left of the request, plus the scaled jitter. */
  lemma HonouredPause(cfg: RetryConfig, env: Env, k: nat, asked: Duration, v: real)
    requires env.calls(k).outcome.Failure? && env.calls(k).rand == Finite(v) && 0.0 <= v <= 1.0
    requires HeaderDecision(cfg, env.calls(k).outcome.error) == Honor(asked)
    ensures env.calls(k).outcome.error.Http?
    ensures var receivedAt := env.calls(k).outcome.error.receivedAt;
            var passed := if receivedAt.Some? then Max(EndOf(cfg, env, k) - receivedAt.value, 0) else 0;
            StartOf(cfg, env, k + 1) - EndOf(cfg, env, k)
            == Min(Max(asked - passed, 0) + env.scale(RETRY_AFTER_JITTER, v).value, MAX_DURATION)
  {
    hide StartOf, EndOf, Decide;
    NextStart(cfg, env, k);
  }

  // ---- what is retried ----

  /** Which first failures get a second call when nothing else stands in the way. */
  lemma RetriedFailures(cfg: RetryConfig, env: Env)
    requires env.calls(0).outcome.Failure? && cfg.maxRetries > 0 && cfg.limitedMaxRetries > 0
    requires env.calls(0).outcome.error.Http? ==> env.calls(0).outcome.error.retryAfterRaw == []
    requires StartOf(cfg, env, 1) < env.started + cfg.operationBudget
    ensures var e := env.calls(0).outcome.error;
            Made(cfg, env, 1) <==>
            || e.Timeout? || e.Network?
            || (e.Http? && (|| e.status == 408 || e.status == 429 || e.status == 500 || e.status == 502
                            || e.status == 503 || e.status == 504 || e.status == 529))
            || (e.External? && (|| e.kind.ExternalNetwork? || e.kind.ExternalTimeout?
                                || e.kind.RateLimit? || e.kind.ServerError?))
            || (e.ResponseContract? && e.cause.Unreadable?)
  {
    hide StartOf;
    var e := env.calls(0).outcome.error;
    if e.Http? {
      StatusesRetried(e.status);
    }
    assert HeaderDecision(cfg, e).Absent?;
    StartsAfter(cfg, env, 1);
    assert WorthRetrying(cfg, env, 0) <==> IsRetryable(e);
    assert Made(cfg, env, 1) <==> Continues(cfg, env, 0);
  }

  lemma StatusesRetried(status: nat)
    ensures status in TRANSIENT_STATUSES
            <==> status == 408 || status == 429 || status == 500 || status == 502 || status == 503 || status == 504 || status == 529
  {
    assert TRANSIENT_STATUSES[0] == 408 && TRANSIENT_STATUSES[1] == 429 && TRANSIENT_STATUSES[2] == 500;
    assert TRANSIENT_STATUSES[3] == 502 && TRANSIENT_STATUSES[4] == 503 && TRANSIENT_STATUSES[5] == 504;
    assert TRANSIENT_STATUSES[6] == 529;
  }

  /** As shipped, a server that stays down is called four times, one, two and four seconds apart. */
  lemma ShippedServerDown(env: Env)
    requires forall k: nat | k < 4 :: env.calls(k) == Call(0, Failure(Http(503, "", [], None)), Finite(1.0))
    requires forall d: Duration :: env.scale(d, 1.0) == Some(d)
    ensures IsRun(SHIPPED, env, 4)
    ensures StartOf(SHIPPED, env, 1) == env.started + FromSecs(1)
    ensures StartOf(SHIPPED, env, 2) == env.started + FromSecs(3)
    ensures StartOf(SHIPPED, env, 3) == env.started + FromSecs(7) == FinishAfter(SHIPPED, env, 3)
    ensures ResultAfter(SHIPPED, env, 3) == Failure(Http(503, "", [], None))
  {
    hide StartOf, EndOf, WaitAfter;
    StatusesRetried(503);
    StartsFirst(SHIPPED, env);
    SmallPowers();
    forall k: nat | k < 4
      ensures StartOf(SHIPPED, env, k + 1)
              == StartOf(SHIPPED, env, k) + Min(SHIPPED.baseDelay * Pow2(Min(k, 31)), SHIPPED.cap)
    {
      NextStart(SHIPPED, env, k);
      FullPause(SHIPPED, env, k);
    }
    assert StartOf(SHIPPED, env, 0 + 1) == env.started + FromSecs(1);
    assert StartOf(SHIPPED, env, 1 + 1) == env.started + FromSecs(3);
    assert StartOf(SHIPPED, env, 2 + 1) == env.started + FromSecs(7);
    assert Continues(SHIPPED, env, 0) && Continues(SHIPPED, env, 1) && Continues(SHIPPED, env, 2);
    NextStart(SHIPPED, env, 3);
  }

  lemma SmallPowers()
    ensures Pow2(0) == 1 && Pow2(1) == 2 && Pow2(2) == 4 && Pow2(3) == 8
    ensures Pow2(5) == 32 && Pow2(6) == 64
  {
    assert Pow2(4) == 16;
  }

  /** With more retries the shipped pauses would double up to 32 s and stay at 60 s from the seventh on. */
  lemma ShippedPausesLevelOff(k: nat)
    ensures FormulaCeiling(5, HttpClass, SHIPPED.baseDelay, SHIPPED.cap, SHIPPED.flatClasses) == FromSecs(32)
    ensures k >= 6 ==> FormulaCeiling(k, HttpClass, SHIPPED.baseDelay, SHIPPED.cap, SHIPPED.flatClasses) == FromSecs(60)
  {
    hide Pow2;
    SmallPowers();
    if k >= 6 {
      Pow2Monotone(6, Min(k, 31));
    }
  }

  /** As shipped, an endpoint that hangs is called twice, one second apart at most. */
  lemma ShippedHang(env: Env, ct: nat)
    requires ct <= FromSecs(300)
    requires forall k: nat | k < 2 :: env.calls(k) == Call(ct, Failure(Timeout("")), Finite(1.0))
    requires forall d: Duration :: env.scale(d, 1.0) == Some(d)
    ensures IsRun(SHIPPED, env, 2)
    ensures StartOf(SHIPPED, env, 1) == env.started + ct + FromSecs(1)
    ensures FinishAfter(SHIPPED, env, 1) == env.started + 2 * ct + FromSecs(1)
    ensures ResultAfter(SHIPPED, env, 1) == Failure(Timeout(""))
  {
    hide StartOf, EndOf, WaitAfter, Pow2;
    StartsFirst(SHIPPED, env);
    NextStart(SHIPPED, env, 0);
    NextStart(SHIPPED, env, 1);
    assert SHIPPED.flatClasses[0] == TimeoutClass && SHIPPED.limitedRetryClasses[0] == TimeoutClass;
    FullPause(SHIPPED, env, 0);
    assert StartOf(SHIPPED, env, 0 + 1) == env.started + ct + FromSecs(1);
    assert Continues(SHIPPED, env, 0);
  }

  // ---- why it stopped ----

  /** The run gave up on a failure that another attempt might have cured, and that condemns the endpoint. */
  ghost predicate StoppedOnRetryable(cfg: RetryConfig, env: Env, n: nat, e: ProviderError) {
    && n > 0 && env.calls(n - 1).outcome == Failure(e)
    && IsRetryable(e) && !IsMageLocal(e) && n - 1 < cfg.maxRetries
  }

  /**
   The reason given, in terms of the header itself: the first readable value when it is above the cap, the
   joined values when none reads, both before the class is looked at; then the class; then the budget,
   with the time the whole run took.
   */
  lemma ReasonGiven(cfg: RetryConfig, env: Env, n: nat, r: Result<string, ProviderError>, finish: nat, e: ProviderError)
    requires Ends(cfg, env, n, r, finish) && StoppedOnRetryable(cfg, env, n, e)
    ensures e.Http? && cfg.retryAfterCap > 0 ==>
              forall i: nat, m: u64 | FirstReading(e.retryAfterRaw, i, m) && FromSecs(m) > cfg.retryAfterCap ::
                r == Failure(RetryAbandoned(RetryAfterTooLong(FromSecs(m), cfg.retryAfterCap), n))
    ensures e.Http? && cfg.retryAfterCap > 0 && e.retryAfterRaw != [] && NothingReads(e.retryAfterRaw) ==>
              r == Failure(RetryAbandoned(RetryAfterUnintelligible(Join(e.retryAfterRaw, ", ")), n))
    ensures !HeaderDecision(cfg, e).TooLong? && !HeaderDecision(cfg, e).Unintelligible? ==>
              var limit := if Classify(e) in cfg.limitedRetryClasses then cfg.limitedMaxRetries else cfg.maxRetries;
              if n - 1 >= limit then r == Failure(e)
              else
                && finish >= env.started + cfg.operationBudget
                && r == Failure(RetryAbandoned(
                                  OperationBudgetExhausted(Min(finish - env.started, MAX_DURATION), cfg.operationBudget), n))
  {
    hide Decide, StartOf, FirstReading, NothingReads, Join;
    StartsAfter(cfg, env, n);
    if e.Http? {
      DecisionMeaning(e.retryAfterRaw, cfg.retryAfterCap);
    }
  }
}
