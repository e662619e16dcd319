/** The window the budget should lie in (src/provider.rs): what its floor and its ceiling really buy. */
module RetryWindow {
  import opened Wrappers
  import opened Durations
  import opened ProviderErrors
  import opened RetryAfterHeader
  import opened Backoff
  import opened RetryLoop
  import opened RetryBounds
  import opened RetryLaws
  import opened RetryWitnesses

  const WINDOW_STRICTNESS_MARGIN: Duration := 1_000_000_000

  /** `budget_window`: the half-open range, saturating at the largest duration. */
  function BudgetWindow(clientTimeout: Duration, baseDelay: Duration): (w: (Duration, Duration))
    ensures w.0 <= w.1
    ensures w.0 == Min(clientTimeout + baseDelay + WINDOW_STRICTNESS_MARGIN, MAX_DURATION)
    ensures w.1 == Min(2 * clientTimeout + 2 * baseDelay + WINDOW_STRICTNESS_MARGIN, MAX_DURATION)
  {
    var floor := SaturatingAdd(SaturatingAdd(clientTimeout, baseDelay), WINDOW_STRICTNESS_MARGIN);
    var ceiling := SaturatingAdd(SaturatingAdd(SaturatingMul(clientTimeout, 2), SaturatingMul(baseDelay, 2)),
                                 WINDOW_STRICTNESS_MARGIN);
    (floor, Max(ceiling, floor))
  }

  /** As shipped the window is 302 s to 603 s, and the shipped budget lies in it. */
  lemma ShippedWindow()
    ensures BudgetWindow(FromSecs(300), SHIPPED.baseDelay) == (FromSecs(302), FromSecs(603))
    ensures FromSecs(302) <= SHIPPED.operationBudget == FromSecs(450) < FromSecs(603)
  {
  }

  /** The first call takes at most `ct` and is a retryable failure without a usable header. */
  ghost predicate FirstCallHangs(cfg: RetryConfig, env: Env, ct: nat) {
    && env.calls(0).duration <= ct
    && env.calls(0).outcome.Failure?
    && IsRetryable(env.calls(0).outcome.error)
    && HeaderDecision(cfg, env.calls(0).outcome.error).Absent?
  }

  lemma FirstCheck(cfg: RetryConfig, env: Env, ct: nat, slack: nat)
    requires FirstCallHangs(cfg, env, ct) && cfg.maxRetries >= 1 && cfg.limitedMaxRetries >= 1
    requires RoundsWithin(env.scale, Min(cfg.baseDelay, cfg.cap), slack)
    requires cfg.operationBudget > ct + FirstPause(cfg, slack)
    ensures Made(cfg, env, 1)
  {
    hide HeaderDecision, RoundsWithin, WaitAfter;
    FirstWait(cfg, env, slack);
    NextStart(cfg, env, 0);
    ElapsedAgainstBudget(StartOf(cfg, env, 1), env.started, cfg.operationBudget);
    assert Continues(cfg, env, 0);
  }

  /**
   A budget at or above the floor guarantees the second attempt. The one-second margin absorbs any
   rounding of the pause below a second; the sum must not reach the largest duration.
   */
  lemma FloorGuaranteesSecondAttempt(cfg: RetryConfig, env: Env, ct: Duration)
    requires FirstCallHangs(cfg, env, ct) && cfg.maxRetries >= 1 && cfg.limitedMaxRetries >= 1
    requires RoundsWithin(env.scale, Min(cfg.baseDelay, cfg.cap), WINDOW_STRICTNESS_MARGIN - 1)
    requires ct + cfg.baseDelay + WINDOW_STRICTNESS_MARGIN <= MAX_DURATION
    requires cfg.operationBudget >= BudgetWindow(ct, cfg.baseDelay).0
    ensures Made(cfg, env, 1)
  {
    FirstCheck(cfg, env, ct, WINDOW_STRICTNESS_MARGIN - 1);
  }

  ghost predicate SecondAttemptGuaranteed(cfg: RetryConfig, ct: nat, slack: nat) {
    forall env: Env
      | FirstCallHangs(cfg, env, ct) && RoundsWithin(env.scale, Min(cfg.baseDelay, cfg.cap), slack) ::
      Made(cfg, env, 1)
  }

  /** The exact floor, for any rounding: one nanosecond more than the first attempt and its pause can cost. */
  lemma SecondAttemptIff(cfg: RetryConfig, ct: nat, slack: nat)
    requires cfg.maxRetries >= 1 && cfg.limitedMaxRetries >= 1
    ensures SecondAttemptGuaranteed(cfg, ct, slack) <==> cfg.operationBudget > ct + FirstPause(cfg, slack)
  {
    hide FirstPause, FirstCallHangs, RoundsWithin;
    if cfg.operationBudget > ct + FirstPause(cfg, slack) {
      forall env: Env
        | FirstCallHangs(cfg, env, ct) && RoundsWithin(env.scale, Min(cfg.baseDelay, cfg.cap), slack)
        ensures Made(cfg, env, 1)
      {
        FirstCheck(cfg, env, ct, slack);
      }
    } else {
      var env := LatestFirstCheck(cfg, ct, slack);
    }
  }

  lemma LatestFirstCheck(cfg: RetryConfig, ct: nat, slack: nat) returns (env: Env)
    requires cfg.operationBudget <= ct + FirstPause(cfg, slack)
    ensures FirstCallHangs(cfg, env, ct) && RoundsWithin(env.scale, Min(cfg.baseDelay, cfg.cap), slack)
    ensures !Made(cfg, env, 1)
  {
    hide NearestScale, TopFactor, Sanitize, OvershootScale;
    var pause := Min(cfg.baseDelay, cfg.cap);
    env := Env(0, (k: nat) => Call(ct, Failure(Timeout("")), Finite(TopFactor(pause))), OvershootScaling(pause, slack));
    FirstCeiling(TimeoutClass, cfg.baseDelay, cfg.cap, cfg.flatClasses);
    NextStart(cfg, env, 0);
    assert WaitAfter(cfg, env, 0) == FirstPause(cfg, slack);
    assert !Continues(cfg, env, 0);
  }

  /** Call `k` fails with a header honoured for `asked`; a receipt time lies within the call. */
  ghost predicate HonouredCall(cfg: RetryConfig, env: Env, k: nat, asked: Duration) {
    && env.calls(k).outcome.Failure?
    && HeaderDecision(cfg, env.calls(k).outcome.error) == Honor(asked)
    && env.calls(k).outcome.error.Http?
    && var receivedAt := env.calls(k).outcome.error.receivedAt;
       receivedAt.Some? ==> StartOf(cfg, env, k) <= receivedAt.value <= EndOf(cfg, env, k)
  }

  /** However late the headers came and whatever the jitter, the next call waits at least as asked. */
  lemma HonouredGap(cfg: RetryConfig, env: Env, k: nat, asked: Duration)
    requires HonouredCall(cfg, env, k, asked)
    ensures StartOf(cfg, env, k + 1) >= StartOf(cfg, env, k) + asked
  {
    hide HeaderDecision;
    NextStart(cfg, env, k);
    var receivedAt := env.calls(k).outcome.error.receivedAt;
    if receivedAt.Some? {
      HonouredTiming(cfg, env, k, asked, receivedAt.value);
    }
  }

  /** No run whose first two failures ask for these waits makes a third call. */
  ghost predicate CutBySecondCheck(cfg: RetryConfig, first: Duration, second: Duration) {
    forall env: Env | HonouredCall(cfg, env, 0, first) && HonouredCall(cfg, env, 1, second) :: !Made(cfg, env, 2)
  }

  /** An instant throttled response that draws no jitter. */
  function InstantThrottle(at: nat, seconds: u64): Call {
    Call(0, Failure(Throttled(seconds, Some(at))), Finite(0.0))
  }

  lemma InstantStep(cfg: RetryConfig, env: Env, k: nat, seconds: u64)
    requires 0 < FromSecs(seconds) <= cfg.retryAfterCap
    requires env.calls(k) == InstantThrottle(StartOf(cfg, env, k), seconds)
    ensures HonouredCall(cfg, env, k, FromSecs(seconds))
    ensures k < HttpRetries(cfg) ==> WorthRetrying(cfg, env, k)
    ensures StartOf(cfg, env, k + 1) == StartOf(cfg, env, k) + FromSecs(seconds)
  {
    hide StartOf, HeaderDecision, WorthRetrying, HttpRetries;
    NextStart(cfg, env, k);
    ThrottledIsHonoured(cfg, seconds, Some(StartOf(cfg, env, k)));
    ThrottledStep(cfg, env, k, seconds, 0, 0);
  }

  /**
   What the ceiling of the window is for, exactly: two honoured waits keep every run from a third call
   if and only if the budget is at most their sum. The documented ceiling also counts the time of the
   calls, the pauses and the margin, none of which a throttle has to take.
   */
  lemma CutBySecondCheckIff(cfg: RetryConfig, first: u64, second: u64)
    requires HttpRetries(cfg) >= 2
    requires 0 < FromSecs(first) <= cfg.retryAfterCap && 0 < FromSecs(second) <= cfg.retryAfterCap
    ensures CutBySecondCheck(cfg, FromSecs(first), FromSecs(second))
            <==> cfg.operationBudget <= FromSecs(first) + FromSecs(second)
  {
    hide HeaderDecision, StartOf, WorthRetrying, HttpRetries, HonouredCall, InstantThrottle;
    if cfg.operationBudget <= FromSecs(first) + FromSecs(second) {
      forall env: Env | HonouredCall(cfg, env, 0, FromSecs(first)) && HonouredCall(cfg, env, 1, FromSecs(second))
        ensures !Made(cfg, env, 2)
      {
        StartsFirst(cfg, env);
        HonouredGap(cfg, env, 0, FromSecs(first));
        HonouredGap(cfg, env, 1, FromSecs(second));
        assert !Continues(cfg, env, 1);
      }
    } else {
      var env := Env(0, (k: nat) => if k == 0 then InstantThrottle(0, first)
                                    else InstantThrottle(FromSecs(first), second), NearestScaling());
      StartsFirst(cfg, env);
      InstantStep(cfg, env, 0, first);
      InstantStep(cfg, env, 1, second);
      assert Continues(cfg, env, 0) && Continues(cfg, env, 1);
      assert Made(cfg, env, 2);
    }
  }

  /** A budget inside the documented window can still let the third call through. */
  lemma WindowCeilingOverstates(cfg: RetryConfig)
    requires HttpRetries(cfg) >= 2
    requires cfg.retryAfterCap == FromSecs(300) && cfg.baseDelay == FromSecs(1)
    requires cfg.operationBudget == FromSecs(602)
    ensures cfg.operationBudget < BudgetWindow(FromSecs(300), cfg.baseDelay).1
    ensures !CutBySecondCheck(cfg, FromSecs(300), FromSecs(300))
  {
    CutBySecondCheckIff(cfg, 300, 300);
  }
}
