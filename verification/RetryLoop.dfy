/**
 `RetryProvider::complete` (src/provider.rs) over a scripted world, and the declarative trace it
 refines: which calls happen, when each starts, and which exit ends the run.
 */
module RetryLoop {
  import opened Wrappers
  import opened Durations
  import opened ProviderErrors
  import opened RetryAfterHeader
  import opened Backoff

  datatype RetryConfig = RetryConfig(
    maxRetries: u32,
    baseDelay: Duration,
    cap: Duration,
    retryAfterCap: Duration,
    operationBudget: Duration,
    flatClasses: seq<RetryClass>,
    limitedRetryClasses: seq<RetryClass>,
    limitedMaxRetries: u32)

  const SHIPPED: RetryConfig := RetryConfig(
    3, 1_000_000_000, 60_000_000_000, 300_000_000_000, 450_000_000_000,
    [TimeoutClass, NetworkClass], [TimeoutClass, NetworkClass], 1)

  /** One inner call: how long it takes, what it returns, and the random value drawn after it. */
  datatype Call = Call(duration: nat, outcome: Result<string, ProviderError>, rand: F64)

  /** Everything the loop does not control. Sleeping takes exactly the time asked for. */
  datatype Env = Env(started: nat, calls: nat -> Call, scale: Scaling)

  // ---- the declarative trace ----

  /** How the header of a failure is interpreted; only HTTP failures carry one. */
  function HeaderDecision(cfg: RetryConfig, e: ProviderError): RetryAfter {
    if e.Http? then Decide(e.retryAfterRaw, cfg.retryAfterCap) else Absent
  }

  /** The retries allowed by the class of the failure that just happened. */
  function Limit(cfg: RetryConfig, e: ProviderError): u32 {
    if Classify(e) in cfg.limitedRetryClasses then cfg.limitedMaxRetries else cfg.maxRetries
  }

  /** The part of an honoured request still ahead, discounting the time since the headers came in. */
  function HonouredWait(cfg: RetryConfig, e: ProviderError, now: nat): Option<Duration> {
    match HeaderDecision(cfg, e)
    case Honor(asked) =>
      Some(if e.receivedAt.Some? then SaturatingSub(asked, Elapsed(now, e.receivedAt.value)) else asked)
    case _ => None
  }

  /** When call `k` starts, if it happens; also when the check before it reads the clock. */
  function StartOf(cfg: RetryConfig, env: Env, k: nat): nat
    decreases k, 0
  {
    if k == 0 then env.started else EndOf(cfg, env, k - 1) + WaitAfter(cfg, env, k - 1)
  }

  function EndOf(cfg: RetryConfig, env: Env, k: nat): nat
    decreases k, 1
  {
    StartOf(cfg, env, k) + env.calls(k).duration
  }

  /** The sleep that follows failure `k`, when there is one. */
  function WaitAfter(cfg: RetryConfig, env: Env, k: nat): Duration
    decreases k, 2
  {
    match env.calls(k).outcome
    case Success(_) => 0
    case Failure(e) =>
      NextBackoff(k, Classify(e), cfg.baseDelay, cfg.cap, cfg.flatClasses,
                  HonouredWait(cfg, e, EndOf(cfg, env, k)), env.calls(k).rand, env.scale)
  }

  function ElapsedBefore(cfg: RetryConfig, env: Env, k: nat): Duration {
    Elapsed(StartOf(cfg, env, k), env.started)
  }

  /** Failure `k` is worth another attempt: everything but the budget allows one. */
  ghost predicate WorthRetrying(cfg: RetryConfig, env: Env, k: nat) {
    match env.calls(k).outcome
    case Success(_) => false
    case Failure(e) =>
      && IsRetryable(e)
      && k < cfg.maxRetries
      && k < Limit(cfg, e)
      && !HeaderDecision(cfg, e).TooLong?
      && !HeaderDecision(cfg, e).Unintelligible?
  }

  /** Call `k`, if made, is followed by call `k + 1`. */
  ghost predicate Continues(cfg: RetryConfig, env: Env, k: nat) {
    WorthRetrying(cfg, env, k) && ElapsedBefore(cfg, env, k + 1) < cfg.operationBudget
  }

  ghost predicate Made(cfg: RetryConfig, env: Env, k: nat) {
    forall j: nat | j < k :: Continues(cfg, env, j)
  }

  /** The run makes exactly `n` inner calls. */
  ghost predicate IsRun(cfg: RetryConfig, env: Env, n: nat) {
    n > 0 && Made(cfg, env, n - 1) && !Continues(cfg, env, n - 1)
  }

  /** What the run returns when call `k` is its last. */
  function ResultAfter(cfg: RetryConfig, env: Env, k: nat): Result<string, ProviderError>
    requires k <= cfg.maxRetries
  {
    match env.calls(k).outcome
    case Success(text) => Success(text)
    case Failure(e) =>
      if !IsRetryable(e) || k == cfg.maxRetries then Failure(e)
      else
        match HeaderDecision(cfg, e)
        case TooLong(requested) =>
          Failure(Abandon(Some(e), RetryAfterTooLong(requested, cfg.retryAfterCap), k + 1))
        case Unintelligible(raw) => Failure(Abandon(Some(e), RetryAfterUnintelligible(raw), k + 1))
        case _ =>
          if k >= Limit(cfg, e) then Failure(e)
          else
            Failure(Abandon(Some(e),
                            OperationBudgetExhausted(ElapsedBefore(cfg, env, k + 1), cfg.operationBudget), k + 1))
  }

  /** When the run returns if call `k` is its last: only the budget exit sleeps first. */
  ghost function FinishAfter(cfg: RetryConfig, env: Env, k: nat): nat
  {
    if WorthRetrying(cfg, env, k) then StartOf(cfg, env, k + 1) else EndOf(cfg, env, k)
  }

  /** Every environment has exactly one run, of 1 to `maxRetries + 1` calls. */
  lemma {:induction false} RunExists(cfg: RetryConfig, env: Env, k: nat) returns (n: nat)
    requires k <= cfg.maxRetries && Made(cfg, env, k)
    ensures IsRun(cfg, env, n) && n <= cfg.maxRetries + 1
    decreases cfg.maxRetries - k
  {
    if Continues(cfg, env, k) {
      n := RunExists(cfg, env, k + 1);
    } else {
      n := k + 1;
    }
  }

  lemma RunUnique(cfg: RetryConfig, env: Env, m: nat, n: nat)
    requires IsRun(cfg, env, m) && IsRun(cfg, env, n)
    ensures m == n && n <= cfg.maxRetries + 1
  {
    var i: nat, j: nat := m - 1, n - 1;
    assert i < j ==> Continues(cfg, env, i);
    assert j < i ==> Continues(cfg, env, j);
    assert n > 1 ==> Continues(cfg, env, n - 2);
  }

  // ---- the loop ----

  /** The interpretation of a failure's header, done where the configured cap is known. */
  method InterpretHeader(cfg: RetryConfig, err: ProviderError, now: nat)
    returns (retryAfter: Option<Duration>, abandonment: Option<AbandonReason>)
    ensures retryAfter == HonouredWait(cfg, err, now)
    ensures abandonment ==
            match HeaderDecision(cfg, err)
            case TooLong(requested) => Some(RetryAfterTooLong(requested, cfg.retryAfterCap))
            case Unintelligible(raw) => Some(RetryAfterUnintelligible(raw))
            case _ => None
  {
    retryAfter, abandonment := None, None;
    if err.Http? {
      var decision := ParseRetryAfter(err.retryAfterRaw, cfg.retryAfterCap);
      match decision {
        case Absent =>
        case Honor(asked) =>
          match err.receivedAt {
            case Some(t) => retryAfter := Some(SaturatingSub(asked, Elapsed(now, t)));
            case None => retryAfter := Some(asked);
          }
        case TooLong(requested) => abandonment := Some(RetryAfterTooLong(requested, cfg.retryAfterCap));
        case Unintelligible(raw) => abandonment := Some(RetryAfterUnintelligible(raw));
      }
    }
  }

  /** How one attempt leaves the loop body. */
  datatype Step =
    | Returned(result: Result<string, ProviderError>)
    | CapReached(error: ProviderError)
    | Pause(error: ProviderError, wait: Duration)

  /** The loop body from the inner call to the sleep. */
  method Attempt(cfg: RetryConfig, env: Env, attempt: u32, started: nat) returns (step: Step, now: nat)
    requires attempt <= cfg.maxRetries && started == StartOf(cfg, env, attempt)
    ensures now == EndOf(cfg, env, attempt)
    ensures step.Pause? <==> WorthRetrying(cfg, env, attempt)
    ensures !step.Returned? ==> env.calls(attempt).outcome == Failure(step.error)
    ensures step.Pause? ==> step.wait == WaitAfter(cfg, env, attempt)
    ensures step.Returned? ==> step.result == ResultAfter(cfg, env, attempt)
    ensures step.CapReached? ==> ResultAfter(cfg, env, attempt) == Failure(step.error)
  {
    var call := env.calls(attempt);
    now := started + call.duration;
    if call.outcome.Success? {
      return Returned(call.outcome), now;
    }
    var err := call.outcome.error;

    if !IsRetryable(err) || attempt == cfg.maxRetries {
      return Returned(Failure(err)), now;
    }

    var retryAfter, abandonment := InterpretHeader(cfg, err, now);
    if abandonment.Some? {
      return Returned(Failure(Abandon(Some(err), abandonment.value, attempt + 1))), now;
    }

    var limit := if Classify(err) in cfg.limitedRetryClasses then cfg.limitedMaxRetries else cfg.maxRetries;
    if attempt >= limit {
      return CapReached(err), now;
    }

    var wait := NextBackoff(attempt, Classify(err), cfg.baseDelay, cfg.cap, cfg.flatClasses,
                            retryAfter, call.rand, env.scale);
    return Pause(err, wait), now;
  }

  /** `n` calls were made, and only the budget check stands between the last failure and another. */
  ghost predicate Pending(cfg: RetryConfig, env: Env, n: nat, last: Option<ProviderError>) {
    && n > 0
    && Made(cfg, env, n - 1)
    && WorthRetrying(cfg, env, n - 1)
    && last == Some(env.calls(n - 1).outcome.error)
  }

  /** The run makes exactly `n` calls and returns `r` at time `finish`. */
  ghost predicate Ends(cfg: RetryConfig, env: Env, n: nat, r: Result<string, ProviderError>, finish: nat) {
    && IsRun(cfg, env, n)
    && n <= cfg.maxRetries + 1
    && r == ResultAfter(cfg, env, n - 1)
    && finish == FinishAfter(cfg, env, n - 1)
  }

  lemma CheckPassed(cfg: RetryConfig, env: Env, n: nat, last: Option<ProviderError>, now: nat)
    requires Pending(cfg, env, n, last) && now == StartOf(cfg, env, n)
    requires Elapsed(now, env.started) < cfg.operationBudget
    ensures Made(cfg, env, n)
  {
  }

  lemma CheckFailed(cfg: RetryConfig, env: Env, n: nat, last: Option<ProviderError>, now: nat)
    requires Pending(cfg, env, n, last) && now == StartOf(cfg, env, n)
    requires Elapsed(now, env.started) >= cfg.operationBudget
    ensures last.Some? && n <= cfg.maxRetries
    ensures Ends(cfg, env, n,
                 Failure(Abandon(last, OperationBudgetExhausted(Elapsed(now, env.started), cfg.operationBudget), n)),
                 now)
  {
  }

  lemma NotWorthRetrying(cfg: RetryConfig, env: Env, k: nat, r: Result<string, ProviderError>, now: nat)
    requires Made(cfg, env, k) && !WorthRetrying(cfg, env, k) && k <= cfg.maxRetries
    requires r == ResultAfter(cfg, env, k) && now == EndOf(cfg, env, k)
    ensures Ends(cfg, env, k + 1, r, now)
  {
  }

  lemma WaitOver(cfg: RetryConfig, env: Env, k: nat, last: Option<ProviderError>)
    requires Made(cfg, env, k) && WorthRetrying(cfg, env, k) && last == Some(env.calls(k).outcome.error)
    ensures Pending(cfg, env, k + 1, last)
    ensures StartOf(cfg, env, k + 1) == EndOf(cfg, env, k) + WaitAfter(cfg, env, k)
    ensures k + 1 <= cfg.maxRetries
  {
  }

  method Complete(cfg: RetryConfig, env: Env)
    returns (r: Result<string, ProviderError>, calls: nat, finish: nat)
    ensures Ends(cfg, env, calls, r, finish)
  {
    var now := env.started;
    var lastError: Option<ProviderError> := None;
    calls := 0;

    var attempt: nat := 0;
    while attempt <= cfg.maxRetries
      invariant calls == attempt <= cfg.maxRetries
      invariant now == StartOf(cfg, env, attempt)
      invariant attempt == 0 || Pending(cfg, env, attempt, lastError)
      decreases cfg.maxRetries + 1 - attempt
    {
      if attempt > 0 {
        var elapsed := Elapsed(now, env.started);
        if elapsed >= cfg.operationBudget {
          CheckFailed(cfg, env, attempt, lastError, now);
          var reason := OperationBudgetExhausted(elapsed, cfg.operationBudget);
          // the original error is always there, so the abandonment never falls back
          assert lastError.Some?;
          return Failure(Abandon(lastError, reason, attempt)), calls, now;
        }
        CheckPassed(cfg, env, attempt, lastError, now);
      }

      var step;
      step, now := Attempt(cfg, env, attempt, now);
      calls := calls + 1;
      if step.Returned? {
        NotWorthRetrying(cfg, env, attempt, step.result, now);
        return step.result, calls, now;
      }
      lastError := Some(step.error);
      if step.CapReached? {
        NotWorthRetrying(cfg, env, attempt, Failure(step.error), now);
        break;
      }
      WaitOver(cfg, env, attempt, lastError);
      now := now + step.wait;
      attempt := attempt + 1;
    }

    // the loop is only left with the last failure recorded: the fallback below is never taken
    assert lastError.Some?;
    r := Failure(match lastError
                 case Some(e) => e
                 case None => Network("retry loop ended without an attempt"));
    finish := now;
  }
}
