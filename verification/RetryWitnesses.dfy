/**
 Worlds that attain the bounds: a rounding that the platform may well have, throttled responses that
 record when they arrived, and a run whose honoured waits hit any given instant exactly.
 */
module RetryWitnesses {
  import opened Wrappers
  import opened Durations
  import opened Text
  import opened ProviderErrors
  import opened RetryAfterHeader
  import opened Backoff
  import opened RetryLoop
  import opened RetryBounds

  // ---- rounding to the nearest nanosecond ----

  /** A real factor applied to a duration, with the bounds the model needs and nothing else. */
  ghost predicate IsProduct(p: real, f: real, d: nat) {
    && p == f * d as real
    && 0.0 <= p <= d as real
    && (f == 0.0 ==> p == 0.0)
  }

  lemma ScaledDown(f: real, d: nat)
    requires 0.0 <= f <= 1.0
    ensures IsProduct(f * d as real, f, d)
  {
  }

  function Nearest(p: real, ghost f: real, d: nat): (n: nat)
    requires IsProduct(p, f, d)
    ensures n <= d && n == (p + 0.5).Floor
    ensures f == 0.0 ==> n == 0
  {
    (p + 0.5).Floor
  }

  /** Real multiplication, rounded to the nearest whole nanosecond. */
  function NearestScale(d: Duration, f: real): (scaled: Option<Duration>)
    ensures scaled.Some? <==> 0.0 <= f <= 1.0
    ensures scaled.Some? ==> scaled.value <= d
    ensures f == 0.0 ==> scaled == Some(0)
  {
    if 0.0 <= f <= 1.0 then
      ScaledDown(f, d);
      Some(Nearest(f * d as real, f, d))
    else None
  }

  ghost function NearestScaling(): (scale: Scaling)
    ensures forall d: Duration, f: real :: scale(d, f) == NearestScale(d, f)
    ensures forall d: Duration :: RoundsWithin(scale, d, 0)
  {
    hide NearestScale;
    (d: Duration, f: real) => NearestScale(d, f)
  }

  lemma Quotient(x: real, d: real)
    requires 0.0 <= x < d
    ensures 0.0 <= x / d < 1.0
    ensures x > 0.0 ==> x / d > 0.0
    ensures (x / d) * d == x
  {
  }

  /** A random value, as the generator draws them, whose product with `d` rounds to `j`. */
  function FactorFor(j: nat, d: nat): (f: real)
    requires j <= d
    ensures 0.0 <= f < 1.0
    ensures j == 0 <==> f == 0.0
    ensures j > 0 ==> f * d as real == j as real - 0.25
  {
    if j == 0 then 0.0 else
      Quotient(j as real - 0.25, d as real);
      (j as real - 0.25) / d as real
  }

  /** Every whole number of nanoseconds is reached, the upper end included, by a factor below one. */
  lemma EveryJitterIsDrawn(j: nat, d: Duration)
    requires j <= d
    ensures NearestScale(d, Sanitize(Finite(FactorFor(j, d)))) == Some(j)
  {
    hide FactorFor, Sanitize;
    var f := FactorFor(j, d);
    if j > 0 {
      NearestOf(f, d, j);
    }
  }

  lemma NearestOf(f: real, d: Duration, j: nat)
    requires 0.0 <= f <= 1.0 && f * d as real == j as real - 0.25
    ensures NearestScale(d, f) == Some(j)
  {
    hide IsProduct;
    ScaledDown(f, d);
    var p := j as real - 0.25;
    assert IsProduct(p, f, d);
    assert Nearest(p, f, d) == j;
  }

  // ---- one pause that rounds up ----

  /** A random value that brings the whole of `d`. */
  function TopFactor(d: nat): (f: real)
    ensures 0.0 < f < 1.0
  {
    if d == 0 then 0.5 else FactorFor(d, d)
  }

  /** `p` at that value comes out `slack` too long, unless it is one second; all else rounds to nearest. */
  function OvershootScale(p: Duration, slack: nat, d: Duration, f: real): Option<Duration> {
    if d == p && p != RETRY_AFTER_JITTER && f == TopFactor(p) then Some(Min(p + slack, MAX_DURATION))
    else NearestScale(d, f)
  }

  ghost function OvershootScaling(p: Duration, slack: nat): (scale: Scaling)
    ensures RoundsWithin(scale, p, slack)
    ensures forall f: real :: scale(RETRY_AFTER_JITTER, f) == NearestScale(RETRY_AFTER_JITTER, f)
    ensures scale(p, Sanitize(Finite(TopFactor(p)))) == Some(if p == RETRY_AFTER_JITTER then p else Min(p + slack, MAX_DURATION))
  {
    hide NearestScale, TopFactor, FactorFor;
    TopOfOneSecond();
    (d: Duration, f: real) => OvershootScale(p, slack, d, f)
  }

  lemma TopOfOneSecond()
    ensures NearestScale(RETRY_AFTER_JITTER, TopFactor(RETRY_AFTER_JITTER)) == Some(RETRY_AFTER_JITTER)
  {
    hide NearestScale, FactorFor;
    EveryJitterIsDrawn(RETRY_AFTER_JITTER, RETRY_AFTER_JITTER);
  }

  // ---- honoured throttles ----

  /** A throttled response asking for `seconds`, with the receipt time the providers record. */
  function Throttled(seconds: u64, receivedAt: Option<nat>): ProviderError {
    Http(429, "", [Decimal(seconds)], receivedAt)
  }

  /** The retries a throttled response gets. */
  function HttpRetries(cfg: RetryConfig): u32 {
    if HttpClass in cfg.limitedRetryClasses then Min(cfg.limitedMaxRetries, cfg.maxRetries) else cfg.maxRetries
  }

  lemma ThrottledIsHonoured(cfg: RetryConfig, seconds: u64, receivedAt: Option<nat>)
    requires 0 < FromSecs(seconds) <= cfg.retryAfterCap
    ensures IsRetryable(Throttled(seconds, receivedAt))
    ensures Classify(Throttled(seconds, receivedAt)) == HttpClass
    ensures HeaderDecision(cfg, Throttled(seconds, receivedAt)) == Honor(FromSecs(seconds))
  {
    DecimalReads(seconds);
    FirstReadableIs([Decimal(seconds)], 0);
    assert 429 == TRANSIENT_STATUSES[1];
  }

  /** Call `k` is throttled, `early` after its headers arrived, and the jitter drawn is `jitter`. */
  ghost predicate ThrottledCall(cfg: RetryConfig, env: Env, k: nat, seconds: u64, early: nat, jitter: Duration) {
    && early <= FromSecs(seconds) && early <= EndOf(cfg, env, k)
    && 0 < FromSecs(seconds) <= cfg.retryAfterCap
    && env.calls(k).outcome == Failure(Throttled(seconds, Some(EndOf(cfg, env, k) - early)))
    && env.scale(RETRY_AFTER_JITTER, Sanitize(env.calls(k).rand)) == Some(jitter)
  }

  lemma ThrottledStep(cfg: RetryConfig, env: Env, k: nat, seconds: u64, early: nat, jitter: Duration)
    requires ThrottledCall(cfg, env, k, seconds, early, jitter)
    ensures k < HttpRetries(cfg) ==> WorthRetrying(cfg, env, k)
    ensures StartOf(cfg, env, k + 1) == EndOf(cfg, env, k) + SaturatingAdd(FromSecs(seconds) - early, jitter)
  {
    hide HeaderDecision, StartOf, EndOf;
    ThrottledIsHonoured(cfg, seconds, Some(EndOf(cfg, env, k) - early));
    NextStart(cfg, env, k);
  }

  /** A server error without a header. */
  const UNAVAILABLE: ProviderError := Http(503, "", [], None)

  lemma UnavailableStep(cfg: RetryConfig, env: Env, k: nat)
    requires env.calls(k).outcome == Failure(UNAVAILABLE) && env.calls(k).rand == Finite(0.0)
    ensures k < HttpRetries(cfg) ==> WorthRetrying(cfg, env, k)
    ensures StartOf(cfg, env, k + 1) == EndOf(cfg, env, k)
  {
    hide StartOf, EndOf;
    assert 503 == TRANSIENT_STATUSES[4];
    NextStart(cfg, env, k);
  }

  // ---- failures that cost a given time ----

  /** The whole seconds asked for, to obtain a given positive wait. */
  function HeaderPart(cfg: RetryConfig, wait: nat): (seconds: u64)
    requires 0 < wait <= LongestHonoured(cfg)
    ensures 0 < FromSecs(seconds) <= cfg.retryAfterCap
    ensures wait - RETRY_AFTER_JITTER <= FromSecs(seconds) <= Max(wait, NANOS_PER_SEC)
  {
    Max(1, Min(AsSecs(wait), AsSecs(cfg.retryAfterCap)))
  }

  /** No witness starts before its clock shows this, so that headers can predate their call's end. */
  const EPOCH: nat := NANOS_PER_SEC

  /**
   An `Http` failure that takes `slow` and is followed by exactly `wait`. The headers arrive as it ends,
   or so much earlier that less than a second of what they ask for is left.
   */
  function PlannedCall(cfg: RetryConfig, at: nat, slow: nat, wait: nat): Call
    requires wait <= LongestHonoured(cfg) && EPOCH <= at
  {
    if wait == 0 then Call(slow, Failure(UNAVAILABLE), Finite(0.0))
    else
      var seconds := HeaderPart(cfg, wait);
      var early := Max(FromSecs(seconds) - wait, 0);
      Call(slow, Failure(Throttled(seconds, Some(at + slow - early))),
           Finite(FactorFor(wait - (FromSecs(seconds) - early), RETRY_AFTER_JITTER)))
  }

  ghost predicate JitterRoundsToNearest(env: Env) {
    forall f: real :: env.scale(RETRY_AFTER_JITTER, f) == NearestScale(RETRY_AFTER_JITTER, f)
  }

  lemma PlannedStep(cfg: RetryConfig, env: Env, k: nat, slow: nat, wait: nat)
    requires wait <= LongestHonoured(cfg) && EPOCH <= StartOf(cfg, env, k)
    requires env.calls(k) == PlannedCall(cfg, StartOf(cfg, env, k), slow, wait)
    requires JitterRoundsToNearest(env)
    ensures k < HttpRetries(cfg) ==> WorthRetrying(cfg, env, k)
    ensures StartOf(cfg, env, k + 1) == StartOf(cfg, env, k) + slow + wait
    ensures env.calls(k).duration == slow
  {
    hide StartOf, EndOf, WaitAfter, WorthRetrying, HttpRetries, NearestScale, FactorFor, Sanitize;
    hide HeaderPart, LongestHonoured, Throttled, HeaderDecision;
    NextStart(cfg, env, k);
    if wait == 0 {
      UnavailableStep(cfg, env, k);
    } else {
      var seconds := HeaderPart(cfg, wait);
      var early := Max(FromSecs(seconds) - wait, 0);
      var jitter := wait - (FromSecs(seconds) - early);
      EveryJitterIsDrawn(jitter, RETRY_AFTER_JITTER);
      ThrottledStep(cfg, env, k, seconds, early, jitter);
    }
  }

  // ---- timetables ----

  /** From entry `from` on, calls can start at these times after the epoch if each takes at most `slow`. */
  predicate Timetable(cfg: RetryConfig, times: seq<nat>, slow: nat, from: nat) {
    && from < |times|
    && forall i | from <= i < |times| - 1 :: times[i] <= times[i + 1] <= times[i] + slow + LongestHonoured(cfg)
  }

  /** The failure that fills the time between two entries, sleeping rather than working. */
  function TimetableCall(cfg: RetryConfig, times: seq<nat>, slow: nat, from: nat, i: nat): Call
    requires Timetable(cfg, times, slow, from) && from <= i < |times| - 1
  {
    var step := times[i + 1] - times[i];
    var wait := Min(step, LongestHonoured(cfg));
    PlannedCall(cfg, EPOCH + times[i], step - wait, wait)
  }

  ghost predicate Follows(cfg: RetryConfig, env: Env, times: seq<nat>, slow: nat, from: nat)
    requires Timetable(cfg, times, slow, from)
  {
    && env.started == EPOCH
    && JitterRoundsToNearest(env)
    && StartOf(cfg, env, from) == EPOCH + times[from]
    && forall i: nat | from <= i < |times| - 1 :: env.calls(i) == TimetableCall(cfg, times, slow, from, i)
  }

  lemma {:induction false} TimetableKept(cfg: RetryConfig, env: Env, times: seq<nat>, slow: nat, from: nat, i: nat)
    requires Timetable(cfg, times, slow, from) && Follows(cfg, env, times, slow, from)
    requires from <= i < |times|
    ensures StartOf(cfg, env, i) == EPOCH + times[i]
    ensures forall j: nat | from <= j < i && j < HttpRetries(cfg) :: WorthRetrying(cfg, env, j)
    ensures forall j: nat | from <= j < i :: env.calls(j).duration <= slow
  {
    hide LongestHonoured, WorthRetrying, HttpRetries, PlannedCall, NearestScale, StartOf;
    if i > from {
      TimetableKept(cfg, env, times, slow, from, i - 1);
      var step := times[i] - times[i - 1];
      var wait := Min(step, LongestHonoured(cfg));
      PlannedStep(cfg, env, i - 1, step - wait, wait);
    }
  }

  lemma {:induction false} TimesAscend(cfg: RetryConfig, times: seq<nat>, slow: nat, from: nat, i: nat)
    requires Timetable(cfg, times, slow, from) && from <= i < |times|
    ensures times[i] <= times[|times| - 1]
    decreases |times| - i
  {
    hide LongestHonoured;
    if i < |times| - 1 {
      TimesAscend(cfg, times, slow, from, i + 1);
    }
  }

  lemma TimetableContinues(cfg: RetryConfig, env: Env, times: seq<nat>, slow: nat, from: nat, i: nat)
    requires Timetable(cfg, times, slow, from) && Follows(cfg, env, times, slow, from)
    requires from <= i < |times| - 1 <= HttpRetries(cfg) && times[|times| - 1] < cfg.operationBudget
    ensures Continues(cfg, env, i)
  {
    hide LongestHonoured, WorthRetrying, HttpRetries, StartOf, TimetableCall;
    TimetableKept(cfg, env, times, slow, from, i + 1);
    TimesAscend(cfg, times, slow, from, i + 1);
  }

  // ---- arriving at an instant ----

  lemma TwoSecondSteps(m: nat, step: nat)
    requires step >= 2 * NANOS_PER_SEC
    ensures m * step >= m * (2 * NANOS_PER_SEC)
  {
  }

  /** The least time between two calls of a plan that ends at `last`: a second, if steps and aim allow. */
  function Pace(last: nat, step: nat): (pace: nat)
    ensures pace <= step && pace <= last
  {
    if step >= 2 * NANOS_PER_SEC then Min(NANOS_PER_SEC, last) else 0
  }

  /** The fewest steps to `last`, which leave each the least time. */
  lemma {:induction false} StepsNeeded(last: nat, step: nat, m: nat) returns (k: nat)
    requires last <= m * step
    ensures k <= m && k * Pace(last, step) <= last <= k * step
    ensures last == 0 ==> k == 0
  {
    if last == 0 {
      k := 0;
    } else if m > 0 && last <= (m - 1) * step {
      k := StepsNeeded(last, step, m - 1);
    } else {
      k := m;
      if m > 0 && step >= 2 * NANOS_PER_SEC {
        TwoSecondSteps(m - 1, step);
      }
    }
  }

  /** When call `i` of `k` starts: as early as full steps from there to `last` allow, at the least pace. */
  function PlannedStart(last: nat, step: nat, k: nat, i: nat): nat {
    Max(i * Pace(last, step), last - (k - i) * step)
  }

  lemma PlannedSteps(last: nat, step: nat, k: nat, i: nat)
    requires i < k && k * Pace(last, step) <= last <= k * step
    ensures 0 <= PlannedStart(last, step, k, i + 1) - PlannedStart(last, step, k, i) <= step
  {
    hide Pace;
    assert (k - i) * step == (k - (i + 1)) * step + step;
    assert (i + 1) * Pace(last, step) == i * Pace(last, step) + Pace(last, step);
  }

  lemma PlannedEnds(last: nat, step: nat, k: nat)
    requires k * Pace(last, step) <= last <= k * step
    ensures PlannedStart(last, step, k, 0) == 0 && PlannedStart(last, step, k, k) == last
  {
    hide Pace;
  }

  /** `final` is call `k`, starts `at` after the first call, and every earlier one took at most `slow`. */
  ghost predicate Arrives(cfg: RetryConfig, env: Env, k: nat, at: nat, slow: nat, final: Call) {
    && env.started == EPOCH && StartOf(cfg, env, k) == EPOCH + at
    && Made(cfg, env, k) && CallsWithin(env, k, slow)
    && env.calls(k) == final
  }

  /** How far `m` failures of at most `slow` can take a run without exhausting its budget. */
  function ThrottleReach(cfg: RetryConfig, slow: nat, m: nat): nat {
    Min(Max(cfg.operationBudget - 1, 0), m * (slow + LongestHonoured(cfg)))
  }

  lemma ArriveByThrottles(cfg: RetryConfig, slow: nat, m: nat, final: Call, scale: Scaling)
    returns (env: Env, k: nat)
    requires m <= HttpRetries(cfg)
    requires forall f: real :: scale(RETRY_AFTER_JITTER, f) == NearestScale(RETRY_AFTER_JITTER, f)
    ensures k <= m && env.scale == scale
    ensures Arrives(cfg, env, k, ThrottleReach(cfg, slow, m), slow, final)
  {
    hide LongestHonoured, HttpRetries, NearestScale, Continues, TimetableCall, StartOf, PlannedStart, Pace;
    var last, step := ThrottleReach(cfg, slow, m), slow + LongestHonoured(cfg);
    k := StepsNeeded(last, step, m);
    var times := seq(k + 1, (i: nat) => PlannedStart(last, step, k, i));
    PlannedEnds(last, step, k);
    forall i | 0 <= i < |times| - 1 ensures times[i] <= times[i + 1] <= times[i] + slow + LongestHonoured(cfg) {
      PlannedSteps(last, step, k, i);
    }
    env := Env(EPOCH, (i: nat) => if i < |times| - 1 then TimetableCall(cfg, times, slow, 0, i) else final, scale);
    StartsFirst(cfg, env);
    TimetableKept(cfg, env, times, slow, 0, k);
    forall j: nat | j < k ensures Continues(cfg, env, j) {
      TimetableContinues(cfg, env, times, slow, 0, j);
    }
  }
}
