/**
 `next_backoff` and `sanitize` (src/backoff.rs). The random source is a floating-point value that
 may break its contract; scaling a duration by a factor is any rounding the platform may do.
 */
module Backoff {
  import opened Wrappers
  import opened Durations
  import opened ProviderErrors

  datatype F64 = NaN | PosInf | NegInf | Finite(value: real)

  const RETRY_AFTER_JITTER: Duration := 1_000_000_000

  /** The finiteness test comes before the clamp, because clamping NaN gives NaN. */
  function Sanitize(v: F64): (factor: real)
    ensures 0.0 <= factor <= 1.0
    ensures v.Finite? && 0.0 <= v.value <= 1.0 ==> factor == v.value
    ensures !v.Finite? ==> factor == 0.0
    ensures v.Finite? && v.value < 0.0 ==> factor == 0.0
    ensures v.Finite? && v.value > 1.0 ==> factor == 1.0
  {
    if !v.Finite? then 0.0
    else if v.value < 0.0 then 0.0
    else if v.value > 1.0 then 1.0
    else v.value
  }

  /**
   `try_from_secs_f64(d.as_secs_f64() * factor)`; `None` is the overflow error. Of the rounding only
   this is known: zero times anything finite is zero, and one second, which is exact in floating
   point, scales to at most one second without overflowing.
   */
  ghost predicate ScalesOneSecond(scale: (Duration, real) -> Option<Duration>) {
    && (forall d: Duration :: scale(d, 0.0) == Some(0))
    && (forall f: real | 0.0 <= f <= 1.0 ::
          scale(RETRY_AFTER_JITTER, f).Some? && scale(RETRY_AFTER_JITTER, f).value <= RETRY_AFTER_JITTER)
  }

  type Scaling = scale: (Duration, real) -> Option<Duration> | ScalesOneSecond(scale)
    witness (d: Duration, f: real) => Some(0)

  /** Scaling `d` down never comes out more than `slack` above `d`. */
  ghost predicate RoundsWithin(scale: Scaling, d: Duration, slack: nat) {
    forall f: real | 0.0 <= f <= 1.0 :: scale(d, f).Some? ==> scale(d, f).value <= d + slack
  }

  function Pow2(k: nat): (p: nat)
    ensures p >= 1
  {
    if k == 0 then 1 else 2 * Pow2(k - 1)
  }

  lemma {:induction false} Pow2Monotone(j: nat, k: nat)
    requires j <= k
    ensures Pow2(j) <= Pow2(k)
  {
    if j < k {
      Pow2Monotone(j, k - 1);
    }
  }

  lemma Pow2Of31()
    ensures Pow2(31) == 0x8000_0000
  {
    assert Pow2(6) == 64;
    assert Pow2(12) == 64 * Pow2(6);
    assert Pow2(18) == 64 * Pow2(12);
    assert Pow2(24) == 64 * Pow2(18);
    assert Pow2(30) == 64 * Pow2(24);
  }

  /** `2u32.saturating_pow(attempt.min(31))`, which the minimum keeps inside `u32`. */
  function GrowthFactor(attempt: nat): (p: u32)
    ensures p <= Pow2(attempt)
  {
    var k := Min(attempt, 31);
    Pow2Monotone(k, 31);
    Pow2Monotone(k, attempt);
    Pow2Of31();
    Pow2(k)
  }

  lemma ProductMonotone(base: nat, p: nat, q: nat)
    requires 1 <= p <= q
    ensures base <= base * p <= base * q
  {
  }

  /** The formula wait before jitter: flat classes do not grow. */
  function FormulaCeiling(attempt: nat, class_: RetryClass, base: Duration, cap: Duration,
                          flatClasses: seq<RetryClass>): (bounded: Duration)
    ensures bounded <= cap
    ensures class_ in flatClasses ==> bounded == Min(base, cap)
  {
    Min(if class_ in flatClasses then base else SaturatingMul(base, GrowthFactor(attempt)), cap)
  }

  lemma FormulaGrowth(attempt: nat, class_: RetryClass, base: Duration, cap: Duration, flatClasses: seq<RetryClass>)
    ensures FormulaCeiling(attempt, class_, base, cap, flatClasses) <= base * Pow2(attempt)
  {
    ProductMonotone(base, 1, Pow2(attempt));
    if GrowthFactor(attempt) >= 1 {
      ProductMonotone(base, GrowthFactor(attempt), Pow2(attempt));
    }
  }

  /** Outside the flat classes the ceiling doubles with every attempt until it meets the cap; flat ones stay. */
  lemma DoublesUntilCapped(attempt: nat, class_: RetryClass, base: Duration, cap: Duration, flatClasses: seq<RetryClass>)
    ensures FormulaCeiling(0, class_, base, cap, flatClasses) == Min(base, cap)
    ensures var now := FormulaCeiling(attempt, class_, base, cap, flatClasses);
            var next := FormulaCeiling(attempt + 1, class_, base, cap, flatClasses);
            next == if class_ in flatClasses || attempt >= 31 then now else Min(2 * now, cap)
  {
    hide Pow2;
    FirstCeiling(class_, base, cap, flatClasses);
    if class_ !in flatClasses && attempt < 31 {
      GrowthDoubles(attempt);
      DoubledProduct(base, GrowthFactor(attempt));
    }
  }

  lemma FirstCeiling(class_: RetryClass, base: Duration, cap: Duration, flatClasses: seq<RetryClass>)
    ensures FormulaCeiling(0, class_, base, cap, flatClasses) == Min(base, cap)
  {
    assert GrowthFactor(0) == 1;
  }

  lemma GrowthDoubles(attempt: nat)
    requires attempt < 31
    ensures GrowthFactor(attempt + 1) as int == 2 * GrowthFactor(attempt) as int
  {
  }

  lemma DoubledProduct(base: nat, p: nat)
    ensures base * (2 * p) == 2 * (base * p)
  {
  }

  function NextBackoff(attempt: nat, class_: RetryClass, base: Duration, cap: Duration,
                       flatClasses: seq<RetryClass>, retryAfter: Option<Duration>,
                       rand: F64, scale: Scaling): (wait: Duration)
    // an honoured header is never undercut and never exceeded by more than the jitter
    ensures retryAfter.Some? ==>
              retryAfter.value <= wait <= SaturatingAdd(retryAfter.value, RETRY_AFTER_JITTER)
    // the formula stays under the cap whatever the rounding does
    ensures retryAfter.None? ==> wait <= cap
    // an out-of-contract random value means no jitter at all
    ensures !rand.Finite? ==> wait == (if retryAfter.Some? then retryAfter.value else 0)
  {
    var factor := Sanitize(rand);
    match retryAfter
    case Some(asked) => SaturatingAdd(asked, scale(RETRY_AFTER_JITTER, factor).value)
    case None =>
      var bounded := FormulaCeiling(attempt, class_, base, cap, flatClasses);
      var scaled := scale(bounded, factor);
      Min(if scaled.Some? then scaled.value else bounded, cap)
  }

  /** Full jitter spans the whole interval: the wait is zero at one end and the ceiling at the other. */
  lemma JitterSpansInterval(attempt: nat, class_: RetryClass, base: Duration, cap: Duration,
                            flatClasses: seq<RetryClass>, scale: Scaling)
    requires forall d: Duration :: scale(d, 1.0) == Some(d)
    ensures NextBackoff(attempt, class_, base, cap, flatClasses, None, Finite(0.0), scale) == 0
    ensures NextBackoff(attempt, class_, base, cap, flatClasses, None, Finite(1.0), scale)
            == FormulaCeiling(attempt, class_, base, cap, flatClasses)
    ensures forall asked: Duration ::
              NextBackoff(attempt, class_, base, cap, flatClasses, Some(asked), Finite(1.0), scale)
              == SaturatingAdd(asked, RETRY_AFTER_JITTER)
  {
  }
}
