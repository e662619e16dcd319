/**
 Durations in whole nanoseconds, with the ceiling at which the standard library's `Duration`
 saturates, and the machine-integer ranges the source uses.
 Points in time (`Instant`) are plain `nat` nanoseconds on one clock.
 */
module Durations {
  const NANOS_PER_SEC: nat := 1_000_000_000

  /** `u64::MAX` seconds and 999 999 999 nanoseconds. */
  const MAX_DURATION: nat := 0xFFFF_FFFF_FFFF_FFFF * 1_000_000_000 + 999_999_999

  type Duration = d: nat | d <= MAX_DURATION
  type u32 = n: nat | n < 0x1_0000_0000
  type u64 = n: nat | n < 0x1_0000_0000_0000_0000

  function Min(a: int, b: int): int { if a <= b then a else b }

  function Max(a: int, b: int): int { if a <= b then b else a }

  function FromSecs(n: u64): Duration { n * NANOS_PER_SEC }

  function AsSecs(d: Duration): u64 { d / NANOS_PER_SEC }

  function SaturatingAdd(a: Duration, b: Duration): Duration { Min(a + b, MAX_DURATION) }

  function SaturatingSub(a: Duration, b: Duration): Duration { Max(a - b, 0) }

  function SaturatingMul(a: Duration, k: u32): Duration { Min(a * k, MAX_DURATION) }

  /** `Instant::elapsed`: zero when `since` lies in the future, never above the largest duration. */
  function Elapsed(now: nat, since: nat): Duration { Min(Max(now - since, 0), MAX_DURATION) }

  /** A budget is itself a duration, so saturation never changes how elapsed time compares with it. */
  lemma ElapsedAgainstBudget(now: nat, since: nat, budget: Duration)
    requires since <= now
    ensures Elapsed(now, since) < budget <==> now - since < budget
  {
  }
}
