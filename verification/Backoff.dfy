/**
 Backoff: cap(n) = min(max_delay, base_delay * multiplier^(n-1)) in saturating machine arithmetic,
 and a delay drawn uniformly from [0, cap(n)]. Durations here are nanoseconds.
 */
module Backoff {
  import opened Core
  import opened Config

  const NANOS_PER_MILLI: nat := 1_000_000
  const U64_MAX: nat := 0xFFFF_FFFF_FFFF_FFFF

  /** The largest Duration: 64-bit seconds and 999,999,999 nanoseconds. */
  const DURATION_MAX: nat := U64_MAX * 1_000_000_000 + 999_999_999

  datatype RetryPolicy = RetryPolicy(baseDelay: nat, multiplier: nat, maxDelay: nat)

  function RetryPolicyOf(c: WorkerConfig): RetryPolicy {
    RetryPolicy(c.retryBaseDelay * NANOS_PER_MILLI, c.retryMultiplier, c.retryMaxDelay * NANOS_PER_MILLI)
  }

  function Pow(base: nat, exponent: nat): nat {
    if exponent == 0 then 1 else Pow(base, exponent - 1) * base
  }

  lemma {:induction false} PowMonotone(base: nat, i: nat, j: nat)
    requires base >= 1 && i <= j
    ensures 1 <= Pow(base, i) <= Pow(base, j)
    decreases j
  {
    if i < j {
      PowMonotone(base, i, j - 1);
      assert Pow(base, j - 1) <= Pow(base, j - 1) * base;
    } else if i > 0 {
      PowMonotone(base, i - 1, j - 1);
      assert 1 <= Pow(base, i - 1) * base;
    }
  }

  lemma MulMonotone(a: nat, b: nat, c: nat)
    requires a <= b
    ensures a * c <= b * c && c * a <= c * b
  {
  }

  /** Repeated 32-bit saturating multiplication that stops early equals the saturated power. */
  method SaturatingPow(base: nat, exponent: nat) returns (result: nat)
    requires base <= U32_MAX && exponent <= U32_MAX
    ensures result == Min(Pow(base, exponent), U32_MAX)
  {
    result := 1;
    var i := 0;
    while i < exponent
      invariant i <= exponent && result == Min(Pow(base, i), U32_MAX)
      invariant result == U32_MAX ==> base >= 1
    {
      if base == 0 {
        assert result * base == 0 && Pow(base, i) * base == 0;
      } else {
        PowMonotone(base, i, i + 1);
        if Pow(base, i) > U32_MAX {
          MulMonotone(1, base, U32_MAX);
        }
      }
      result := Min(result * base, U32_MAX);
      i := i + 1;
      if result == U32_MAX {
        if base >= 1 {
          PowMonotone(base, i, exponent);
        }
        break;
      }
    }
  }

  function Scaled(baseDelay: nat, power: nat): nat {
    Min(baseDelay * power, DURATION_MAX)
  }

  /** `cap(n)`, with every saturation the code performs. */
  function Cap(p: RetryPolicy, attemptNumber: nat): nat {
    var exponent := if attemptNumber == 0 then 0 else attemptNumber - 1;
    Min(Scaled(p.baseDelay, Min(Pow(p.multiplier, exponent), U32_MAX)), p.maxDelay)
  }

  method ComputeCap(p: RetryPolicy, attemptNumber: nat) returns (cap: nat)
    requires p.multiplier <= U32_MAX && attemptNumber <= U32_MAX
    ensures cap == Cap(p, attemptNumber)
    ensures var power := Min(Pow(p.multiplier, Max(attemptNumber - 1, 0)), 0xFFFF_FFFF);
      cap == Min(Min(p.baseDelay * power, 0xFFFF_FFFF_FFFF_FFFF * 1_000_000_000 + 999_999_999), p.maxDelay)
  {
    var power := SaturatingPow(p.multiplier, if attemptNumber == 0 then 0 else attemptNumber - 1);
    cap := Min(Scaled(p.baseDelay, power), p.maxDelay);
  }

  /** For every validated configuration no saturation ever shows: the cap is the mathematical one. */
  lemma CapExact(c: WorkerConfig, n: nat)
    requires Validate(c).Ok? && n >= 1
    ensures Cap(RetryPolicyOf(c), n) ==
      Min(c.retryMaxDelay * NANOS_PER_MILLI, c.retryBaseDelay * NANOS_PER_MILLI * Pow(c.retryMultiplier, n - 1))
  {
    var base := c.retryBaseDelay * NANOS_PER_MILLI;
    var power := Pow(c.retryMultiplier, n - 1);
    if power <= U32_MAX {
      MulMonotone(power, U32_MAX, base);
      MulMonotone(base, MAX_ALLOWED_RETRY_MAX_DELAY_MS * NANOS_PER_MILLI, U32_MAX);
      assert base * power <= DURATION_MAX;
    } else {
      MulMonotone(NANOS_PER_MILLI, base, U32_MAX);
      MulMonotone(U32_MAX, power, base);
    }
  }

  lemma CapMonotone(c: WorkerConfig, i: nat, j: nat)
    requires Validate(c).Ok? && 1 <= i <= j
    ensures Cap(RetryPolicyOf(c), i) <= Cap(RetryPolicyOf(c), j) <= c.retryMaxDelay * NANOS_PER_MILLI
  {
    CapExact(c, i);
    CapExact(c, j);
    PowMonotone(c.retryMultiplier, i - 1, j - 1);
    MulMonotone(Pow(c.retryMultiplier, i - 1), Pow(c.retryMultiplier, j - 1), c.retryBaseDelay * NANOS_PER_MILLI);
  }

  /** The cap in whole milliseconds: the closed range that a delay is drawn from. */
  function CapMillis(p: RetryPolicy, attemptNumber: nat): nat {
    Min(Cap(p, attemptNumber) / NANOS_PER_MILLI, U64_MAX)
  }

  /** Full jitter: whatever the generator draws from the range. */
  method Delay(p: RetryPolicy, attemptNumber: nat, draw: nat) returns (millis: nat)
    requires p.multiplier <= U32_MAX && attemptNumber <= U32_MAX
    requires draw <= CapMillis(p, attemptNumber)
    ensures millis <= CapMillis(p, attemptNumber) && millis * NANOS_PER_MILLI <= Cap(p, attemptNumber)
    ensures Cap(p, attemptNumber) > 0 ==> millis == draw
  {
    var cap := ComputeCap(p, attemptNumber);
    if cap == 0 {
      return 0;
    }
    millis := draw;
  }

  /** In milliseconds a validated cap never exceeds the configured maximum. */
  lemma CapMillisBound(c: WorkerConfig, n: nat)
    requires Validate(c).Ok? && n >= 1
    ensures CapMillis(RetryPolicyOf(c), n) == Min(c.retryMaxDelay, c.retryBaseDelay * Pow(c.retryMultiplier, n - 1))
  {
    CapExact(c, n);
    var b := c.retryBaseDelay * Pow(c.retryMultiplier, n - 1);
    assert c.retryBaseDelay * NANOS_PER_MILLI * Pow(c.retryMultiplier, n - 1) == b * NANOS_PER_MILLI;
  }
}
