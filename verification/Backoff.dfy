/** Retry delays in saturating 64-bit arithmetic. */
module Backoff {

  import opened Core

  datatype BackoffKind =
    | NoBackoff
    | Fixed(delaySecs: nat)
    | Exponential(baseSecs: nat, maxSecs: nat)

  predicate IsU64(n: nat) {
    n <= U64_MAX
  }

  function Min(a: nat, b: nat): nat {
    if a < b then a else b
  }

  function Pow2(n: nat): nat {
    if n == 0 then 1 else 2 * Pow2(n - 1)
  }

  function SaturatingMul(a: nat, b: nat): nat {
    Min(a * b, U64_MAX)
  }

  /** `attempt.saturating_sub(1).min(30)`: the shift never leaves 64 bits. */
  function Exponent(attempt: nat): (e: nat)
    ensures e <= 30
  {
    Min(if attempt == 0 then 0 else attempt - 1, 30)
  }

  function DelayFor(b: BackoffKind, attempt: nat): nat {
    match b
    case NoBackoff => 0
    case Fixed(d) => d
    case Exponential(base, max) => Min(SaturatingMul(base, Pow2(Exponent(attempt))), max)
  }

  lemma {:induction false} Pow2Monotone(m: nat, n: nat)
    requires m <= n
    ensures Pow2(m) <= Pow2(n)
  {
    if m < n {
      Pow2Monotone(m, n - 1);
    }
  }

  /** From attempt 31 on the delay stays what it is. */
  lemma DelayLevelsOff(b: BackoffKind, attempt: nat)
    requires attempt >= 31
    ensures DelayFor(b, attempt) == DelayFor(b, 31)
  {
  }

  /** Never shorter for a later attempt. */
  lemma DelayIsMonotone(b: BackoffKind, m: nat, n: nat)
    requires m <= n
    ensures DelayFor(b, m) <= DelayFor(b, n)
  {
    if b.Exponential? {
      var x, y := Pow2(Exponent(m)), Pow2(Exponent(n));
      Pow2Monotone(Exponent(m), Exponent(n));
      MulMonotone(b.baseSecs, x, y);
    }
  }

  lemma MulMonotone(a: nat, x: nat, y: nat)
    requires x <= y
    ensures a * x <= a * y
  {
  }

  /** Delays slept along a retry chain: before attempts 2, 3, ..., `attempts`. */
  function ChainDelay(b: BackoffKind, attempts: nat): nat {
    if attempts <= 1 then 0 else ChainDelay(b, attempts - 1) + DelayFor(b, attempts)
  }

  lemma OneMore(n: nat, c: nat)
    ensures (n + 1) * c == n * c + c
  {
  }

  lemma DelayBelowCeiling(b: BackoffKind, attempt: nat)
    ensures match b
            case NoBackoff => DelayFor(b, attempt) == 0
            case Fixed(secs) => DelayFor(b, attempt) == secs
            case Exponential(_, max) => DelayFor(b, attempt) <= max
  {
  }

  /** A chain without back-off never sleeps, one with a fixed delay sleeps it before each retry, and at most `max`. */
  lemma {:induction false} ChainDelayIsBounded(b: BackoffKind, attempts: nat)
    requires 1 <= attempts
    ensures match b
            case NoBackoff => ChainDelay(b, attempts) == 0
            case Fixed(secs) => ChainDelay(b, attempts) == (attempts - 1) * secs
            case Exponential(_, max) => ChainDelay(b, attempts) <= (attempts - 1) * max
  {
    hide DelayFor;
    if attempts > 1 {
      ChainDelayIsBounded(b, attempts - 1);
      DelayBelowCeiling(b, attempts);
      OneMore(attempts - 2, match b case NoBackoff => 0 case Fixed(secs) => secs case Exponential(_, max) => max);
    }
  }

  /**
   * The documented `base * 2^(attempt - 1)`, capped, is what is slept exactly
   * when the exponent is not clipped, or clipping it does not show.
   */
  lemma DelayIsAsDocumented(base: nat, max: nat, attempt: nat)
    requires IsU64(base) && IsU64(max) && 1 <= attempt
    ensures DelayFor(Exponential(base, max), attempt) == Min(base * Pow2(attempt - 1), max)
       <==> attempt <= 31 || base == 0 || base * Pow2(30) >= max
  {
    hide Pow2;
    var slept, documented := base * Pow2(Exponent(attempt)), base * Pow2(attempt - 1);
    assert DelayFor(Exponential(base, max), attempt) == Min(Min(slept, U64_MAX), max);
    if attempt > 31 {
      assert Exponent(attempt) == 30;
      ClippedIsSmaller(attempt);
      if base > 0 {
        MulGrows(base, Pow2(30), Pow2(attempt - 1));
      }
    }
  }

  lemma ClippedIsSmaller(attempt: nat)
    requires attempt > 31
    ensures Pow2(30) < Pow2(attempt - 1)
  {
    Pow2Monotone(0, 30);
    Pow2Monotone(31, attempt - 1);
    assert Pow2(31) == 2 * Pow2(30);
  }

  lemma MulGrows(a: nat, x: nat, y: nat)
    requires 0 < a && x < y
    ensures a * x < a * y
  {
  }
}
