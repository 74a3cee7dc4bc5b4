// calculate_backoff: 30 seconds doubled per attempt, at most 1800, in the 32- and
// 64-bit arithmetic of a release build, which wraps.

module Backoff {
  import opened Numerals
  import Lifecycle

  const BASE: int := 30
  const CAP: int := 1800

  function Min(a: int, b: int): int {
    if a < b then a else b
  }

  function Exponent(attempt: int): nat {
    var n := Wrap32(attempt - 1);
    if n < 0 then 0 else n
  }

  lemma ExponentIs(attempt: int)
    requires I32_MIN <= attempt <= I32_MAX
    ensures Exponent(attempt) == if attempt == I32_MIN then I32_MAX else if attempt < 1 then 0 else attempt - 1
  {
  }

  /** The code: every operation in its own width. */
  function CalculateBackoff(attempt: int): int {
    Min(Wrap64(BASE * Wrap64(Pow2(Exponent(attempt)))), CAP)
  }

  /** What is meant: no width at all. */
  function Intended(attempt: int): int {
    Min(BASE * Pow2(if attempt < 1 then 0 else attempt - 1), CAP)
  }

  lemma Twice(x: nat, y: nat)
    ensures 2 * (x * y) == (2 * x) * y
  {
  }

  lemma {:induction false} Pow2Adds(a: nat, b: nat)
    ensures Pow2(a + b) == Pow2(a) * Pow2(b)
  {
    if a > 0 {
      Pow2Adds(a - 1, b);
      Twice(Pow2(a - 1), Pow2(b));
    }
  }

  lemma {:induction false} Pow2Grows(a: nat, b: nat)
    requires a <= b
    ensures Pow2(a) <= Pow2(b)
  {
    if a < b {
      Pow2Grows(a, b - 1);
    }
  }

  lemma Powers()
    ensures Pow2(6) == 64 && Pow2(58) == 0x400_0000_0000_0000
    ensures Pow2(59) == 0x800_0000_0000_0000 && Pow2(60) == 0x1000_0000_0000_0000
    ensures Pow2(61) == 0x2000_0000_0000_0000 && Pow2(62) == 0x4000_0000_0000_0000
    ensures Pow2(63) == 0x8000_0000_0000_0000 && Pow2(64) == TWO64
  {
    assert Pow2(4) == 16;
    Pow2Adds(4, 2);
    Pow2Adds(4, 4);
    Pow2Adds(8, 8);
    Pow2Adds(16, 16);
    Pow2Adds(32, 16);
    Pow2Adds(48, 8);
    Pow2Adds(56, 2);
  }

  /** Wrapping takes away whole multiples of 2^64. */
  lemma WrapsTo(n: int, q: int, r: int)
    requires n == TWO64 * q + r && I64_MIN <= r <= I64_MAX
    ensures Wrap64(n) == r
  {
    assert n - I64_MIN == TWO64 * q + (r - I64_MIN);
  }

  lemma DelayInRange(e: nat)
    requires e <= 58
    ensures Wrap64(BASE * Wrap64(Pow2(e))) == BASE * Pow2(e)
  {
    Powers();
    Pow2Grows(e, 58);
    WrapsTo(Pow2(e), 0, Pow2(e));
    WrapsTo(BASE * Pow2(e), 0, BASE * Pow2(e));
  }

  lemma DelayNegative(e: nat)
    requires 59 <= e <= 62
    ensures Wrap64(BASE * Wrap64(Pow2(e))) == 0 - 2 * Pow2(e)
  {
    Powers();
    WrapsTo(Pow2(e), 0, Pow2(e));
    WrapsTo(BASE * Pow2(e), Pow2(e - 59), 0 - 2 * Pow2(e));
  }

  lemma DelayZero(e: nat)
    requires e >= 63
    ensures Wrap64(BASE * Wrap64(Pow2(e))) == 0
  {
    Powers();
    if e == 63 {
      WrapsTo(Pow2(63), 1, I64_MIN);
      WrapsTo(BASE * I64_MIN, -15, 0);
    } else {
      Pow2Adds(64, e - 64);
      WrapsTo(Pow2(e), Pow2(e - 64), 0);
    }
  }

  /** The wrapped product, exponent by exponent. */
  lemma Delay(e: nat)
    ensures Wrap64(BASE * Wrap64(Pow2(e)))
            == if e <= 58 then BASE * Pow2(e)
               else if e <= 62 then 0 - 2 * Pow2(e)
               else 0
  {
    if e <= 58 {
      DelayInRange(e);
    } else if e <= 62 {
      DelayNegative(e);
    } else {
      DelayZero(e);
    }
  }

  /** The computed delay is the intended one exactly up to attempt 59 (and not at the
      least 32-bit number, whose predecessor wraps). */
  lemma BackoffExactly(attempt: int)
    requires I32_MIN <= attempt <= I32_MAX
    ensures CalculateBackoff(attempt) == Intended(attempt) <==> I32_MIN < attempt <= 59
    ensures CalculateBackoff(attempt) > 0 <==> I32_MIN < attempt <= 59
  {
    var e := if attempt < 1 then 0 else attempt - 1;
    ExponentIs(attempt);
    Delay(Exponent(attempt));
    Pow2Grows(0, e);
    if e > 58 {
      Powers();
      Pow2Grows(6, e);
    }
  }

  /** Durations that chrono::Duration::seconds accepts; it panics on others, and the
      release profile turns a panic into the end of the process. */
  predicate IsDuration(seconds: int) {
    -(I64_MAX / 1000) <= seconds <= I64_MAX / 1000
  }

  /** Scheduling the retry kills the worker exactly at attempts 60 to 63. */
  lemma BackoffPanics(attempt: int)
    requires I32_MIN <= attempt <= I32_MAX
    ensures !IsDuration(CalculateBackoff(attempt)) <==> 60 <= attempt <= 63
  {
    ExponentIs(attempt);
    Delay(Exponent(attempt));
    Powers();
    var e := Exponent(attempt);
    Pow2Grows(0, e);
    if 59 <= e <= 62 {
      Pow2Grows(59, e);
    }
  }

  /** Attempt 60 gets a delay of -2^60 seconds; from 64 on every retry is due at once. */
  lemma BackoffWraps(attempt: int)
    requires 64 <= attempt <= I32_MAX
    ensures CalculateBackoff(60) == -0x1000_0000_0000_0000 && CalculateBackoff(attempt) == 0
  {
    ExponentIs(60);
    ExponentIs(attempt);
    assert CalculateBackoff(60) == 0 - 2 * Pow2(59) by {
      DelayNegative(59);
    }
    DelayZero(attempt - 1);
    Powers();
  }

  /** The wrap is latent: a task retries below its attempt limit only, so with limits
      up to 60 (every INSERT leaves the default of 3) each retry of a run is delayed by
      30 to 1800 seconds. */
  lemma RetryDelayInRange(s: Lifecycle.System, t: Lifecycle.TaskId, leased: bool)
    requires Lifecycle.Enabled(s, Lifecycle.Settle(t, true), leased)
    requires var k := s.tasks[t];
      k.limit <= 60 && Lifecycle.Judge(k.phase.response, k.attempt, k.limit) == Lifecycle.TryAgain
    ensures 30 <= CalculateBackoff(s.tasks[t].attempt) <= 1800
    ensures CalculateBackoff(s.tasks[t].attempt) == Intended(s.tasks[t].attempt)
  {
    BackoffGrows(s.tasks[t].attempt, 59);
    BackoffExactly(s.tasks[t].attempt);
  }

  /** Where it is as intended the delay never shrinks, doubles up to attempt 6, and
      stays at the cap from attempt 7 on. */
  lemma BackoffGrows(a: int, b: int)
    requires I32_MIN < a <= b <= 59
    ensures CalculateBackoff(a) <= CalculateBackoff(b)
    ensures 1 <= a <= 5 ==> CalculateBackoff(a + 1) == 2 * CalculateBackoff(a)
    ensures a <= 1 ==> CalculateBackoff(a) == 30
    ensures a == 6 ==> CalculateBackoff(a) == 960
    ensures a >= 7 ==> CalculateBackoff(a) == 1800
    ensures 30 <= CalculateBackoff(a) <= 1800
  {
    BackoffExactly(a);
    BackoffExactly(b);
    BackoffExactly(a + 1);
    Powers();
    var i, j := if a < 1 then 0 else a - 1, if b < 1 then 0 else b - 1;
    Pow2Grows(0, i);
    Pow2Grows(i, j);
    if a >= 7 {
      Pow2Grows(6, a - 1);
    } else {
      assert Pow2(4) == 16;
      Pow2Grows(i, 6);
    }
    if 1 <= a <= 5 {
      Pow2Grows(a, 5);
      assert Pow2(5) == 32;
    }
  }
}
