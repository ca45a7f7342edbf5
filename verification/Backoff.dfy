/** The failure backoff of internal/orchestrator/state.go in 64-bit arithmetic. */
module Backoff {

  const TEN_SECONDS: int := 10_000_000_000

  /** The largest power-of-two multiple of ten seconds a signed 64-bit nanosecond count can hold. */
  const LARGEST_DOUBLING: int := 5_368_709_120_000_000_000

  /** Two's complement wrap-around of time.Duration. */
  function Wrap64(x: int): int {
    (x + 0x8000_0000_0000_0000) % 0x1_0000_0000_0000_0000 - 0x8000_0000_0000_0000
  }

  function Grow(delay: int, i: int, attempt: int, maxBackoff: int): int
    decreases attempt - i
  {
    if i < attempt then
      var doubled := Wrap64(delay * 2);
      if maxBackoff > 0 && doubled >= maxBackoff then maxBackoff else Grow(doubled, i + 1, attempt, maxBackoff)
    else if maxBackoff > 0 && delay > maxBackoff then maxBackoff
    else delay
  }

  function FailureRetryDelay(attempt: int, maxBackoff: int): int {
    Grow(TEN_SECONDS, 1, attempt, maxBackoff)
  }

  method ComputeFailureRetryDelay(attempt: int, maxBackoff: int) returns (delay: int)
    ensures delay == FailureRetryDelay(attempt, maxBackoff)
  {
    delay := TEN_SECONDS;
    var i := 1;
    while i < attempt
      invariant Grow(delay, i, attempt, maxBackoff) == FailureRetryDelay(attempt, maxBackoff)
    {
      delay := Wrap64(delay * 2);
      if maxBackoff > 0 && delay >= maxBackoff {
        return maxBackoff;
      }
      i := i + 1;
    }
    if maxBackoff > 0 && delay > maxBackoff {
      return maxBackoff;
    }
  }

  function Pow2(n: nat): int {
    if n == 0 then 1 else 2 * Pow2(n - 1)
  }

  /** The documented backoff: ten seconds doubled per attempt, capped when a cap is set. */
  function CappedDoubling(attempt: int, maxBackoff: int): int
    requires attempt >= 1
  {
    var raw := TEN_SECONDS * Pow2(attempt - 1);
    if maxBackoff > 0 && raw > maxBackoff then maxBackoff else raw
  }

  lemma {:induction false} Pow2Monotone(m: nat, n: nat)
    requires m <= n
    ensures 1 <= Pow2(m) <= Pow2(n)
    decreases n
  {
    if m < n {
      Pow2Monotone(m, n - 1);
    } else if m > 0 {
      Pow2Monotone(m - 1, m - 1);
    }
  }

  lemma Pow2At29()
    ensures Pow2(29) == 536_870_912 && Pow2(30) == 1_073_741_824
  {
    assert Pow2(5) == 32;
    assert Pow2(10) == 1024;
    assert Pow2(15) == 32_768;
    assert Pow2(20) == 1_048_576;
    assert Pow2(25) == 33_554_432;
  }

  lemma {:induction false} GrowMeets(i: int, attempt: int, maxBackoff: int)
    requires 1 <= i <= attempt && 0 < maxBackoff <= LARGEST_DOUBLING
    requires i == 1 || TEN_SECONDS * Pow2(i - 1) < maxBackoff
    ensures Grow(TEN_SECONDS * Pow2(i - 1), i, attempt, maxBackoff) == CappedDoubling(attempt, maxBackoff)
    decreases attempt - i
  {
    if i < attempt {
      Pow2At29();
      if i - 1 >= 29 {
        Pow2Monotone(29, i - 1);
        assert false;
      }
      Pow2Monotone(i, 29);
      assert Pow2(i) == 2 * Pow2(i - 1);
      assert Wrap64(TEN_SECONDS * Pow2(i)) == TEN_SECONDS * Pow2(i);
      if TEN_SECONDS * Pow2(i) >= maxBackoff {
        Pow2Monotone(i, attempt - 1);
      } else {
        GrowMeets(i + 1, attempt, maxBackoff);
      }
    }
  }

  /** With a cap the clock can double up to, the delay is min(10s * 2^(attempt-1), cap). */
  lemma DelayIsCappedDoubling(attempt: int, maxBackoff: int)
    requires attempt >= 1 && 0 < maxBackoff <= LARGEST_DOUBLING
    ensures FailureRetryDelay(attempt, maxBackoff) == CappedDoubling(attempt, maxBackoff)
    ensures 0 < FailureRetryDelay(attempt, maxBackoff) <= maxBackoff
  {
    GrowMeets(1, attempt, maxBackoff);
    Pow2Monotone(0, attempt - 1);
  }

  /** Later attempts never wait less. */
  lemma DelayMonotone(attempt: int, later: int, maxBackoff: int)
    requires 1 <= attempt <= later && 0 < maxBackoff <= LARGEST_DOUBLING
    ensures FailureRetryDelay(attempt, maxBackoff) <= FailureRetryDelay(later, maxBackoff)
  {
    DelayIsCappedDoubling(attempt, maxBackoff);
    DelayIsCappedDoubling(later, maxBackoff);
    Pow2Monotone(attempt - 1, later - 1);
  }

  lemma {:induction false} GrowWraps(i: int, maxBackoff: int)
    requires 1 <= i <= 30 && (maxBackoff <= 0 || maxBackoff > LARGEST_DOUBLING)
    ensures Grow(TEN_SECONDS * Pow2(i - 1), i, 31, maxBackoff) == -7_709_325_833_709_551_616
    decreases 30 - i
  {
    Pow2At29();
    if i < 30 {
      Pow2Monotone(i, 29);
      assert Pow2(i) == 2 * Pow2(i - 1);
      assert Wrap64(TEN_SECONDS * Pow2(i)) == TEN_SECONDS * Pow2(i);
      GrowWraps(i + 1, maxBackoff);
    } else {
      assert Grow(-7_709_325_833_709_551_616, 31, 31, maxBackoff) == -7_709_325_833_709_551_616;
    }
  }

  /** Attempt 31 overflows to a negative delay without a cap, and with any cap beyond the last doubling. */
  lemma AttemptThirtyOneOverflows(maxBackoff: int)
    requires maxBackoff <= 0 || maxBackoff > LARGEST_DOUBLING
    ensures FailureRetryDelay(31, maxBackoff) < 0
  {
    GrowWraps(1, maxBackoff);
  }

  /** Exactly the caps in (0, 10s * 2^29] make the delay the documented one at every attempt. */
  lemma DelayCorrectExactly(maxBackoff: int)
    ensures (forall attempt :: attempt >= 1 ==>
               FailureRetryDelay(attempt, maxBackoff) == CappedDoubling(attempt, maxBackoff))
            <==> 0 < maxBackoff <= LARGEST_DOUBLING
  {
    if 0 < maxBackoff <= LARGEST_DOUBLING {
      forall attempt | attempt >= 1
        ensures FailureRetryDelay(attempt, maxBackoff) == CappedDoubling(attempt, maxBackoff)
      {
        DelayIsCappedDoubling(attempt, maxBackoff);
      }
    } else {
      AttemptThirtyOneOverflows(maxBackoff);
      Pow2Monotone(0, 30);
      assert CappedDoubling(31, maxBackoff) > 0;
    }
  }
}
