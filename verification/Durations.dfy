/** Go's 64-bit arithmetic on durations: the retry backoff and the heartbeat period. */
module Durations {
  import opened Types

  function Pow2(n: nat): (p: nat)
    ensures p >= 1
  {
    if n == 0 then 1 else 2 * Pow2(n - 1)
  }

  /** Two's complement wrap-around of a 64-bit signed integer. */
  function Wrap64(x: int): (r: int)
    ensures -0x8000_0000_0000_0000 <= r < 0x8000_0000_0000_0000
    ensures -0x8000_0000_0000_0000 <= x < 0x8000_0000_0000_0000 ==> r == x
  {
    (x + 0x8000_0000_0000_0000) % 0x1_0000_0000_0000_0000 - 0x8000_0000_0000_0000
  }

  /** Go's division, which truncates toward zero. */
  function TruncDiv(x: int, d: int): int
    requires d > 0
  {
    if x >= 0 then x / d else -((-x) / d)
  }

  /** time.Duration(1<<uint(attempts)) * time.Second, read back as whole seconds. */
  function BackoffSeconds(attempts: nat): int {
    TruncDiv(Wrap64(Wrap64(Pow2(attempts)) * SECOND), SECOND)
  }

  lemma {:induction false} Pow2Monotone(a: nat, b: nat)
    requires a <= b
    ensures Pow2(a) <= Pow2(b)
    decreases b
  {
    if a < b {
      Pow2Monotone(a, b - 1);
    }
  }

  lemma Pow2Values()
    ensures Pow2(33) == 0x2_0000_0000 && Pow2(34) == 0x4_0000_0000
  {
    assert Pow2(8) == 256;
    assert Pow2(16) == 65536;
    assert Pow2(24) == 0x100_0000;
    assert Pow2(32) == 0x1_0000_0000;
  }

  /** The backoff is the documented power of two exactly up to attempt 33; from attempt 34 on
      the nanosecond count leaves the 64-bit range and the delay is always a different one. */
  lemma BackoffExactIff(attempts: nat)
    ensures BackoffSeconds(attempts) == Pow2(attempts) <==> attempts <= 33
  {
    Pow2Values();
    if attempts <= 33 {
      Pow2Monotone(attempts, 33);
    } else {
      Pow2Monotone(34, attempts);
    }
  }

  /** The wrapped delay falls short of the power of two but never exceeds it. */
  lemma BackoffNeverAbove(attempts: nat)
    ensures BackoffSeconds(attempts) <= Pow2(attempts)
  {
    BackoffExactIff(attempts);
    if attempts > 33 {
      Pow2Values();
      Pow2Monotone(34, attempts);
    }
  }

  /** The first overflowing attempt: its retry is due at once, some forty years in the past. */
  lemma BackoffOverflows()
    ensures BackoffSeconds(34) == -1_266_874_889
  {
    Pow2Values();
  }

  /** time.Duration(leaseSeconds) * time.Second / 3, or ten seconds when that is not positive. */
  function HeartbeatInterval(leaseSeconds: int): (interval: int)
    ensures interval > 0
  {
    var third := TruncDiv(Wrap64(leaseSeconds * SECOND), 3);
    if third <= 0 then 10 * SECOND else third
  }

  /** The period is the third of the lease exactly for the leases that fit a Duration. */
  lemma IntervalIsThirdIff(leaseSeconds: int)
    requires leaseSeconds > 0
    ensures 3 * HeartbeatInterval(leaseSeconds) <= leaseSeconds * SECOND < 3 * HeartbeatInterval(leaseSeconds) + 3
            <==> leaseSeconds <= 9_223_372_036
  {
    assert 9_223_372_036 * SECOND <= MAX_INT64 < 9_223_372_037 * SECOND;
  }

  /** The first leases beyond that wrap around to a negative length, and like no lease at all they are
      renewed every ten seconds. */
  lemma IntervalDefaults(leaseSeconds: int)
    requires leaseSeconds == 0 || 9_223_372_036 < leaseSeconds <= 18_446_744_073
    ensures HeartbeatInterval(leaseSeconds) == 10 * SECOND
  {
    if leaseSeconds > 0 {
      var x := leaseSeconds * SECOND;
      assert MAX_INT64 < x < 0x1_0000_0000_0000_0000;
      assert Wrap64(x) == x - 0x1_0000_0000_0000_0000;
    }
  }
}
