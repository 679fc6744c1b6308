/**
  The reconnect backoff of rpc/jsonrpc/client/ws_client.go, in integer nanoseconds.

  The source computes `jitter + (1 << attempt) * time.Second` in Go's `time.Duration`,
  a signed 64-bit integer. `BackoffAsWritten` keeps that wrap-around; `BackoffNanos`
  is the unbounded formula the source evidently intends and the rest of the model uses.
  The two agree for every attempt up to 33 and part ways at attempt 34.
 */
module Backoff {

  /** Go's `time.Second` in nanoseconds. */
  const Second: int := 1_000_000_000

  const TwoTo63: int := 0x8000_0000_0000_0000
  const TwoTo64: int := 0x1_0000_0000_0000_0000

  /** The jitter `rand.Float64() * float64(time.Second)`, truncated to whole nanoseconds. */
  type Jitter = j: int | 0 <= j < Second

  function Pow2(k: nat): (p: nat)
    ensures p >= 1
  {
    if k == 0 then 1 else 2 * Pow2(k - 1)
  }

  lemma {:induction false} Pow2Doubles(a: nat, b: nat)
    requires a < b
    ensures 2 * Pow2(a) <= Pow2(b)
    decreases b
  {
    if b != a + 1 {
      Pow2Doubles(a, b - 1);
    }
  }

  /** Two's-complement reinterpretation of `x` as a Go int64. */
  function Int64(x: int): (r: int)
    ensures -TwoTo63 <= r < TwoTo63
    ensures (x - r) % TwoTo64 == 0
    ensures -TwoTo63 <= x < TwoTo63 ==> r == x
  {
    var m := x % TwoTo64;
    if m >= TwoTo63 then m - TwoTo64 else m
  }

  /** `1 << attempt` where the constant takes the type time.Duration: a shift of 64 or more gives 0. */
  function ShiftDuration(attempt: nat): int
  {
    if attempt >= 64 then 0 else Int64(Pow2(attempt))
  }

  /** `backoffDuration` exactly as the source computes it, with int64 wrap-around. */
  function BackoffAsWritten(attempt: nat, jitter: Jitter): int
  {
    Int64(jitter + Int64(ShiftDuration(attempt) * Second))
  }

  /** The wait before dial number `attempt` (counted from 0): jitter plus 2^attempt seconds. */
  function BackoffNanos(attempt: nat, jitter: Jitter): (d: int)
    ensures Pow2(attempt) * Second <= d < Pow2(attempt) * Second + Second
  {
    jitter + Pow2(attempt) * Second
  }

  /** Later attempts wait strictly longer, whatever jitter either of them drew. */
  lemma BackoffStrictlyIncreasing(a: nat, b: nat, ja: Jitter, jb: Jitter)
    requires a < b
    ensures BackoffNanos(a, ja) < BackoffNanos(b, jb)
    ensures BackoffNanos(b, jb) >= 2 * Pow2(a) * Second
  {
    Pow2Doubles(a, b);
  }

  /**
    With the default of 10 attempts the first wait is 1 to 2 seconds (not the
    "2 sec" of the source comment) and the last one about 17 minutes.
   */
  lemma DefaultScheduleEnds(j0: Jitter, j10: Jitter)
    ensures Second <= BackoffNanos(0, j0) < 2 * Second
    ensures 1024 * Second <= BackoffNanos(10, j10) < 1025 * Second
  {
    assert Pow2(10) == 1024;
  }

  lemma Pow2Of33()
    ensures Pow2(33) == 8_589_934_592
  {
    assert Pow2(11) == 2048;
    Pow2Split(11, 22);
    Pow2Split(11, 11);
  }

  lemma {:induction false} Pow2Split(a: nat, b: nat)
    ensures Pow2(a + b) == Pow2(a) * Pow2(b)
    decreases b
  {
    if b > 0 {
      Pow2Split(a, b - 1);
    }
  }

  /** Up to attempt 33 the int64 arithmetic of the source never wraps. */
  lemma AsWrittenAgreesUpTo33(attempt: nat, jitter: Jitter)
    requires attempt <= 33
    ensures BackoffAsWritten(attempt, jitter) == BackoffNanos(attempt, jitter)
  {
    Pow2Of33();
    if attempt < 33 {
      Pow2Doubles(attempt, 33);
    }
    assert Pow2(attempt) <= 8_589_934_592;
    assert ShiftDuration(attempt) == Pow2(attempt);
  }

  /**
    At attempt 34, 2^34 seconds no longer fits in an int64 nanosecond count: the
    source's backoff wraps to a negative duration, so the timer fires at once.
   */
  lemma AsWrittenNegativeAt34(jitter: Jitter)
    ensures BackoffAsWritten(34, jitter) == jitter - 1_266_874_889_709_551_616
    ensures BackoffAsWritten(34, jitter) < 0 < BackoffNanos(34, jitter)
  {
    Pow2Of33();
    assert Pow2(34) == 17_179_869_184;
    assert ShiftDuration(34) == 17_179_869_184;
    var product := 17_179_869_184 * Second;
    assert product == 17_179_869_184_000_000_000;
    SmallModulus(product);
    assert Int64(product) == -1_266_874_889_709_551_616;
  }

  lemma SmallModulus(x: int)
    requires 0 <= x < TwoTo64
    ensures x % TwoTo64 == x
  {
  }

}
