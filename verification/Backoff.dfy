/**
 The delay before connecting is tried again.
 */
module Backoff {
  const INT64_RANGE := 0x1_0000_0000_0000_0000
  const MAX_DELAY := 150

  function Pow2(n: nat): (p: nat)
    ensures p > 0
  {
    if n == 0 then 1 else 2 * Pow2(n - 1)
  }

  /** A number as a signed 64-bit integer. */
  function Wrap(x: int): int {
    var low := x % INT64_RANGE;
    if low < INT64_RANGE / 2 then low else low - INT64_RANGE
  }

  /** Two shifted left by the number of failed attempts, at most 150 seconds. */
  function RetryInSeconds(retryCount: nat): int {
    var shifted := Wrap(2 * Pow2(retryCount));
    if shifted > MAX_DELAY then MAX_DELAY else shifted
  }

  lemma {:induction false} Pow2Grows(a: nat, b: nat)
    requires a <= b
    ensures Pow2(a) <= Pow2(b)
  {
    if a < b {
      Pow2Grows(a, b - 1);
    }
  }

  lemma {:induction false} Pow2Adds(a: nat, b: nat)
    ensures Pow2(a + b) == Pow2(a) * Pow2(b)
  {
    if b > 0 {
      Pow2Adds(a, b - 1);
      assert Pow2(a + b) == 2 * Pow2(a + (b - 1));
    }
  }

  lemma Powers()
    ensures Pow2(8) == 256 && Pow2(62) == INT64_RANGE / 4 && Pow2(64) == INT64_RANGE
  {
    assert Pow2(2) == 4;
    Pow2Adds(2, 2);
    Pow2Adds(4, 4);
    Pow2Adds(8, 8);
    Pow2Adds(16, 16);
    Pow2Adds(32, 32);
    assert Pow2(64) == 4 * Pow2(62);
  }

  /** From 2^64 on, nothing is left of a power of two in 64 bits. */
  lemma {:induction false} Pow2Overflows(n: nat)
    requires n >= 64
    ensures Pow2(n) % INT64_RANGE == 0
  {
    Powers();
    if n > 64 {
      Pow2Overflows(n - 1);
    }
  }

  /** The delay doubles from two seconds up to its limit, which holds from the eighth attempt on, exactly as
      long as the shift fits; after 61 failures there is no delay any more. */
  lemma DelayExactly(retryCount: nat)
    ensures RetryInSeconds(retryCount) == (if Pow2(retryCount + 1) < 150 then Pow2(retryCount + 1) else 150)
            <==> retryCount <= 61
    ensures 7 <= retryCount <= 61 ==> RetryInSeconds(retryCount) == 150
    ensures retryCount >= 62 ==> RetryInSeconds(retryCount) <= 0
  {
    Powers();
    ShiftExactly(retryCount);
    if retryCount >= 7 {
      Pow2Grows(8, retryCount + 1);
    }
  }

  lemma ShiftExactly(n: nat)
    ensures Wrap(2 * Pow2(n)) == if n <= 61 then Pow2(n + 1) else if n == 62 then -(INT64_RANGE / 2) else 0
  {
    Powers();
    if n <= 61 {
      Pow2Grows(n + 1, 62);
    } else if n >= 63 {
      Pow2Overflows(n + 1);
    }
  }

  lemma DelayGrows(a: nat, b: nat)
    requires a <= b <= 61
    ensures RetryInSeconds(a) <= RetryInSeconds(b)
  {
    DelayExactly(a);
    DelayExactly(b);
    Pow2Grows(a + 1, b + 1);
  }
}
