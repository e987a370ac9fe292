/** The retry policy of background work: exponential backoff under a cap, then dead letter. */
module Retry {
  import opened Wrappers

  datatype Policy = Policy(maxAttempts: int, baseDelay: int, maxDelay: int)

  datatype RetryDecision = DeadLetter | RetryAt(nextAttemptAt: int)

  function Pow2(n: nat): int {
    if n == 0 then 1 else 2 * Pow2(n - 1)
  }

  function Delay(p: Policy, attempt: int): int {
    Min(p.baseDelay * Pow2(Max(attempt - 1, 0)), p.maxDelay)
  }

  function DecideRetry(p: Policy, attempt: int, now: int): RetryDecision {
    if attempt >= p.maxAttempts then DeadLetter else RetryAt(now + Delay(p, attempt))
  }

  lemma {:induction false} Pow2Grows(m: nat, n: nat)
    requires m <= n
    ensures 1 <= Pow2(m) <= Pow2(n)
  {
    if m < n {
      Pow2Grows(m, n - 1);
    } else if m > 0 {
      Pow2Grows(m - 1, m - 1);
    }
  }

  /** Waits never get shorter from one attempt to a later one, and never exceed the cap. */
  lemma DelaysGrow(p: Policy, a: int, b: int)
    requires p.baseDelay >= 0 && a <= b
    ensures Delay(p, a) <= Delay(p, b) <= p.maxDelay
  {
    var m, n := Max(a - 1, 0), Max(b - 1, 0);
    Pow2Grows(m, n);
    ScaledUp(p.baseDelay, Pow2(m), Pow2(n));
  }

  /** The total wait after the first n failed attempts. */
  function TotalDelay(p: Policy, n: nat): int {
    if n == 0 then 0 else TotalDelay(p, n - 1) + Delay(p, n)
  }

  lemma Doubled(b: int, x: int)
    ensures b * (x - 1) + b * x == b * (2 * x - 1)
  {
  }

  lemma ScaledUp(b: int, x: int, y: int)
    requires b >= 0 && x <= y
    ensures b * x <= b * y
  {
  }

  /** While the cap is not reached, n waits add up to base * (2^n - 1). */
  lemma {:induction false} UncappedTotal(p: Policy, n: nat)
    requires p.baseDelay >= 0 && (n > 0 ==> p.baseDelay * Pow2(n - 1) <= p.maxDelay)
    ensures TotalDelay(p, n) == p.baseDelay * (Pow2(n) - 1)
  {
    if n > 0 {
      var x := Pow2(n - 1);
      if n > 1 {
        Pow2Grows(n - 2, n - 1);
        ScaledUp(p.baseDelay, Pow2(n - 2), x);
      }
      UncappedTotal(p, n - 1);
      assert Delay(p, n) == p.baseDelay * x;
      Doubled(p.baseDelay, x);
    }
  }

  /** From the first wait that reaches the cap on, every wait is the cap. */
  lemma CappedDelay(p: Policy, a: int, b: int)
    requires p.baseDelay >= 0 && 1 <= a <= b && p.baseDelay * Pow2(a - 1) >= p.maxDelay
    ensures Delay(p, b) == p.maxDelay
  {
    Pow2Grows(a - 1, b - 1);
    ScaledUp(p.baseDelay, Pow2(a - 1), Pow2(b - 1));
  }
}
