/** Pure retry decisions: exponential backoff with a cap, then dead-letter. */
module Retry {
  import opened Tables

  datatype Backoff = Backoff(maxAttempts: int, base: real, factor: real, cap: real)

  datatype Disposition = RetryAt(availableAt: Time) | Die

  function Power(b: real, n: nat): real {
    if n == 0 then 1.0 else b * Power(b, n - 1)
  }

  function Delay(b: Backoff, attempts: int): real
    requires attempts >= 1
  {
    var d := b.base * Power(b.factor, attempts - 1);
    if d <= b.cap then d else b.cap
  }

  /** `disposition`; claimed attempts are at least 1. */
  function Decide(attempts: int, b: Backoff, now: Time): Disposition
    requires attempts >= 1
  {
    if attempts >= b.maxAttempts then Die else RetryAt(now + Delay(b, attempts))
  }

  lemma {:induction false} PowerGrows(f: real, n: nat)
    requires f >= 1.0
    ensures Power(f, n + 1) >= Power(f, n) >= 1.0
  {
    if n > 0 { PowerGrows(f, n - 1); }
    ProductGrows(f, Power(f, n));
  }

  lemma ProductGrows(f: real, x: real)
    requires f >= 1.0 && x >= 1.0
    ensures f * x >= x
  {
  }

  lemma ScaleKeepsOrder(a: real, x: real, y: real)
    requires a >= 0.0 && x <= y
    ensures a * x <= a * y
  {
  }

  /** Delays never shrink and never exceed the cap. */
  lemma {:induction false} DelaysGrowToCap(b: Backoff, m: int, n: int)
    requires b.base >= 0.0 && b.factor >= 1.0 && 1 <= m <= n
    ensures Delay(b, m) <= Delay(b, n) <= b.cap
    decreases n - m
  {
    if m < n {
      DelaysGrowToCap(b, m, n - 1);
      NextDelayGrows(b, n - 1);
    }
  }

  lemma NextDelayGrows(b: Backoff, n: int)
    requires b.base >= 0.0 && b.factor >= 1.0 && n >= 1
    ensures Delay(b, n) <= Delay(b, n + 1)
  {
    PowerGrows(b.factor, n - 1);
    hide Power;
    ScaleKeepsOrder(b.base, Power(b.factor, n - 1), Power(b.factor, n));
  }

  function Min(x: real, y: real): real {
    if x <= y then x else y
  }

  /** After the first try a retry waits the base, and after each further one the
      factor times as long as before, up to the cap; at `maxAttempts` it is over. */
  lemma RetriesBackOff(n: int, b: Backoff, now: Time)
    requires b.base >= 0.0 && b.factor >= 1.0 && b.cap >= 0.0 && n >= 1
    ensures Decide(1, b, now) == if b.maxAttempts <= 1 then Die else RetryAt(now + Min(b.base, b.cap))
    ensures n >= b.maxAttempts ==> Decide(n, b, now) == Die
    ensures n + 1 < b.maxAttempts ==>
      && Decide(n, b, now).RetryAt?
      && Decide(n + 1, b, now) == RetryAt(now + Min(b.factor * (Decide(n, b, now).availableAt - now), b.cap))
  {
    FirstDelay(b);
    NextDelay(b, n);
    hide Delay, Min;
    if n + 1 < b.maxAttempts {
      assert Decide(n, b, now).availableAt - now == Delay(b, n);
    }
  }

  lemma FirstDelay(b: Backoff)
    ensures Delay(b, 1) == Min(b.base, b.cap)
  {
    assert Power(b.factor, 0) == 1.0;
  }

  lemma NextDelay(b: Backoff, n: int)
    requires b.factor >= 1.0 && b.cap >= 0.0 && n >= 1
    ensures Delay(b, n + 1) == Min(b.factor * Delay(b, n), b.cap)
  {
    hide Power, Delay;
    var p := Power(b.factor, n - 1);
    var q := NextPower(b.factor, n, p);
    DelayOf(b, n, p);
    DelayOf(b, n + 1, q);
    Rescale(b.base, b.factor, p, q);
    ScaledCap(b, b.base * p, Delay(b, n));
  }

  lemma DelayOf(b: Backoff, n: int, p: real)
    requires n >= 1 && p == Power(b.factor, n - 1)
    ensures Delay(b, n) == Min(b.base * p, b.cap)
  {
    hide Power;
  }

  lemma NextPower(f: real, n: int, p: real) returns (q: real)
    requires n >= 1 && p == Power(f, n - 1)
    ensures q == f * p && q == Power(f, n + 1 - 1)
  {
    q := f * p;
  }

  lemma Rescale(x: real, f: real, p: real, q: real)
    requires q == f * p
    ensures x * q == f * (x * p)
  {
  }

  /** Scaling before or after capping makes no difference. */
  lemma ScaledCap(b: Backoff, d: real, capped: real)
    requires b.factor >= 1.0 && b.cap >= 0.0 && capped == Min(d, b.cap)
    ensures Min(b.factor * capped, b.cap) == Min(b.factor * d, b.cap)
  {
    assert b.factor * b.cap >= b.cap;
    if d > b.cap { ScaleKeepsOrder(b.factor, b.cap, d); }
  }

  /** With a non-negative cap a retry is never due before now, and at most `cap` later. */
  lemma RetryIsDueLater(attempts: int, b: Backoff, now: Time)
    requires b.base >= 0.0 && b.factor >= 1.0 && b.cap >= 0.0 && attempts >= 1
    ensures match Decide(attempts, b, now)
      case Die => attempts >= b.maxAttempts
      case RetryAt(at) => attempts < b.maxAttempts && now <= at <= now + b.cap
  {
    PowerGrows(b.factor, attempts - 1);
    assert b.base * Power(b.factor, attempts - 1) >= 0.0;
  }
}
