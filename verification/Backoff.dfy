/** The bounded exponential backoff (outbox.go), on 64-bit nanoseconds with wrap-around and without jitter. */
module Backoff {
  const SECOND := 1_000_000_000
  const MAX_INT := 0x7FFF_FFFF_FFFF_FFFF
  const HALF := 0x4000_0000_0000_0000

  /** A signed 64-bit integer. */
  newtype Int64 = x: int | -0x8000_0000_0000_0000 <= x <= 0x7FFF_FFFF_FFFF_FFFF

  /** What signed 64-bit arithmetic makes of a mathematical result. */
  function Wrap(x: int): (r: int)
    ensures -MAX_INT - 1 <= r <= MAX_INT
    ensures -MAX_INT - 1 <= x <= MAX_INT ==> r == x
  {
    (x + MAX_INT + 1) % (2 * (MAX_INT + 1)) - (MAX_INT + 1)
  }

  function Min(a: int, b: int): int {
    if a <= b then a else b
  }

  function Pow2(n: nat): (r: nat)
    ensures r >= 1
  {
    if n == 0 then 1 else 2 * Pow2(n - 1)
  }

  /** The delay after `rounds` rounds of doubling, stopping at `max`. */
  function Doubled(delay: int, max: int, rounds: nat): int
    decreases rounds
  {
    if rounds == 0 then delay
    else if delay >= max then max
    else Doubled(Wrap(2 * delay), max, rounds - 1)
  }

  function Base(base: Int64): (r: int)
    ensures 0 < r <= MAX_INT
  {
    if base <= 0 then SECOND else base as int
  }

  function Cap(base: Int64, max: Int64): (r: int)
    ensures 0 < r <= MAX_INT
  {
    if max <= 0 then Base(base) else max as int
  }

  function Rounds(attempt: int): nat {
    if attempt < 1 then 0 else attempt - 1
  }

  function Delay(attempt: int, base: Int64, max: Int64): int {
    var d := Min(Doubled(Base(base), Cap(base, max), Rounds(attempt)), Cap(base, max));
    if d < 0 then 0 else d
  }

  method RetryDelay(attempt: int, base: Int64, max: Int64) returns (r: Int64)
    ensures r as int == Delay(attempt, base, max)
  {
    var n := if attempt < 1 then 1 else attempt;
    var b := if base <= 0 then SECOND else base as int;
    var m := if max <= 0 then b else max as int;
    var delay := b;
    var i := 1;
    while i < n
      invariant 1 <= i <= n && -MAX_INT - 1 <= delay <= MAX_INT
      invariant Doubled(b, m, n - 1) == Doubled(delay, m, n - i)
    {
      if delay >= m {
        delay := m;
        break;
      }
      delay := Wrap(2 * delay);
      i := i + 1;
    }
    if delay > m { delay := m; }
    if delay < 0 { delay := 0; }
    r := delay as Int64;
  }

  /** Doubling without a bound and without wrap-around. */
  function Scaled(d: int, n: nat): int
    decreases n
  {
    if n == 0 then d else Scaled(2 * d, n - 1)
  }

  lemma {:induction false} ScaledIsPower(d: int, n: nat)
    ensures Scaled(d, n) == d * Pow2(n)
    decreases n
  {
    if n > 0 {
      ScaledIsPower(2 * d, n - 1);
      calc {
        2 * d * Pow2(n - 1);
        d * (2 * Pow2(n - 1));
      }
    }
  }

  lemma {:induction false} ScaledGrows(d: int, n: nat)
    requires d > 0
    ensures Scaled(d, n) >= d
    decreases n
  {
    if n > 0 {
      ScaledGrows(2 * d, n - 1);
    }
  }

  /** Some base * 2^j is at least 2^62 and still below the cap: doubling it overflows. */
  ghost predicate Overflows(b: int, m: int) {
    exists j: nat :: HALF <= Scaled(b, j) < m
  }

  lemma {:induction false} DoubledExact(d: int, m: int, n: nat)
    requires 0 < d && 0 < m <= MAX_INT && !Overflows(d, m)
    ensures Min(Doubled(d, m, n), m) == Min(Scaled(d, n), m)
    decreases n
  {
    ScaledGrows(d, n);
    if n > 0 && d < m {
      assert Scaled(d, 0) == d;
      assert forall j: nat :: Scaled(2 * d, j) == Scaled(d, j + 1);
      DoubledExact(2 * d, m, n - 1);
    }
  }

  /** After the first overflow the delay is negative. */
  lemma {:induction false} DoubledOverflows(d: int, m: int, j: nat)
    requires 0 < d && m <= MAX_INT && HALF <= Scaled(d, j) < m
    ensures Doubled(d, m, j + 1) < 0
    decreases j
  {
    ScaledGrows(d, j);
    if j == 0 {
      assert Wrap(2 * d) == 2 * d - 2 * (MAX_INT + 1);
      assert Doubled(Wrap(2 * d), m, 0) < 0;
    } else {
      ScaledGrows(2 * d, j - 1);
      DoubledOverflows(2 * d, m, j - 1);
    }
  }

  /** The base that counts: a second where none is given; and the cap: the base where none is given. */
  predicate Settings(base: Int64, max: Int64, b: int, m: int) {
    b == (if base > 0 then base as int else 1_000_000_000) && m == if max > 0 then max as int else b
  }

  /** Every attempt's delay is min(cap, base * 2^(attempt-1)) if and only if no doubling below the cap overflows. */
  lemma DelayExactIff(base: Int64, max: Int64, b: int, m: int)
    requires Settings(base, max, b, m)
    ensures (forall attempt: nat :: attempt >= 1 ==> Delay(attempt, base, max) == Min(b * Pow2(attempt - 1), m))
       <==> !Overflows(b, m)
  {
    if !Overflows(b, m) {
      forall attempt: nat | attempt >= 1 ensures Delay(attempt, base, max) == Min(b * Pow2(attempt - 1), m) {
        var n := attempt - 1;
        DoubledExact(b, m, n);
        ScaledIsPower(b, n);
        ScaledGrows(b, n);
      }
    } else {
      var j: nat :| HALF <= Scaled(b, j) < m;
      DoubledOverflows(b, m, j);
      assert Delay(j + 2, base, max) == 0;
      ScaledIsPower(b, j + 1);
      ScaledGrows(b, j + 1);
      assert Min(b * Pow2(j + 1), m) > 0;
    }
  }

  /** In particular for every cap up to 2^62. */
  lemma SmallCapExact(attempt: nat, base: Int64, max: Int64, b: int, m: int)
    requires attempt >= 1 && Settings(base, max, b, m) && m <= HALF
    ensures Delay(attempt, base, max) == Min(b * Pow2(attempt - 1), m)
  {
    DelayExactIff(base, max, b, m);
  }

  /** An attempt below the first counts as the first. */
  lemma NoAttemptIsFirst(attempt: int, base: Int64, max: Int64)
    requires attempt < 1
    ensures Delay(attempt, base, max) == Delay(1, base, max)
  {}

  /** A cap above 2^62 can give no delay at all. */
  lemma LargeCapWraps()
    ensures Delay(2, 0x4000_0000_0000_0000, 0x7000_0000_0000_0000) == 0
  {
    assert Scaled(HALF, 0) == HALF;
    DoubledOverflows(0x4000_0000_0000_0000, 0x7000_0000_0000_0000, 0);
  }
}
