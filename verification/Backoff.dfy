/**
 * The agent's retry delay: an int64 left shift that may wrap, a clamp at 30 s,
 * and jitter taken from the clock.  Durations are int64 nanoseconds.
 */
module Backoff {
  const SECOND := 1_000_000_000
  const MAX_DELAY := 30 * SECOND
  const TWO_35: int := 0x8_0000_0000
  const TWO_63: int := 0x8000_0000_0000_0000
  const TWO_64: int := 0x1_0000_0000_0000_0000

  function Wrap64(x: int): int { (x + TWO_63) % TWO_64 - TWO_63 }

  function Pow2(n: nat): nat { if n == 0 then 1 else 2 * Pow2(n - 1) }

  /** Go's `x << n` on int64: n doublings, each keeping the low 64 bits. */
  function ShiftLeft(x: int, n: nat): int { if n == 0 then x else Wrap64(2 * ShiftLeft(x, n - 1)) }

  /** The delay before jitter. */
  function Clamped(attempt: int, base: int): int {
    var d := ShiftLeft(base, if attempt < 0 then 0 else attempt);
    if d > MAX_DELAY || d <= 0 then MAX_DELAY else d
  }

  function Scale(x: real, factor: real): real { x * factor }

  /** A delay scaled by a factor in [0.5, 1) and truncated. */
  function Jittered(d: int, jitter: nat): int {
    Scale(d as real, Factor(jitter)).Floor
  }

  function Factor(jitter: nat): real { 0.5 + 0.5 * (jitter % 1000) as real / 1000.0 }

  /** `jitter` is the clock's nanosecond count; only its last three digits matter. */
  method Backoff(attempt: int, base: int, jitter: nat) returns (delay: int)
    ensures delay == Jittered(Clamped(attempt, base), jitter)
  {
    var n := attempt;
    if n < 0 {
      n := 0;
    }
    var d := ShiftLeft(base, n);
    if d > MAX_DELAY || d <= 0 {
      d := MAX_DELAY;
    }
    delay := Scale(d as real, 0.5 + 0.5 * (jitter % 1000) as real / 1000.0).Floor;
  }

  /** Wrapping only drops a multiple of 2^64. */
  lemma WrapDrops(x: int) returns (q: int)
    ensures Wrap64(x) == x - q * TWO_64 && -TWO_63 <= Wrap64(x) < TWO_63
  {
    q := (x + TWO_63) / TWO_64;
  }

  lemma WrapIsUnique(x: int, y: int, q: int)
    requires y == x - q * TWO_64 && -TWO_63 <= y < TWO_63
    ensures Wrap64(x) == y
  {
    var p := WrapDrops(x);
    assert (p - q) * TWO_64 == y - Wrap64(x);
    assert p == q;
  }

  lemma {:induction false} ShiftIsWrappedProduct(x: int, n: nat)
    requires -TWO_63 <= x < TWO_63
    ensures ShiftLeft(x, n) == Wrap64(x * Pow2(n))
  {
    if n == 0 {
      WrapIsUnique(x, x, 0);
    } else {
      ShiftIsWrappedProduct(x, n - 1);
      hide Wrap64;
      var y, r := x * Pow2(n - 1), ShiftLeft(x, n - 1);
      var p := WrapDrops(y);
      var q := WrapDrops(2 * r);
      assert x * Pow2(n) == 2 * y;
      WrapIsUnique(2 * y, ShiftLeft(x, n), 2 * p + q);
    }
  }

  lemma {:induction false} Pow2Splits(a: nat, b: nat)
    ensures Pow2(a + b) == Pow2(a) * Pow2(b)
  {
    if a > 0 {
      Pow2Splits(a - 1, b);
      assert Pow2(a + b) == 2 * Pow2(a - 1 + b);
      DoubledFactor(Pow2(a - 1), Pow2(b));
    }
  }

  lemma DoubledFactor(x: int, y: int)
    ensures 2 * x * y == 2 * (x * y)
  {
  }

  lemma {:induction false} Pow2Grows(a: nat, b: nat)
    requires a <= b
    ensures 1 <= Pow2(a) <= Pow2(b)
    decreases b
  {
    if a < b {
      Pow2Grows(a, b - 1);
    } else if a > 0 {
      Pow2Grows(a - 1, a - 1);
    }
  }

  lemma Pow2Values()
    ensures Pow2(30) == 0x4000_0000 && Pow2(33) == 0x2_0000_0000 && Pow2(34) == 0x4_0000_0000 && Pow2(35) == TWO_35
  {
    assert Pow2(10) == 1024;
    Pow2Splits(10, 10);
    Pow2Splits(20, 10);
    Pow2Splits(30, 3);
    Pow2Splits(30, 4);
    Pow2Splits(30, 5);
    assert Pow2(5) == 32;
  }

  /** From attempt 35 on, what survives the wrap is a multiple of 2^35 ns, above 30 s. */
  lemma LateShiftIsNeverSmall(base: int, n: nat)
    requires -TWO_63 <= base < TWO_63 && n >= 35
    ensures ShiftLeft(base, n) <= 0 || ShiftLeft(base, n) >= TWO_35
  {
    hide Pow2, ShiftLeft, Wrap64;
    ShiftIsWrappedProduct(base, n);
    Pow2Values();
    Pow2Splits(35, n - 35);
    var q := WrapDrops(base * Pow2(n));
    LargeFactor(base, Pow2(n - 35), Pow2(n), q);
  }

  lemma LargeFactor(base: int, p: int, full: int, q: int)
    requires full == TWO_35 * p
    ensures base * full - q * TWO_64 <= 0 || base * full - q * TWO_64 >= TWO_35
  {
    assert base * full == TWO_35 * (base * p);
    assert base * full - q * TWO_64 == TWO_35 * (base * p - q * 0x2000_0000);
  }

  /** A product below 2^63 is unchanged by the wrap; up to 2^64 it becomes zero or negative. */
  lemma WrapBelowTwo64(x: int)
    requires 0 < x <= TWO_64
    ensures if x < TWO_63 then Wrap64(x) == x else Wrap64(x) <= 0
  {
    if x < TWO_63 {
      WrapIsUnique(x, x, 0);
    } else if x < TWO_64 {
      WrapIsUnique(x, x - TWO_64, 1);
    } else {
      WrapIsUnique(x, 0, 1);
    }
  }

  lemma MulMonotone(a: int, b: int, c: int)
    requires a <= b && c >= 0
    ensures a * c <= b * c
  {
  }

  lemma EarlyShiftIsExactOrNegative(base: int, n: nat)
    requires 0 < base <= 0x4000_0000 && n <= 34
    ensures var x := base * Pow2(n);
            if x < TWO_63 then ShiftLeft(base, n) == x else ShiftLeft(base, n) <= 0
  {
    hide Wrap64, ShiftLeft;
    Pow2Values();
    ShiftIsWrappedProduct(base, n);
    Pow2Grows(n, 34);
    MulMonotone(1, base, Pow2(n));
    MulMonotone(base, 0x4000_0000, Pow2(n));
    hide Pow2;
    WrapBelowTwo64(base * Pow2(n));
  }

  /**
   * For every base up to 2^30 ns (just over a second) and every attempt, however
   * large, the wrapped shift and clamp compute min(base * 2^attempt, 30 s).
   */
  lemma ClampedIsCappedExponential(attempt: nat, base: int)
    requires 0 < base <= 0x4000_0000
    ensures Clamped(attempt, base)
         == if base * Pow2(attempt) <= MAX_DELAY then base * Pow2(attempt) else MAX_DELAY
  {
    hide Wrap64, ShiftLeft;
    Pow2Grows(0, attempt);
    MulMonotone(1, base, Pow2(attempt));
    if attempt >= 35 {
      LateShiftIsNeverSmall(base, attempt);
      Pow2Values();
      Pow2Grows(35, attempt);
    } else {
      EarlyShiftIsExactOrNegative(base, attempt);
    }
    hide Pow2;
  }

  /** The clamp of an int64 that a product `x` wraps to, in terms of what survives of `x`. */
  lemma ClampOfWrapped(x: int)
    requires x > 0
    ensures var d := Wrap64(x);
            (if d > MAX_DELAY || d <= 0 then MAX_DELAY else d) == (if x <= MAX_DELAY then x else MAX_DELAY)
            <==> x < TWO_64 || !(0 < x % TWO_64 < MAX_DELAY)
  {
    var w, q := x % TWO_64, x / TWO_64;
    assert x == q * TWO_64 + w;
    if w < TWO_63 {
      WrapIsUnique(x, w, q);
    } else {
      WrapIsUnique(x, w - TWO_64, q + 1);
    }
  }

  /**
   * For every positive int64 base and every attempt, exactly when wrapped shift
   * and clamp compute min(base * 2^attempt, 30 s): unless the product overflows
   * 64 bits and its low 64 bits lie strictly between 0 and 30 s.
   */
  lemma CappedExponentialIff(attempt: nat, base: int)
    requires 0 < base < TWO_63
    ensures var x := base * Pow2(attempt);
            Clamped(attempt, base) == (if x <= MAX_DELAY then x else MAX_DELAY)
            <==> x < TWO_64 || !(0 < x % TWO_64 < MAX_DELAY)
  {
    hide Wrap64, Pow2;
    ShiftIsWrappedProduct(base, attempt);
    PositiveProduct(base, attempt);
    ClampOfWrapped(base * Pow2(attempt));
  }

  lemma PositiveProduct(base: int, n: nat)
    requires base > 0
    ensures base * Pow2(n) > 0
  {
    Pow2Grows(0, n);
    MulMonotone(1, base, Pow2(n));
  }

  /** One nanosecond more of base and a wrapped shift slips below the cap: 2^34 ns instead of 30 s. */
  lemma LargerBaseWrapsBelowTheCap()
    ensures Clamped(34, 0x4000_0001) == 0x4_0000_0000 < MAX_DELAY < 0x4000_0001 * Pow2(34)
  {
    Pow2Values();
    ShiftIsWrappedProduct(0x4000_0001, 34);
    WrapIsUnique(0x4000_0001 * Pow2(34), 0x4_0000_0000, 1);
  }

  /** Jitter keeps the delay in the upper half of the clamped value, excluding its end. */
  lemma JitterKeepsUpperHalf(d: int, jitter: nat)
    requires d > 0
    ensures d / 2 <= Jittered(d, jitter) < d
  {
    hide Factor, Scale;
    FactorInRange(jitter);
    ScaleInRange(d as real, Factor(jitter));
    HalfRoundsDown(d);
    FloorBetween(d / 2, Scale(d as real, Factor(jitter)), d);
  }

  lemma FactorInRange(jitter: nat)
    ensures 0.5 <= Factor(jitter) < 1.0
  {
  }

  lemma ScaleInRange(x: real, f: real)
    requires x > 0.0 && 0.5 <= f < 1.0
    ensures x * 0.5 <= Scale(x, f) < x
  {
    assert x * f - x * 0.5 == x * (f - 0.5);
    assert x - x * f == x * (1.0 - f);
    ProductIsPositive(x, 1.0 - f);
    ProductIsNonNegative(x, f - 0.5);
  }

  lemma ProductIsPositive(x: real, y: real)
    requires x > 0.0 && y > 0.0
    ensures x * y > 0.0
  {
  }

  lemma ProductIsNonNegative(x: real, y: real)
    requires x >= 0.0 && y >= 0.0
    ensures x * y >= 0.0
  {
  }

  lemma HalfRoundsDown(d: int)
    ensures (d / 2) as real <= d as real * 0.5
  {
  }

  lemma FloorBetween(lo: int, y: real, hi: int)
    requires lo as real <= y < hi as real
    ensures lo <= y.Floor < hi
  {
  }

  /**
   * The jittered delay in whole numbers: of the delay's 2000ths it takes 1000 plus
   * the last three digits of the clock, rounded down.
   */
  lemma JitterIsExact(d: int, jitter: nat)
    requires d > 0
    ensures Jittered(d, jitter) == d * (1000 + jitter % 1000) / 2000
  {
    hide Factor, Scale;
    var share := 1000 + jitter % 1000;
    FactorIsShare(jitter);
    ScaleOfShare(d, jitter, share);
    FloorOfRatio(d * share, 2000);
  }

  lemma FactorIsShare(jitter: nat)
    ensures Factor(jitter) * 2000.0 == (1000 + jitter % 1000) as real
  {
  }

  lemma ScaleOfShare(d: int, jitter: nat, share: int)
    requires Factor(jitter) * 2000.0 == share as real
    ensures Scale(d as real, Factor(jitter)) == (d * share) as real / 2000.0
  {
    hide Factor;
    var f := Factor(jitter);
    assert (d as real * f) * 2000.0 == d as real * (f * 2000.0);
    assert (d * share) as real == d as real * share as real;
  }

  lemma FloorOfRatio(x: int, n: int)
    requires n == 2000
    ensures (x as real / n as real).Floor == x / n
  {
  }

  /** A negative attempt counts as the first. */
  lemma NegativeAttemptIsFirst(attempt: int, base: int)
    requires attempt < 0 && 0 < base <= 0x4000_0000
    ensures Clamped(attempt, base) == base
  {
    ClampedIsCappedExponential(0, base);
    assert Pow2(0) == 1;
  }

  /** The delay after `attempt` failures, from a base of one second, at this reading of the clock. */
  function DelayOf(attempt: nat, jitter: nat): int {
    var d := if Pow2(attempt) <= 30 then 1_000_000_000 * Pow2(attempt) else 30_000_000_000;
    d * (1000 + jitter % 1000) / 2000
  }

  /** The agent's retry delays: base one second, any attempt, any clock. */
  method RetryDelay(attempt: nat, jitter: nat) returns (delay: int)
    ensures delay == DelayOf(attempt, jitter)
    ensures var d := if Pow2(attempt) <= 30 then 1_000_000_000 * Pow2(attempt) else 30_000_000_000;
            d <= 2 * delay < 2 * d
  {
    delay := Backoff(attempt, SECOND, jitter);
    ClampedIsCappedExponential(attempt, SECOND);
    Pow2Grows(0, attempt);
    EvenSeconds(Pow2(attempt));
    hide Clamped, Pow2, Jittered;
    var d := Clamped(attempt, SECOND);
    assert d > 0 && d % 2 == 0;
    JitterKeepsUpperHalf(d, jitter);
    JitterIsExact(d, jitter);
  }

  lemma EvenSeconds(n: nat)
    ensures (SECOND * n) % 2 == 0
  {
    assert SECOND * n == 2 * (500_000_000 * n);
  }
}
