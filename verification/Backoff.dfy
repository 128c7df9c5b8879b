/** The exponential delay 2^k * base, computed in wrapping 64-bit integers and then
    clamped, as the dispatcher and the login limiter both do. */
module Backoff {
  import opened Common

  const TWO63: int := 0x8000_0000_0000_0000
  const TWO64: int := 0x1_0000_0000_0000_0000
  const SECOND: int := 1_000_000_000

  function Pow2(k: nat): nat {
    if k == 0 then 1 else 2 * Pow2(k - 1)
  }

  /** Two's complement: the value in [-2^63, 2^63) that an int64 holds for x. */
  function Wrap64(x: int): int {
    var m := x % TWO64;
    if m >= TWO63 then m - TWO64 else m
  }

  /** int64(math.Pow(2, k)). Powers of two are exact in a float64; from 2^63 on the
      conversion is out of range and a platform yields one extreme or the other. */
  function Pow2AsInt64(k: nat, saturates: bool): int {
    if k <= 62 then Pow2(k) else if saturates then TWO63 - 1 else -TWO63
  }

  function Clamp(d: int, max: int): int {
    if d <= 0 || d > max then max else d
  }

  function Delay(base: int, max: int, k: nat, saturates: bool): int {
    Clamp(Wrap64(Pow2AsInt64(k, saturates) * base), max)
  }

  /** The delay without a word size: doubling up to the ceiling. */
  function Ideal(base: int, max: int, k: nat): int {
    Min(base * Pow2(k), max)
  }

  // ----- powers of two -----

  lemma {:induction false} Pow2Add(a: nat, b: nat)
    ensures Pow2(a + b) == Pow2(a) * Pow2(b)
  {
    if a > 0 {
      Pow2Add(a - 1, b);
      assert Pow2(a + b) == 2 * (Pow2(a - 1) * Pow2(b));
    }
  }

  lemma {:induction false} Pow2Grows(a: nat, b: nat)
    requires a <= b
    ensures 1 <= Pow2(a) <= Pow2(b)
  {
    if a < b {
      Pow2Grows(a, b - 1);
    } else if a > 0 {
      Pow2Grows(a - 1, a - 1);
    }
  }

  lemma Pow2Values()
    ensures Pow2(10) == 1024 && Pow2(30) == 0x4000_0000 && Pow2(32) == 0x1_0000_0000
    ensures Pow2(62) == 0x4000_0000_0000_0000 && Pow2(63) == TWO63 && Pow2(64) == TWO64
  {
    assert Pow2(10) == 1024;
    Pow2Add(10, 10);
    Pow2Add(20, 10);
    Pow2Add(30, 2);
    Pow2Add(30, 32);
    Pow2Add(32, 32);
    assert Pow2(63) == 2 * Pow2(62);
  }

  // ----- wrapping -----

  lemma WrapIdentity(x: int)
    requires -TWO63 <= x < TWO63
    ensures Wrap64(x) == x
  {
  }

  /** Wrapping takes away a multiple of 2^64 and leaves an int64. */
  lemma WrapShift(x: int) returns (q: int)
    ensures Wrap64(x) == x - q * 0x1_0000_0000_0000_0000
    ensures -0x8000_0000_0000_0000 <= Wrap64(x) < 0x8000_0000_0000_0000
  {
    var m := x % TWO64;
    q := if m >= TWO63 then x / TWO64 + 1 else x / TWO64;
  }

  lemma MulOrder(a: int, b: int, c: int)
    requires a <= b && 0 <= c
    ensures a * c <= b * c
  {
  }

  lemma MulStrict(a: int, b: int, c: int)
    requires a < b && 0 < c
    ensures a * c < b * c
  {
  }

  lemma MulAssoc(a: int, b: int, c: int)
    ensures (a * b) * c == a * (b * c)
  {
  }

  /** A multiple of a divisor p of 2^64 stays one, so what is left of it after
      wrapping is either not positive or at least p. */
  lemma WrapOfMultiple(x: int, p: int, n: int, m: int)
    requires p > 0 && n * p == TWO64 && x == m * p
    ensures Wrap64(x) <= 0 || Wrap64(x) >= p
  {
    var q := WrapShift(x);
    MulAssoc(q, n, p);
    var c := m - q * n;
    assert c * p == m * p - (q * n) * p;
    if c >= 1 {
      MulOrder(1, c, p);
    } else {
      MulOrder(c, 0, p);
    }
  }

  lemma DelayBeforeWrapping(base: int, max: int, k: nat, saturates: bool)
    requires 0 < base && k <= 62 && base * Pow2(k) < TWO63
    ensures Delay(base, max, k, saturates) == Ideal(base, max, k)
  {
    Pow2Grows(0, k);
    MulComm(base, Pow2(k));
    MulStrict(0, base, Pow2(k));
    WrapIdentity(base * Pow2(k));
  }

  /** Out-of-range exponents end at the ceiling, unless the conversion saturates and
      an odd base wraps to a positive value below it. */
  lemma DelayOutOfRange(base: int, max: int, k: nat, saturates: bool)
    requires 0 < base < TWO63 && max < TWO63 && k >= 63
    ensures Ideal(base, max, k) == max
    ensures Delay(base, max, k, saturates) == max <==> (saturates && base % 2 == 1 ==> base + max <= TWO63)
  {
    WrappedExtremes(base);
    IdealOutOfRange(base, max, k);
  }

  lemma IdealOutOfRange(base: int, max: int, k: nat)
    requires 0 < base && max < TWO63 && k >= 63
    ensures Ideal(base, max, k) == max
  {
    Pow2Values();
    Pow2Grows(63, k);
    MulOrder(1, base, Pow2(k));
  }

  /** What wrapping leaves of the two extremes times base. */
  lemma WrappedExtremes(base: int)
    requires 0 < base < TWO63
    ensures Wrap64((TWO63 - 1) * base) == if base % 2 == 0 then -base else TWO63 - base
    ensures Wrap64(-TWO63 * base) == if base % 2 == 0 then 0 else -TWO63
  {
    var half := base / 2;
    if base % 2 == 0 {
      WrapCongruent(-base, half);
      WrapCongruent(0, -half);
      assert (TWO63 - 1) * base == -base + half * TWO64;
      assert -TWO63 * base == 0 + (-half) * TWO64;
    } else {
      WrapCongruent(TWO63 - base, half);
      WrapCongruent(-TWO63, -half);
      assert (TWO63 - 1) * base == (TWO63 - base) + half * TWO64;
      assert -TWO63 * base == -TWO63 + (-half) * TWO64;
    }
  }

  lemma WrapCongruent(x: int, q: int)
    requires -TWO63 <= x < TWO63
    ensures Wrap64(x + q * TWO64) == x
  {
    assert (x + q * TWO64) % TWO64 == x % TWO64;
  }

  // ----- the theorems -----

  lemma SmallExponentsFit(base: int, k: nat, b: nat)
    requires 0 < base < Pow2(b) && b <= 63 && k + b < 64
    ensures base * Pow2(k) < TWO63
  {
    Pow2Grows(0, k);
    MulStrict(base, Pow2(b), Pow2(k));
    Pow2Add(b, k);
    Pow2Grows(b + k, 63);
    Pow2Values();
  }

  lemma WrappedIsLarge(base: int, max: int, k: nat, v: nat, m: int, first: nat)
    requires base == m * Pow2(v) && first <= k <= 62 && first + v <= 63 && max < Pow2(first + v)
    ensures Wrap64(base * Pow2(k)) <= 0 || Wrap64(base * Pow2(k)) > max
  {
    Pow2Values();
    var j := Min(k + v, 64);
    var rest := k + v - j;
    Pow2Add(v, k);
    Pow2Add(rest, j);
    Pow2Add(64 - j, j);
    Pow2Grows(0, j);
    Pow2Grows(first + v, j);
    MulAssoc(m, Pow2(v), Pow2(k));
    MulAssoc(m, Pow2(rest), Pow2(j));
    WrapOfMultiple(base * Pow2(k), Pow2(j), Pow2(64 - j), m * Pow2(rest));
  }

  /** The wrapped and clamped delay is the unbounded one for every exponent, as long
      as the ceiling is small against the factor 2^v in base: up to 2^(first + v),
      where every wrapping exponent below `first` has been looked at by itself. */
  lemma DelayIsIdealFrom(base: int, max: int, k: nat, saturates: bool, b: nat, v: nat, m: int, first: nat)
    requires 0 < base < Pow2(b) && base == m * Pow2(v) && b <= 63
    requires 64 - b <= first && first + v <= 63 && max < Pow2(first + v)
    requires forall j :: 64 - b <= j < first && j <= 62 ==> Wrap64(Pow2(j) * base) <= 0 || Wrap64(Pow2(j) * base) > max
    requires base % 2 == 1 ==> base + max <= TWO63
    ensures Delay(base, max, k, saturates) == Ideal(base, max, k)
  {
    Pow2Values();
    Pow2Grows(b, 63);
    Pow2Grows(first + v, 63);
    if k >= 63 {
      DelayOutOfRange(base, max, k, saturates);
    } else if base * Pow2(k) < TWO63 {
      DelayBeforeWrapping(base, max, k, saturates);
    } else {
      if k + b < 64 {
        SmallExponentsFit(base, k, b);
      }
      if k >= first {
        WrappedIsLarge(base, max, k, v, m, first);
      }
      MulComm(base, Pow2(k));
      DelayAtTheCeiling(base, max, k, saturates);
    }
  }

  lemma DelayAtTheCeiling(base: int, max: int, k: nat, saturates: bool)
    requires k <= 62 && max < TWO63 <= base * Pow2(k)
    requires Wrap64(base * Pow2(k)) <= 0 || Wrap64(base * Pow2(k)) > max
    ensures Delay(base, max, k, saturates) == Ideal(base, max, k)
  {
    MulComm(base, Pow2(k));
  }

  /** With no exponent looked at by itself: base below 2^b and divisible by 2^v, and
      a ceiling below 2^(64-b+v). */
  lemma DelayIsIdeal(base: int, max: int, k: nat, saturates: bool, b: nat, v: nat, m: int)
    requires 0 < base < Pow2(b) && base == m * Pow2(v) && v < b <= 63
    requires max < Pow2(64 - b + v)
    requires base % 2 == 1 ==> base + max <= TWO63
    ensures Delay(base, max, k, saturates) == Ideal(base, max, k)
  {
    DelayIsIdealFrom(base, max, k, saturates, b, v, m, 64 - b);
  }

  /** The product fits, or what wrapping leaves of it is out of the clamp's range; and
      where the conversion itself is out of range, it does not saturate, or the base
      is even, or base and ceiling fit together. */
  predicate Harmless(base: int, max: int, k: nat, saturates: bool) {
    if k <= 62 then base * Pow2(k) < TWO63 || Wrap64(base * Pow2(k)) <= 0 || Wrap64(base * Pow2(k)) >= max
    else saturates && base % 2 == 1 ==> base + max <= TWO63
  }

  /** For any positive base, any ceiling and every exponent: exactly when the code
      meets the ideal. */
  lemma DelayIsIdealIff(base: int, max: int, k: nat, saturates: bool)
    requires 0 < base < TWO63 && max < TWO63
    ensures Delay(base, max, k, saturates) == Ideal(base, max, k) <==> Harmless(base, max, k, saturates)
  {
    MulComm(base, Pow2(k));
    if k > 62 {
      DelayOutOfRange(base, max, k, saturates);
    } else if base * Pow2(k) < TWO63 {
      DelayBeforeWrapping(base, max, k, saturates);
    } else {
      ClampHitsCeilingIff(Pow2(k) * base, max);
    }
  }

  lemma ClampHitsCeilingIff(x: int, max: int)
    ensures Clamp(Wrap64(x), max) == max <==> Wrap64(x) <= 0 || Wrap64(x) >= max
  {
  }

  lemma MulComm(a: int, b: int)
    ensures a * b == b * a
  {
  }

  lemma {:induction false} IdealIsMonotone(base: int, max: int, j: nat, k: nat)
    requires 0 < base && j <= k
    ensures Min(base, max) <= Ideal(base, max, j) <= Ideal(base, max, k) <= max
  {
    Pow2Grows(0, j);
    Pow2Grows(j, k);
    assert base * 1 <= base * Pow2(j) <= base * Pow2(k);
  }

  // ----- the shipped configurations -----

  /** The login limiter: one second doubling up to sixty. */
  lemma LimiterDefaults(k: nat, saturates: bool)
    ensures Delay(SECOND, 60 * SECOND, k, saturates) == Ideal(SECOND, 60 * SECOND, k)
  {
    Pow2Values();
    assert Pow2(9) == 512;
    Pow2Add(30, 13);
    assert Pow2(13) == 8 * Pow2(10);
    DelayIsIdeal(SECOND, 60 * SECOND, k, saturates, 30, 9, 1_953_125);
  }

  /** The dispatcher: ten seconds doubling up to an hour. Exponents 30 and 31 are
      the first to wrap and are looked at by themselves. */
  lemma DispatcherDefaults(k: nat, saturates: bool)
    ensures Delay(10 * SECOND, 3600 * SECOND, k, saturates) == Ideal(10 * SECOND, 3600 * SECOND, k)
  {
    Pow2Values();
    Pow2Add(30, 1);
    Pow2Add(32, 2);
    Pow2Add(32, 10);
    assert Pow2(31) * (10 * SECOND) == 21_474_836_480_000_000_000;
    assert Pow2(30) * (10 * SECOND) == 10_737_418_240_000_000_000;
    DelayIsIdealFrom(10 * SECOND, 3600 * SECOND, k, saturates, 34, 10, 9_765_625, 32);
  }

  /** Not every configuration is so lucky: with a base of 2^34+1 nanoseconds (about
      17 seconds) the thirtieth doubling wraps round to one second, far below the
      hour it should have been. */
  lemma DelayCanCollapse()
    ensures Delay(0x4_0000_0001, 3600 * SECOND, 30, true) == 0x4000_0000 < Ideal(0x4_0000_0001, 3600 * SECOND, 30)
  {
    Pow2Values();
    assert Pow2(30) * 0x4_0000_0001 == TWO64 + 0x4000_0000;
  }

  /** Nor is the out-of-range half empty: where the conversion saturates, the largest
      base and ceiling end in a delay of one nanosecond. */
  lemma SaturationCanCollapse()
    ensures Delay(TWO63 - 1, TWO63 - 1, 63, true) == 1 < Ideal(TWO63 - 1, TWO63 - 1, 63)
  {
    WrappedExtremes(TWO63 - 1);
    IdealOutOfRange(TWO63 - 1, TWO63 - 1, 63);
  }
}
