/**
 Binary floating-point numbers with a 53-bit significand, as far as dividing one positive integer by
 another and taking the ceiling needs them: rounding to nearest with ties to even (section 4.3.1 of
 IEEE 754-2019), correctly rounded division (section 5.4.1), exact rounding towards positive.
 The exponent is unbounded: no quotient of two integers up to 2^53 overflows or is subnormal.
 */
module Float64 {
  import opened Arithmetic

  const TWO52: nat := 0x10_0000_0000_0000
  const TWO53: nat := 0x20_0000_0000_0000

  function Pow2(n: nat): (p: nat)
    ensures p > 0
  {
    if n == 0 then 1 else 2 * Pow2(n - 1)
  }

  /** The number `significand * 2^exponent`. */
  datatype F64 = F64(significand: nat, exponent: int)

  predicate Normal(x: F64) {
    TWO52 <= x.significand < TWO53
  }

  // The value of a float as a fraction of two integers.
  function Numerator(x: F64): (n: nat) {
    if x.exponent >= 0 then x.significand * Pow2(x.exponent) else x.significand
  }

  function Denominator(x: F64): (d: nat)
    ensures d > 0
  {
    if x.exponent >= 0 then 1 else Pow2(-x.exponent)
  }

  /** A fraction scaled by a power of two: `p / q * 2^exponent`. */
  datatype Scaled = Scaled(p: nat, q: nat, exponent: int)

  /** Doubles the numerator until the quotient is at least 2^52. */
  function ScaleUp(s: Scaled): (r: Scaled)
    requires s.p > 0 && s.q > 0
    ensures r.q == s.q && r.p >= TWO52 * r.q
    ensures s.p < TWO53 * s.q ==> r.p < TWO53 * r.q
    decreases TWO52 * s.q - s.p
  {
    if s.p >= TWO52 * s.q then s else ScaleUp(Scaled(2 * s.p, s.q, s.exponent - 1))
  }

  /** Doubles the denominator until the quotient is below 2^53. */
  function ScaleDown(s: Scaled): (r: Scaled)
    requires s.p > 0 && s.q > 0
    ensures r.p == s.p && r.q > 0 && r.p < TWO53 * r.q
    ensures s.p >= TWO52 * s.q ==> r.p >= TWO52 * r.q
    decreases s.p - s.q
  {
    if s.p < TWO53 * s.q then s else ScaleDown(Scaled(s.p, 2 * s.q, s.exponent + 1))
  }

  /** The nearest integer to p / q, the even one if two are equally near. */
  function RoundHalfEven(p: nat, q: nat): (n: nat)
    requires q > 0
  {
    var n, r := p / q, p % q;
    if 2 * r < q then n else if 2 * r > q then n + 1 else if n % 2 == 0 then n else n + 1
  }

  /** The float nearest to p / q. */
  function RoundRatio(p: nat, q: nat): (x: F64)
    requires p > 0 && q > 0
    ensures Normal(x)
  {
    var s := ScaleDown(ScaleUp(Scaled(p, q, 0)));
    var n := RoundHalfEven(s.p, s.q);
    RoundWithin(s.p, s.q);
    if n == TWO53 then F64(TWO52, s.exponent + 1) else F64(n, s.exponent)
  }

  function FromInt(n: nat): (x: F64)
    requires n > 0
    ensures Normal(x)
  {
    RoundRatio(n, 1)
  }

  /** The correctly rounded quotient. */
  function Divide(x: F64, y: F64): (z: F64)
    requires Normal(x) && Normal(y)
    ensures Normal(z)
  {
    NormalIsPositive(x);
    NormalIsPositive(y);
    MulPositive(Numerator(x), Denominator(y));
    MulPositive(Denominator(x), Numerator(y));
    RoundRatio(Numerator(x) * Denominator(y), Denominator(x) * Numerator(y))
  }

  /** The least integer that is not below the float. */
  function Ceil(x: F64): (n: nat) {
    (Numerator(x) + Denominator(x) - 1) / Denominator(x)
  }

  // ---- small arithmetic ----

  lemma {:induction false} NormalIsPositive(x: F64)
    requires Normal(x)
    ensures Numerator(x) > 0
  {
    if x.exponent >= 0 {
      MulPositive(x.significand, Pow2(x.exponent));
    }
  }

  /** A fraction not above an integer is not rounded above it. */
  lemma {:induction false} RoundAtMost(p: nat, q: nat, m: nat)
    requires q > 0 && p <= m * q
    ensures RoundHalfEven(p, q) <= m
  {
    DivMod(p, q);
    var n, r := p / q, p % q;
    if n >= m {
      MulMonotone(m, n, q);
      assert n * q == m * q + (n - m) * q;
      if n > m { MulMonotone(1, n - m, q); }
    }
  }

  /** A fraction more than half above an integer is rounded above it. */
  lemma {:induction false} RoundAbove(p: nat, q: nat, m: nat)
    requires q > 0 && 2 * p > 2 * m * q + q
    ensures RoundHalfEven(p, q) > m
  {
    DivMod(p, q);
    var n, r := p / q, p % q;
    assert (n + 1) * q == n * q + q;
    if n < m { MulMonotone(n + 1, m, q); }
  }

  lemma {:induction false} RoundExact(m: nat, q: nat)
    requires q > 0
    ensures RoundHalfEven(m * q, q) == m
  {
    DivMod(m * q, q);
    var n, r := m * q / q, m * q % q;
    assert (m - n) * q == r;
    assert (n - m) * q == n * q - m * q;
    if n < m { MulMonotone(1, m - n, q); }
    if n > m { MulMonotone(1, n - m, q); }
  }

  lemma {:induction false} RoundWithin(p: nat, q: nat)
    requires q > 0 && TWO52 * q <= p < TWO53 * q
    ensures TWO52 <= RoundHalfEven(p, q) <= TWO53
  {
    RoundAtMost(p, q, TWO53);
    DivMod(p, q);
    assert (p / q + 1) * q == (p / q) * q + q;
    if p / q < TWO52 { MulMonotone(p / q + 1, TWO52, q); }
  }

  /** Rounding yields the nearest integer, and of two equally near ones the even one. */
  lemma {:induction false} RoundsToNearest(p: nat, q: nat)
    requires q > 0
    ensures var n := RoundHalfEven(p, q);
            && 2 * p - q <= 2 * (n * q) <= 2 * p + q
            && (2 * (n * q) == 2 * p - q || 2 * (n * q) == 2 * p + q ==> n % 2 == 0)
  {
    DivMod(p, q);
    MulPlusOne(p / q, q);
  }

  // ---- what scaling keeps ----

  lemma {:induction false} TwiceMoves(a: nat, b: nat)
    ensures (2 * a) * b == a * (2 * b)
  {}

  lemma {:induction false} ScaleUpKeepsValue(s: Scaled)
    requires s.p > 0 && s.q > 0
    ensures var r := ScaleUp(s); r.exponent <= s.exponent && r.p == s.p * Pow2(s.exponent - r.exponent)
    decreases TWO52 * s.q - s.p
  {
    if s.p < TWO52 * s.q {
      var next := Scaled(2 * s.p, s.q, s.exponent - 1);
      ScaleUpKeepsValue(next);
      var k := next.exponent - ScaleUp(next).exponent;
      assert Pow2(k + 1) == 2 * Pow2(k);
      TwiceMoves(s.p, Pow2(k));
    }
  }

  lemma {:induction false} ScaleUpOfMultiple(s: Scaled, t: nat)
    requires s.p > 0 && s.q > 0 && t > 0
    ensures t * s.p > 0 && t * s.q > 0
    ensures var r := ScaleUp(s); ScaleUp(Scaled(t * s.p, t * s.q, s.exponent)) == Scaled(t * r.p, t * r.q, r.exponent)
    decreases TWO52 * s.q - s.p
  {
    MulPositive(t, s.p);
    MulPositive(t, s.q);
    SameComparison(TWO52 * s.q, s.p, t);
    assert t * (TWO52 * s.q) == TWO52 * (t * s.q);
    if s.p < TWO52 * s.q {
      assert t * (2 * s.p) == 2 * (t * s.p);
      ScaleUpOfMultiple(Scaled(2 * s.p, s.q, s.exponent - 1), t);
    }
  }

  lemma {:induction false} ScaleDownOfMultiple(s: Scaled, t: nat)
    requires s.p > 0 && s.q > 0 && t > 0
    ensures t * s.p > 0 && t * s.q > 0
    ensures var r := ScaleDown(s);
            ScaleDown(Scaled(t * s.p, t * s.q, s.exponent)) == Scaled(t * r.p, t * r.q, r.exponent)
    decreases s.p - s.q
  {
    MulPositive(t, s.p);
    MulPositive(t, s.q);
    SameComparison(TWO53 * s.q, s.p, t);
    assert t * (TWO53 * s.q) == TWO53 * (t * s.q);
    if s.p >= TWO53 * s.q {
      assert t * (2 * s.q) == 2 * (t * s.q);
      ScaleDownOfMultiple(Scaled(s.p, 2 * s.q, s.exponent + 1), t);
    }
  }

  lemma {:induction false} SameComparison(a: nat, b: nat, t: nat)
    requires t > 0
    ensures a <= b <==> t * a <= t * b
  {
    if a <= b {
      MulMonotone(a, b, t);
    } else {
      MulMonotone(b + 1, a, t);
      assert (b + 1) * t == b * t + t;
    }
  }

  lemma {:induction false} RoundOfMultiple(p: nat, q: nat, t: nat)
    requires q > 0 && t > 0
    ensures t * q > 0 && RoundHalfEven(t * p, t * q) == RoundHalfEven(p, q)
  {
    MulPositive(t, q);
    DivMod(p, q);
    var n, r := p / q, p % q;
    assert t * p == n * (t * q) + t * r;
    SameComparison(q, r, t);
    DivUnique(t * p, t * q, n, t * r);
    SameComparison(2 * r, q, t);
    SameComparison(q, 2 * r, t);
    assert t * (2 * r) == 2 * (t * r);
  }

  /** The rounded value depends only on the ratio: a common factor makes no difference. */
  lemma {:induction false} RoundRatioOfMultiple(p: nat, q: nat, t: nat)
    requires p > 0 && q > 0 && t > 0
    ensures t * p > 0 && t * q > 0 && RoundRatio(t * p, t * q) == RoundRatio(p, q)
  {
    ScaleUpOfMultiple(Scaled(p, q, 0), t);
    var up := ScaleUp(Scaled(p, q, 0));
    ScaleDownOfMultiple(up, t);
    var s := ScaleDown(up);
    RoundOfMultiple(s.p, s.q, t);
  }

  // ---- the ceiling of a rounded quotient ----

  /** How a fraction below 2^53 is rounded: to `n / 2^k`, the significand being the rounded `p * 2^k / q`. */
  lemma {:induction false} RoundedValue(p: nat, q: nat) returns (k: nat, n: nat)
    requires p > 0 && q > 0 && p < TWO53 * q
    ensures n == RoundHalfEven(p * Pow2(k), q)
    ensures TWO52 * q <= p * Pow2(k) < TWO53 * q
    ensures var x := RoundRatio(p, q); Numerator(x) * Pow2(k) == n * Denominator(x)
  {
    var s := ScaleUp(Scaled(p, q, 0));
    ScaleUpKeepsValue(Scaled(p, q, 0));
    assert ScaleDown(s) == s;
    k := -s.exponent;
    n := RoundHalfEven(s.p, s.q);
    if n == TWO53 && k > 0 {
      assert Pow2(k) == 2 * Pow2(k - 1);
      assert RoundRatio(p, q) == F64(TWO52, s.exponent + 1);
      assert Pow2(0) == 1;
      assert TWO52 * Pow2(k) == TWO53 * Pow2(k - 1);
    } else if n == TWO53 {
      assert Pow2(1) == 2 * Pow2(0);
    }
  }

  /**
   Division is correctly rounded: the float is `n / 2^k` for an `n` of 53 bits (or 2^53) that differs
   from `p / q * 2^k` by at most one half, and is even where it differs by one half.
   */
  lemma {:induction false} QuotientIsNearest(p: nat, q: nat) returns (k: nat, n: nat)
    requires p > 0 && q > 0 && p < TWO53 * q
    ensures var x := RoundRatio(p, q); Numerator(x) * Pow2(k) == n * Denominator(x)
    ensures TWO52 <= n <= TWO53
    ensures 2 * (p * Pow2(k)) - q <= 2 * (n * q) <= 2 * (p * Pow2(k)) + q
    ensures 2 * (n * q) == 2 * (p * Pow2(k)) - q || 2 * (n * q) == 2 * (p * Pow2(k)) + q ==> n % 2 == 0
  {
    k, n := RoundedValue(p, q);
    RoundsToNearest(p * Pow2(k), q);
    RoundWithin(p * Pow2(k), q);
  }

  lemma {:induction false} UnitAbove(p: nat, q: nat, w: nat, m: nat)
    requires q > 0 && p <= m * q
    ensures RoundHalfEven(p * w, q) <= m * w
  {
    MulMonotone(p, m * q, w);
    MulSwap(m, q, w);
    RoundAtMost(p * w, q, m * w);
  }

  /**
   A fraction above an integer is at least 1/q above it, and rounding moves it by less than that:
   half a unit in the last place is at most p / (q * 2^53).
   */
  lemma {:induction false} UnitBelow(p: nat, q: nat, w: nat, m: nat)
    requires 0 < p <= TWO53 && q > 0 && w > 0
    requires m * q < p
    requires TWO52 * q <= p * w
    ensures m * w < RoundHalfEven(p * w, q)
  {
    var scaled, base := p * w, m * w;
    assert base * q + w <= scaled by {
      MulMonotone(m * q + 1, p, w);
      MulSwap(m, q, w);
      MulPlusOne(m * q, w);
    }
    assert scaled <= TWO53 * w by { MulMonotone(p, TWO53, w); }
    if 2 * w > q {
      assert 2 * base * q == 2 * (base * q) by { MulSwap(2, base, q); }
      RoundAbove(scaled, q, base);
    } else {
      assert scaled == TWO52 * q;
      RoundExact(TWO52, q);
      if TWO52 <= base { MulMonotone(TWO52, base, q); }
    }
  }

  /** The rounded value lies in the same half-open unit interval as the fraction itself. */
  lemma {:induction false} SameUnit(p: nat, q: nat, k: nat, m: nat)
    requires 0 < p <= TWO53 && q > 0 && m > 0
    requires (m - 1) * q < p <= m * q
    requires TWO52 * q <= p * Pow2(k)
    ensures (m - 1) * Pow2(k) < RoundHalfEven(p * Pow2(k), q) <= m * Pow2(k)
  {
    UnitAbove(p, q, Pow2(k), m);
    UnitBelow(p, q, Pow2(k), m - 1);
  }

  /** From a ratio known up to a common scale to its ceiling. */
  lemma {:induction false} CeilOfValue(num: nat, den: nat, n: nat, w: nat, m: nat)
    requires den > 0 && w > 0 && m > 0
    requires num * w == n * den
    requires (m - 1) * w < n <= m * w
    ensures CeilDiv(num, den) == m
  {
    MulMonotone(n, m * w, den);
    MulSwap(m, w, den);
    MulMonotone((m - 1) * w + 1, n, den);
    MulPlusOne((m - 1) * w, den);
    MulSwap(m - 1, w, den);
    MulPlusOne(m * den, w);
    if num > m * den {
      MulMonotone(m * den + 1, num, w);
    }
    if num <= (m - 1) * den {
      MulMonotone(num, (m - 1) * den, w);
    }
    CeilIs(num, den, m);
  }

  /** The ceiling of the rounded quotient is the ceiling of the exact one, for numerators up to 2^53. */
  lemma {:induction false} CeilOfRounded(p: nat, q: nat)
    requires 0 < p <= TWO53 && q > 0
    ensures Ceil(RoundRatio(p, q)) == CeilDiv(p, q)
  {
    var m := CeilDiv(p, q);
    CeilBounds(p, q);
    if p < TWO53 * q {
      var k, n := RoundedValue(p, q);
      SameUnit(p, q, k, m);
      var x := RoundRatio(p, q);
      CeilOfValue(Numerator(x), Denominator(x), n, Pow2(k), m);
    } else {
      LargestInteger();
    }
  }

  lemma {:induction false} LargestInteger()
    ensures RoundRatio(TWO53, 1) == F64(TWO52, 1)
    ensures Numerator(F64(TWO52, 1)) == TWO53
  {
    assert ScaleUp(Scaled(TWO53, 1, 0)) == Scaled(TWO53, 1, 0);
    assert ScaleDown(Scaled(TWO53, 1, 0)) == ScaleDown(Scaled(TWO53, 2, 1)) == Scaled(TWO53, 2, 1);
    RoundExact(TWO52, 2);
    assert Pow2(1) == 2 * Pow2(0) == 2;
  }

  lemma {:induction false} RoundOne(n: nat)
    ensures RoundHalfEven(n, 1) == n
  {}

  /** Integers up to 2^53 are represented exactly. */
  lemma {:induction false} IntegersAreExact(n: nat)
    requires 0 < n <= TWO53
    ensures Numerator(FromInt(n)) == n * Denominator(FromInt(n))
  {
    if n < TWO53 {
      var k, sig := RoundedValue(n, 1);
      RoundOne(n * Pow2(k));
      var x := FromInt(n);
      MulSwap(n, Pow2(k), Denominator(x));
      MulCancel(Numerator(x), n * Denominator(x), Pow2(k));
    } else {
      LargestInteger();
    }
  }

  lemma {:induction false} CommonFactor(nx: nat, ny: nat, dx: nat, dy: nat, a: nat, b: nat)
    requires nx == a * dx && ny == b * dy
    ensures nx * dy == dx * dy * a && dx * ny == dx * dy * b
  {}

  /**
   The ceiling of the floating-point quotient of two integers up to 2^53 is exact: rounding never
   carries a quotient across an integer.
   */
  lemma {:induction false} CeilOfQuotientIsExact(a: nat, b: nat)
    requires 0 < a <= TWO53 && 0 < b <= TWO53
    ensures Ceil(Divide(FromInt(a), FromInt(b))) == CeilDiv(a, b)
  {
    var x, y := FromInt(a), FromInt(b);
    var dx, dy := Denominator(x), Denominator(y);
    IntegersAreExact(a);
    IntegersAreExact(b);
    CommonFactor(Numerator(x), Numerator(y), dx, dy, a, b);
    MulPositive(dx, dy);
    RoundRatioOfMultiple(a, b, dx * dy);
    CeilOfRounded(a, b);
  }
}
