/** Integer arithmetic that the solver does not find by itself. */
module Arithmetic {

  lemma MulPositive(a: nat, b: nat)
    requires a > 0 && b > 0
    ensures a * b > 0
  {}

  lemma MulMonotone(a: nat, b: nat, c: nat)
    requires a <= b
    ensures a * c <= b * c
  {
    assert b * c == a * c + (b - a) * c;
  }

  lemma MulSwap(a: nat, b: nat, c: nat)
    ensures a * b * c == a * c * b
  {}

  lemma MulPlusOne(a: nat, c: nat)
    ensures (a + 1) * c == a * c + c
  {}

  lemma Distribute(a: nat, b: nat, c: nat)
    ensures (a + b) * c == a * c + b * c
  {}

  lemma MulCancel(a: nat, b: nat, c: nat)
    requires c > 0 && a * c == b * c
    ensures a == b
  {
    MulPlusOne(a, c);
    MulPlusOne(b, c);
    if a < b { MulMonotone(a + 1, b, c); }
    if b < a { MulMonotone(b + 1, a, c); }
  }

  /** Euclidean division, stated for use. */
  lemma DivMod(p: nat, q: nat)
    requires q > 0
    ensures p == (p / q) * q + p % q && p % q < q
  {}

  lemma ModAtMost(p: nat, q: nat)
    requires q > 0
    ensures 0 <= p % q <= p && p % q < q
  {
    DivMod(p, q);
    assert (p / q) * q >= 0;
  }

  lemma QuotientBelow(p: nat, q: nat, limit: nat)
    requires q > 0
    ensures p / q < limit <==> p < limit * q
  {
    DivMod(p, q);
    var n := p / q;
    if n < limit {
      MulMonotone(n + 1, limit, q);
      MulPlusOne(n, q);
    } else {
      MulMonotone(limit, n, q);
    }
  }

  lemma DivUnique(a: nat, size: nat, q: nat, r: nat)
    requires 0 < size && a == q * size + r && r < size
    ensures a / size == q && a % size == r
  {
    DivMod(a, size);
    var q' := a / size;
    assert (q - q') * size == q * size - q' * size;
    assert (q' - q) * size == q' * size - q * size;
    if q > q' { MulMonotone(1, q - q', size); }
    if q' > q { MulMonotone(1, q' - q, size); }
  }

  function CeilDiv(n: nat, size: nat): (count: nat)
    requires 0 < size
  {
    (n + size - 1) / size
  }

  lemma CeilDivStep(n: nat, size: nat)
    requires 0 < size
    ensures CeilDiv(n + size, size) == CeilDiv(n, size) + 1
    ensures 0 < n <= size ==> CeilDiv(n, size) == 1
    ensures CeilDiv(0, size) == 0
  {
    assert n + size + size - 1 == (n + size - 1) + size;
    DivPlusOne(n + size - 1, size);
    if 0 < n <= size {
      DivUnique(n + size - 1, size, 1, n - 1);
    }
    DivUnique(size - 1, size, 0, size - 1);
  }

  lemma DivPlusOne(a: nat, size: nat)
    requires 0 < size
    ensures (a + size) / size == a / size + 1
  {
    var q, r := a / size, a % size;
    assert a + size == (q + 1) * size + r;
    DivUnique(a + size, size, q + 1, r);
  }

  lemma CeilIs(p: nat, q: nat, m: nat)
    requires q > 0 && m > 0
    requires (m - 1) * q < p <= m * q
    ensures CeilDiv(p, q) == m
  {
    assert m * q == (m - 1) * q + q;
    DivUnique(p + q - 1, q, m, p + q - 1 - m * q);
  }

  lemma CeilBounds(p: nat, q: nat)
    requires q > 0 && p > 0
    ensures CeilDiv(p, q) > 0
    ensures (CeilDiv(p, q) - 1) * q < p <= CeilDiv(p, q) * q
  {
    DivMod(p + q - 1, q);
    var m := CeilDiv(p, q);
    assert m * q == (m - 1) * q + q;
    assert m == 0 ==> m * q == 0;
  }
}
