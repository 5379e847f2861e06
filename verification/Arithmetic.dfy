/** Division facts that the solver does not find by itself. */
module Arithmetic {

  lemma DivDiv(c: nat, a: nat, b: nat)
    requires a > 0 && b > 0 && a * b > 0
    ensures c / (a * b) == c / a / b
  {
    var t, r := c / a, c % a;
    var q, s := t / b, t % b;
    Euclid(c, a);
    Euclid(t, b);
    Regroup(a, b, t, q, s);
    Remainder(a, b, s, r);
    QuotientUnique(c, a * b, q, a * s + r);
  }

  lemma Euclid(x: nat, y: nat)
    requires y > 0
    ensures x == y * (x / y) + x % y && x % y < y
  {
  }

  lemma Regroup(a: nat, b: nat, t: nat, q: nat, s: nat)
    requires t == b * q + s
    ensures a * t == a * b * q + a * s
  {
    assert a * t == a * (b * q) + a * s;
    assert a * (b * q) == a * b * q;
  }

  lemma Remainder(a: nat, b: nat, s: nat, r: nat)
    requires s < b && r < a
    ensures a * s + r < a * b
  {
    MulGap(a, s, b);
  }

  lemma QuotientUnique(c: nat, m: nat, q: nat, r: nat)
    requires m > 0 && c == m * q + r && r < m
    ensures c / m == q
  {
    if c / m < q {
      MulGap(m, c / m, q);
    } else if q < c / m {
      MulGap(m, q, c / m);
    }
  }

  lemma {:induction false} MulGap(m: nat, a: nat, b: nat)
    requires a < b
    ensures m * a + m <= m * b
  {
    if b == a + 1 {
      assert m * b == m * a + m;
    } else {
      MulGap(m, a, b - 1);
      assert m * b == m * (b - 1) + m;
    }
  }

  /** Dividing by a power of two keeps the order of the exponents: what agrees after dropping k
      bits agrees after dropping more. */
  lemma DivCoarser(x: nat, y: nat, a: nat, b: nat)
    requires a > 0 && b > 0 && a * b > 0 && x / a == y / a
    ensures x / (a * b) == y / (a * b)
  {
    DivDiv(x, a, b);
    DivDiv(y, a, b);
  }
}
