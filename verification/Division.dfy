/** Multiplication and division of integers by a fixed positive number. */
module Division {

  lemma {:induction false} MulGap(a: int, b: int, d: nat)
    requires a <= b
    ensures b * d - a * d == (b - a) * d >= 0
  { }

  lemma {:induction false} MulOrder(a: int, b: int, d: nat)
    requires d > 0
    ensures a * d < b * d <==> a < b
  {
    if a < b {
      MulGap(a + 1, b, d);
      assert (a + 1) * d == a * d + d;
    } else {
      MulGap(b, a, d);
    }
  }

  lemma {:induction false} QuotientBounds(n: nat, d: nat)
    requires d > 0
    ensures n / d * d <= n < (n / d + 1) * d
  {
    assert n == n / d * d + n % d;
    assert (n / d + 1) * d == n / d * d + d;
  }

  lemma {:induction false} QuotientIs(n: nat, d: nat, q: nat, r: nat)
    requires d > 0 && n == q * d + r && r < d
    ensures n / d == q && n % d == r
  {
    var e := n / d - q;
    assert e * d == r - n % d;
    MulOrder(e, 1, d);
    MulOrder(-1, e, d);
  }

  /** Halving first does not change a quotient by an even number. */
  lemma {:induction false} DivideHalf(m: nat, d: nat)
    requires d > 0
    ensures m / (2 * d) == m / 2 / d
  {
    var q, r := m / 2 / d, m / 2 % d;
    assert m / 2 == q * d + r;
    assert m == q * (2 * d) + (2 * r + m % 2);
    QuotientIs(m, 2 * d, q, 2 * r + m % 2);
  }
}
