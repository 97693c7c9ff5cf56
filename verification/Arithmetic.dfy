/** Products and quotients. */
module Arithmetic {

  lemma MulOrder(d: int, a: int, b: int)
    requires d >= 0
    ensures a <= b ==> d * a <= d * b
  {
  }

  /** Quotient and remainder are the only ones. */
  lemma QuotientIs(x: int, d: int, q: int, r: int)
    requires d > 0 && x == d * q + r && 0 <= r < d
    ensures x / d == q && x % d == r
  {
    assert d * (q - x / d) == x % d - r;
    MulOrder(d, 1, q - x / d);
    MulOrder(d, q - x / d, -1);
  }

  lemma QuotientAtLeast(x: int, d: int, q: int)
    requires d > 0 && d * q <= x
    ensures q <= x / d
  {
    assert d * (q - x / d) <= x % d;
    MulOrder(d, 1, q - x / d);
  }
}
