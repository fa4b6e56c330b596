/** Products of reals keep order. */
module RealOrder {

  lemma ScaledOrder(c: real, x: real, y: real)
    requires c >= 0.0 && x <= y
    ensures c * x <= c * y
  {
  }

  lemma ScaledStrictly(c: real, x: real, y: real)
    requires c > 0.0 && x < y
    ensures c * x < c * y
  {
  }

  /** A share of a whole. */
  lemma ShareOf(c: real, x: real)
    requires c >= 0.0 && 0.0 <= x <= 1.0
    ensures 0.0 <= c * x <= c
  {
    var rest := 1.0 - x;
    ScaledOrder(c, 0.0, x);
    ScaledOrder(c, 0.0, rest);
    assert c * x + c * rest == c;
  }
}
