/** Single-step facts of real multiplication and division, stated so that each proof stays small. */
module RealArith {

  lemma MulMonotone(a: real, x: real, y: real)
    requires 0.0 <= a && x <= y
    ensures a * x <= a * y
  {
  }

  lemma MulStrict(a: real, x: real, y: real)
    requires 0.0 < a && x < y
    ensures a * x < a * y
  {
  }

  lemma MulSign(a: real, x: real)
    requires 0.0 <= a && 0.0 <= x
    ensures 0.0 <= a * x
  {
  }

  lemma MulPos(a: real, x: real)
    requires 0.0 < a && 0.0 < x
    ensures 0.0 < a * x
  {
  }

  /** A part of something non-negative is at most the whole. */
  lemma MulPart(a: real, x: real)
    requires 0.0 <= a && 0.0 <= x <= 1.0
    ensures 0.0 <= a * x <= a && 0.0 <= x * a <= a
  {
    MulSign(a, x);
    MulSign(a, 1.0 - x);
    MulDistrib(a, 1.0, x);
    MulComm(a, x);
  }

  lemma MulComm(a: real, x: real)
    ensures a * x == x * a
  {
  }

  lemma MulAssoc(x: real, y: real, z: real)
    ensures x * y * z == x * (y * z)
  {
  }

  lemma MulDistrib(a: real, x: real, y: real)
    ensures a * (x + y) == a * x + a * y
    ensures a * (x - y) == a * x - a * y
  {
  }

  lemma MulDistribRight(x: real, y: real, a: real)
    ensures (x + y) * a == x * a + y * a
  {
  }

  /** Cancelling a positive factor. */
  lemma MulCancel(a: real, x: real, y: real)
    requires 0.0 < a && a * x <= a * y
    ensures x <= y
  {
    if y < x { MulStrict(a, y, x); }
  }

  lemma DivMul(x: real, d: real)
    requires d != 0.0
    ensures x / d * d == x
    ensures d * (x / d) == x
  {
  }

  lemma MulDiv(x: real, d: real)
    requires d != 0.0
    ensures x * d / d == x
  {
  }

  lemma DivMonotone(x: real, y: real, d: real)
    requires 0.0 < d && x <= y
    ensures x / d <= y / d
  {
    DivMul(x, d);
    DivMul(y, d);
    MulCancel(d, x / d, y / d);
  }

  /** Clearing a positive denominator, either way round. */
  lemma DivAtMost(x: real, d: real, q: real)
    requires 0.0 < d
    ensures x / d <= q <==> x <= q * d
    ensures q <= x / d <==> q * d <= x
  {
    DivMul(x, d);
    ScaleOrder(d, x / d, q);
    ScaleOrder(d, q, x / d);
  }

  lemma ScaleOrder(d: real, p: real, q: real)
    requires 0.0 < d
    ensures p <= q <==> p * d <= q * d
  {
    if p <= q { MulMonotone(d, p, q); } else { MulStrict(d, q, p); }
  }

  lemma DivAdd(x: real, y: real, d: real)
    requires d != 0.0
    ensures (x + y) / d == x / d + y / d
  {
    DivMul(x, d);
    DivMul(y, d);
    MulDistribRight(x / d, y / d, d);
    MulDiv(x / d + y / d, d);
  }
}
