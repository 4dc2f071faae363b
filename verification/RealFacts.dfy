/** The few facts about products and quotients of reals that the curve proofs rest on. */
module RealFacts {

  lemma ScaleLe(a: real, b: real, c: real)
    requires a <= b && 0.0 <= c
    ensures a * c <= b * c && c * a <= c * b
  {
    if c > 0.0 {
      ProductPositive(b - a, c);
      assert (b - a) * c == b * c - a * c;
    }
  }

  lemma ProductPositive(a: real, b: real)
    requires a >= 0.0 && b >= 0.0
    ensures a * b >= 0.0
  {
  }

  lemma SquareNonNegative(a: real)
    ensures a * a >= 0.0
  {
    if a < 0.0 {
      assert a * a == (-a) * (-a);
      ProductPositive(-a, -a);
    } else {
      ProductPositive(a, a);
    }
  }

  lemma SquareStrict(r: real, a: real)
    requires 0.0 <= r < a
    ensures r * r < a * a
  {
    ScaleLe(r, a, r);
    StrictScale(r, a, a);
    calc { r * r; <= a * r; == r * a; < a * a; }
  }

  /** Squares order non-negative numbers. */
  lemma RootLe(a: real, r: real)
    requires a >= 0.0 && r >= 0.0 && a * a <= r * r
    ensures a <= r
  {
    if a > r { SquareStrict(r, a); }
  }

  lemma StrictScale(a: real, b: real, c: real)
    requires a < b && 0.0 < c
    ensures a * c < b * c
  {
    assert (b - a) * c == b * c - a * c;
  }

  /** A quotient times its divisor. */
  lemma DivMul(a: real, b: real)
    requires b != 0.0
    ensures a / b * b == a
  {
  }

  /** Moving a bound across a positive divisor. */
  lemma DivBounds(a: real, b: real, lo: real, hi: real)
    requires b > 0.0 && lo * b <= a <= hi * b
    ensures lo <= a / b <= hi
  {
    var q := a / b;
    DivMul(a, b);
    if q < lo { StrictScale(q, lo, b); }
    if q > hi { StrictScale(hi, q, b); }
  }

  lemma QuotientOrdered(a: real, b: real, c: real)
    requires 0.0 <= a <= b <= c && c > 0.0
    ensures 0.0 <= a / c <= b / c <= 1.0
    ensures a == 0.0 ==> a / c == 0.0
    ensures a == c ==> a / c == 1.0
  {
    DivBounds(b, c, 0.0, 1.0);
    DivMul(b, c);
    DivBounds(a, c, 0.0, b / c);
  }

  function Times(x: real, y: real): real { x * y }

  lemma TimesSigns(x: real, y: real)
    ensures x > 0.0 && y > 0.0 ==> Times(x, y) > 0.0
    ensures x < 0.0 && y < 0.0 ==> Times(x, y) > 0.0
  {
    if x > 0.0 && y > 0.0 {} else {}
  }

  lemma TimesZero(x: real, y: real)
    requires x == 0.0
    ensures Times(x, y) == 0.0
  {
  }

  lemma QuotientOfTimes(c: real, span: real)
    requires span > 0.0
    ensures Times(c, span) / span == c
  {
    assert Times(c, span) == c * span;
    DivBounds(Times(c, span), span, c, c);
  }

  function Square(x: real): real { Times(x, x) }

  lemma SquareSign(d: real)
    ensures d != 0.0 ==> Square(d) > 0.0
    ensures d == 0.0 ==> Square(d) == 0.0
  {
    hide Times;
    TimesSigns(d, d);
    if d == 0.0 { TimesZero(d, d); }
  }

  lemma SquareOfDifference(x: real, m: real)
    ensures Square(x - m) == Square(x) - 2.0 * Times(m, x) + Square(m)
  {
  }

  lemma TimesDistributes(a: real, x: real, y: real)
    ensures Times(a, x + y) == Times(a, x) + Times(a, y)
    ensures Times(x + y, a) == Times(x, a) + Times(y, a)
  {
  }

  lemma TimesUnits(a: real, n: real)
    ensures n == 0.0 ==> Times(a, n) == 0.0 && Times(n, a) == 0.0
    ensures n == 1.0 ==> Times(a, n) == a && Times(n, a) == a
  {
  }
}
