/**
  Which cubic each piece is: the one through both knots whose slopes there are the two
  tangents, so neighbouring pieces join smoothly.
 */
module SplineShape {
  import opened HermiteCubic
  import opened LiquiditySpline
  import opened RealFacts
  import opened SplineEvaluation

  /** `p + m w + c w^2 + d w^3`. */
  function Cubic(p: real, m: real, c: real, d: real, w: real): real {
    p + Times(m, w) + Times(c, Square(w)) + Times(d, Times(Square(w), w))
  }

  /** Its derivative. */
  function CubicSlope(m: real, c: real, d: real, w: real): real {
    m + 2.0 * Times(c, w) + 3.0 * Times(d, Square(w))
  }

  lemma HermitePowers(p: real, q: real, a: real, b: real, t: real)
    ensures Hermite(p, q, a, b, t)
         == Cubic(p, a, 3.0 * (q - p) - 2.0 * a - b, a + b - 2.0 * (q - p), t)
  {
    var s, k := Square(t), Times(Square(t), t);
    assert Sq(t) == s && Cube(t) == k;
    hide Times, Square, Sq, Cube;
    BasisIn(t, s, k);
    hide H00, H10, H01, H11;
    BlendPowers(H00(t), p, H10(t), a, H01(t), q, H11(t), b, t, s, k);
  }

  lemma BasisIn(t: real, s: real, k: real)
    requires s == Sq(t) && k == Cube(t)
    ensures H00(t) == 2.0 * k - 3.0 * s + 1.0 && H10(t) == k - 2.0 * s + t
    ensures H01(t) == 3.0 * s - 2.0 * k && H11(t) == k - s
  {
  }

  lemma BlendPowers(f: real, p: real, g: real, a: real, h: real, q: real, l: real, b: real, t: real, s: real, k: real)
    requires f == 2.0 * k - 3.0 * s + 1.0 && g == k - 2.0 * s + t && h == 3.0 * s - 2.0 * k && l == k - s
    ensures Blend(f, p, g, a, h, q, l, b)
         == p + Times(a, t) + Times(3.0 * (q - p) - 2.0 * a - b, s) + Times(a + b - 2.0 * (q - p), k)
  {
    assert f * p == 2.0 * (k * p) - 3.0 * (s * p) + p;
    assert g * a == k * a - 2.0 * (s * a) + t * a;
    assert h * q == 3.0 * (s * q) - 2.0 * (k * q);
    assert l * b == k * b - s * b;
    assert Times(3.0 * (q - p) - 2.0 * a - b, s) == 3.0 * (s * q) - 3.0 * (s * p) - 2.0 * (s * a) - s * b;
    assert Times(a + b - 2.0 * (q - p), k) == k * a + k * b - 2.0 * (k * q) + 2.0 * (k * p);
  }

  lemma Stretch(c: real, h: real, s: real)
    requires h > 0.0
    ensures Times(c / h, Times(s, h)) == Times(c, s)
  {
    DivMul(c, h);
    var d := c / h;
    assert d * (s * h) == d * h * s;
  }

  lemma SquareOfProduct(s: real, h: real)
    ensures Square(Times(s, h)) == Times(Square(s), Square(h))
    ensures Times(Square(Times(s, h)), Times(s, h)) == Times(Times(Square(s), s), Times(Square(h), h))
  {
    assert s * h * (s * h) == s * s * (h * h);
    var u, v := s * s, h * h;
    assert u * v * (s * h) == u * s * (v * h);
  }

  lemma PowersPositive(h: real)
    requires h > 0.0
    ensures Square(h) > 0.0 && Times(Square(h), h) > 0.0
  {
    SquareSign(h);
    hide Square;
    TimesSigns(Square(h), h);
  }

  /** A cubic in the fraction of an interval of length `h` is one in the distance into it. */
  lemma CubicStretched(p: real, a: real, c: real, d: real, h: real, s: real)
    requires h > 0.0 && Square(h) > 0.0 && Times(Square(h), h) > 0.0
    ensures Cubic(p, a / h, c / Square(h), d / Times(Square(h), h), Times(s, h)) == Cubic(p, a, c, d, s)
  {
    SquareOfProduct(s, h);
    hide Square, Times;
    Stretch(a, h, s);
    Stretch(c, Square(h), Square(s));
    Stretch(d, Times(Square(h), h), Times(Square(s), s));
  }

  lemma SlopeStretched(a: real, c: real, d: real, h: real)
    requires h > 0.0 && Square(h) > 0.0 && Times(Square(h), h) > 0.0
    ensures CubicSlope(a / h, c / Square(h), d / Times(Square(h), h), h) == (a + 2.0 * c + 3.0 * d) / h
  {
    var m, e, f := a / h, c / Square(h), d / Times(Square(h), h);
    DivMul(a, h);
    DivMul(c, Square(h));
    DivMul(d, Times(Square(h), h));
    assert Times(e, h) * h == e * Square(h);
    assert Times(f, Square(h)) * h == f * Times(Square(h), h);
    var slope := CubicSlope(m, e, f, h);
    assert slope * h == m * h + 2.0 * (Times(e, h) * h) + 3.0 * (Times(f, Square(h)) * h);
    DivBounds(a + 2.0 * c + 3.0 * d, h, slope, slope);
  }

  /**
    Each piece is the cubic that leaves the left knot's price with the left tangent as its
    slope and arrives at the right knot's price with the right tangent as its slope.
   */
  lemma PieceIsCubic(knots: seq<Knot>, t: seq<real>, i: nat) returns (c: real, d: real)
    requires i + 1 < |knots| && |t| == |knots| && WellSpaced(knots)
    ensures var h := knots[i + 1].qty - knots[i].qty;
            && (forall q :: Piece(knots, t, i, q) == Cubic(knots[i].price, t[i], c, d, q - knots[i].qty))
            && Cubic(knots[i].price, t[i], c, d, h) == knots[i + 1].price
            && CubicSlope(t[i], c, d, h) == t[i + 1]
  {
    var h, p, r := knots[i + 1].qty - knots[i].qty, knots[i].price, knots[i + 1].price;
    assert h > 0.0;
    PowersPositive(h);
    var a, b := Times(h, t[i]), Times(h, t[i + 1]);
    var c', d' := 3.0 * (r - p) - 2.0 * a - b, a + b - 2.0 * (r - p);
    c, d := c' / Square(h), d' / Times(Square(h), h);
    BackToSlope(h, t[i]);
    BackToSlope(h, t[i + 1]);
    hide Times, Square, Hermite, WellSpaced;
    forall q ensures Piece(knots, t, i, q) == Cubic(p, t[i], c, d, q - knots[i].qty) {
      var s := Position(knots, i, q);
      DistanceIn(q - knots[i].qty, h);
      HermitePowers(p, r, a, b, s);
      CubicStretched(p, a, c', d', h, s);
      hide Cubic;
    }
    SlopeStretched(a, c', d', h);
    DifferenceQuotient(a, b, c', d', h);
    hide CubicSlope;
    CubicStretched(p, a, c', d', h, h / h);
    QuotientOne(h);
    CubicAtOne(p, a, c', d', h / h);
    hide Cubic;
  }

  lemma BackToSlope(h: real, m: real)
    requires h > 0.0
    ensures Times(h, m) / h == m
  {
    assert Times(h, m) == m * h;
    DivBounds(Times(h, m), h, m, m);
  }

  lemma DistanceIn(w: real, h: real)
    requires h > 0.0
    ensures Times(w / h, h) == w
  {
    DivMul(w, h);
  }

  lemma QuotientOne(h: real)
    requires h > 0.0
    ensures h / h == 1.0 && Times(h / h, h) == h
  {
    DivMul(h, h);
  }

  lemma CubicAtOne(p: real, a: real, c: real, d: real, s: real)
    requires s == 1.0
    ensures Cubic(p, a, c, d, s) == p + a + c + d
  {
  }

  lemma DifferenceQuotient(a: real, b: real, c: real, d: real, h: real)
    requires h > 0.0 && 2.0 * c + 3.0 * d == b - a
    ensures (a + 2.0 * c + 3.0 * d) / h == b / h
  {
    assert a + 2.0 * c + 3.0 * d == b;
  }
}
