/**
  The cubic Hermite interpolant on one unit interval, and why tangents between 0 and
  three times the rise make it monotone: the difference quotient is affine in either
  tangent, so it is at least the smallest of its values at the four corners
  (0,0), (3,0), (0,3) and (3,3), and each corner cubic is monotone on [0,1].
 */
module HermiteCubic {
  import opened RealFacts

  function Sq(t: real): real { t * t }

  function Cube(t: real): real { Sq(t) * t }

  function H00(t: real): real { 2.0 * Cube(t) - 3.0 * Sq(t) + 1.0 }

  function H10(t: real): real { Cube(t) - 2.0 * Sq(t) + t }

  function H01(t: real): real { -2.0 * Cube(t) + 3.0 * Sq(t) }

  function H11(t: real): real { Cube(t) - Sq(t) }

  /** Value at `t` with end values `p`, `q` and tangents scaled by the span `a`, `b`. */
  function Hermite(p: real, q: real, a: real, b: real, t: real): real {
    Blend(H00(t), p, H10(t), a, H01(t), q, H11(t), b)
  }

  function Blend(f: real, p: real, g: real, a: real, h: real, q: real, k: real, b: real): real {
    f * p + g * a + h * q + k * b
  }

  lemma BasisAtEnds(t: real)
    requires t == 0.0 || t == 1.0
    ensures H00(t) == 1.0 - t && H10(t) == 0.0 && H01(t) == t && H11(t) == 0.0
  {
    if t == 0.0 {} else {}
  }

  lemma HermiteEnds(p: real, q: real, a: real, b: real, t: real)
    ensures t == 0.0 ==> Hermite(p, q, a, b, t) == p
    ensures t == 1.0 ==> Hermite(p, q, a, b, t) == q
  {
    hide Sq, Cube, H00, H01, H10, H11, Blend;
    if t == 0.0 || t == 1.0 {
      BasisAtEnds(t);
      BlendEnds(H00(t), p, H10(t), a, H01(t), q, H11(t), b);
    }
  }

  lemma BlendEnds(f: real, p: real, g: real, a: real, h: real, q: real, k: real, b: real)
    requires g == 0.0 && k == 0.0
    ensures f == 1.0 && h == 0.0 ==> Blend(f, p, g, a, h, q, k, b) == p
    ensures f == 0.0 && h == 1.0 ==> Blend(f, p, g, a, h, q, k, b) == q
  {
  }

  // s*s + s*t + t*t, the difference quotient of the cube.
  function Quad(s: real, t: real): real { Sq(s) + s * t + Sq(t) }

  function Q01(s: real, t: real): real { 3.0 * (s + t) - 2.0 * Quad(s, t) }

  function Q10(s: real, t: real): real { Quad(s, t) - 2.0 * (s + t) + 1.0 }

  function Q11(s: real, t: real): real { Quad(s, t) - (s + t) }

  lemma CubeQuotient(s: real, t: real)
    ensures Cube(t) - Cube(s) == (t - s) * Quad(s, t)
    ensures Sq(t) - Sq(s) == (t - s) * (s + t)
  {
  }

  lemma BasisQuotients(s: real, t: real)
    ensures H01(t) - H01(s) == (t - s) * Q01(s, t)
    ensures H10(t) - H10(s) == (t - s) * Q10(s, t)
    ensures H11(t) - H11(s) == (t - s) * Q11(s, t)
  {
    CubeQuotient(s, t);
    var w, u, v := t - s, Quad(s, t), s + t;
    assert w * (3.0 * v - 2.0 * u) == 3.0 * (w * v) - 2.0 * (w * u);
    assert w * (u - 2.0 * v + 1.0) == w * u - 2.0 * (w * v) + w;
    assert w * (u - v) == w * u - w * v;
  }

  /** The four corner cubics have non-negative difference quotients on [0,1]. */
  lemma Corners(s: real, t: real)
    requires 0.0 <= s <= 1.0 && 0.0 <= t <= 1.0
    ensures Q01(s, t) >= 0.0
    ensures Q01(s, t) + 3.0 * Q10(s, t) >= 0.0
    ensures Q01(s, t) + 3.0 * Q11(s, t) >= 0.0
    ensures Q01(s, t) + 3.0 * Q10(s, t) + 3.0 * Q11(s, t) >= 0.0
  {
    CornerFlat(s, t);
    CornerLeft(s, t);
    CornerBoth(s, t);
    ProductPositive(s, t);
    ProductPositive(s, s);
    ProductPositive(t, t);
  }

  lemma CornerFlat(s: real, t: real)
    requires 0.0 <= s <= 1.0 && 0.0 <= t <= 1.0
    ensures Q01(s, t) >= 0.0
  {
    ProductBelow(s, s);
    ProductBelow(t, t);
    ProductBelow(s, t);
    ProductBelow(t, s);
    TimesIs(s, s);
    TimesIs(t, t);
    TimesIs(s, t);
    FlatBound(s, t, Sq(s), s * t, Sq(t));
  }

  lemma ProductBelow(x: real, y: real)
    requires 0.0 <= x && 0.0 <= y <= 1.0
    ensures Times(x, y) <= x && Times(y, x) <= x
  {
    var v := 1.0 - y;
    ProductPositive(x, v);
    TimesDistributes(x, y, v);
    TimesUnits(x, y + v);
  }

  lemma TimesIs(x: real, y: real)
    ensures Times(x, y) == x * y && Times(x, x) == Sq(x)
  {
  }

  lemma FlatBound(s: real, t: real, ss: real, st: real, tt: real)
    requires ss <= s && tt <= t && st <= s && st <= t
    ensures 3.0 * (s + t) - 2.0 * (ss + st + tt) >= 0.0
  {
  }

  lemma CornerLeft(s: real, t: real)
    requires 0.0 <= s <= 1.0 && 0.0 <= t <= 1.0
    ensures Quad(s, t) - 3.0 * (s + t) + 3.0 >= 0.0
  {
    var u, v := 1.0 - s, 1.0 - t;
    ProductPositive(u, u);
    ProductPositive(u, v);
    ProductPositive(v, v);
    assert u * u == Sq(s) - 2.0 * s + 1.0;
    assert v * v == Sq(t) - 2.0 * t + 1.0;
    assert u * v == s * t - s - t + 1.0;
  }

  lemma CornerBoth(s: real, t: real)
    ensures 4.0 * Quad(s, t) - 6.0 * (s + t) + 3.0 >= 0.0
  {
    var u, v := s + t - 1.0, t - s;
    SquareNonNegative(u);
    SquareNonNegative(v);
    assert u * u == Sq(s) + 2.0 * (s * t) + Sq(t) - 2.0 * (s + t) + 1.0;
    assert v * v == Sq(t) - 2.0 * (s * t) + Sq(s);
  }

  /** A tangent term is at least its value at the nearer end of [0, 3d]. */
  lemma TangentTerm(d: real, a: real, u: real)
    requires 0.0 <= a <= 3.0 * d
    ensures a * u >= if u >= 0.0 then 0.0 else 3.0 * (d * u)
  {
    if u >= 0.0 {
      ProductPositive(a, u);
    } else {
      ScaleLe(a, 3.0 * d, -u);
      assert a * -u == -(a * u);
      assert 3.0 * d * -u == -(3.0 * (d * u));
    }
  }

  lemma CornerCombination(d: real, a: real, b: real, q: real, u: real, v: real)
    requires 0.0 <= a <= 3.0 * d && 0.0 <= b <= 3.0 * d
    requires q >= 0.0 && q + 3.0 * u >= 0.0 && q + 3.0 * v >= 0.0 && q + 3.0 * u + 3.0 * v >= 0.0
    ensures d * q + a * u + b * v >= 0.0
  {
    TangentTerm(d, a, u);
    TangentTerm(d, b, v);
    var x, y := if u >= 0.0 then 0.0 else u, if v >= 0.0 then 0.0 else v;
    var corner := q + 3.0 * x + 3.0 * y;
    ProductPositive(d, corner);
    assert d * corner == d * q + 3.0 * (d * x) + 3.0 * (d * y);
  }

  function Quotient(p: real, q: real, a: real, b: real, s: real, t: real): real {
    (q - p) * Q01(s, t) + a * Q10(s, t) + b * Q11(s, t)
  }

  lemma HermiteDifference(p: real, q: real, a: real, b: real, s: real, t: real)
    ensures Hermite(p, q, a, b, t) - Hermite(p, q, a, b, s)
         == (t - s) * Quotient(p, q, a, b, s, t)
  {
    BasisQuotients(s, t);
    BasisComplement(s);
    BasisComplement(t);
    hide H00, H01, H10, H11, Q01, Q10, Q11;
    HermiteLinear(p, q, a, b, H01(t), H10(t), H11(t));
    HermiteLinear(p, q, a, b, H01(s), H10(s), H11(s));
    Distribute(q - p, a, b, t - s, Q01(s, t), Q10(s, t), Q11(s, t),
               H01(t), H01(s), H10(t), H10(s), H11(t), H11(s));
  }

  lemma BasisComplement(t: real)
    ensures H00(t) == 1.0 - H01(t)
  {
  }

  lemma HermiteLinear(p: real, q: real, a: real, b: real, f: real, g: real, h: real)
    ensures (1.0 - f) * p + g * a + f * q + h * b == p + (q - p) * f + a * g + b * h
  {
  }

  lemma Distribute(d: real, a: real, b: real, w: real, f: real, g: real, h: real,
                   f1: real, f0: real, g1: real, g0: real, h1: real, h0: real)
    requires f1 - f0 == w * f && g1 - g0 == w * g && h1 - h0 == w * h
    ensures (d * f1 + a * g1 + b * h1) - (d * f0 + a * g0 + b * h0) == w * (d * f + a * g + b * h)
  {
    assert d * f1 - d * f0 == d * (w * f);
    assert a * g1 - a * g0 == a * (w * g);
    assert b * h1 - b * h0 == b * (w * h);
    assert w * (d * f + a * g + b * h) == d * (w * f) + a * (w * g) + b * (w * h);
  }

  lemma QuotientNonNegative(p: real, q: real, a: real, b: real, s: real, t: real)
    requires 0.0 <= a <= 3.0 * (q - p) && 0.0 <= b <= 3.0 * (q - p)
    requires 0.0 <= s <= 1.0 && 0.0 <= t <= 1.0
    ensures Quotient(p, q, a, b, s, t) >= 0.0
  {
    Corners(s, t);
    CornerCombination(q - p, a, b, Q01(s, t), Q10(s, t), Q11(s, t));
  }

  lemma RisesBy(x: real, y: real, w: real, g: real)
    requires y - x == w * g && w >= 0.0 && g >= 0.0
    ensures x <= y
  {
    ProductPositive(w, g);
  }

  /** With both tangents between 0 and three times the rise, the interpolant never falls. */
  lemma HermiteRises(p: real, q: real, a: real, b: real, s: real, t: real)
    requires 0.0 <= a <= 3.0 * (q - p) && 0.0 <= b <= 3.0 * (q - p)
    requires 0.0 <= s <= t <= 1.0
    ensures Hermite(p, q, a, b, s) <= Hermite(p, q, a, b, t)
  {
    hide Hermite, Quotient;
    QuotientNonNegative(p, q, a, b, s, t);
    HermiteDifference(p, q, a, b, s, t);
    RisesBy(Hermite(p, q, a, b, s), Hermite(p, q, a, b, t), t - s, Quotient(p, q, a, b, s, t));
  }

  /** Negating values and tangents negates the interpolant. */
  lemma HermiteNegates(p: real, q: real, a: real, b: real, t: real)
    ensures Hermite(-p, -q, -a, -b, t) == -Hermite(p, q, a, b, t)
  {
  }

  lemma HermiteFalls(p: real, q: real, a: real, b: real, s: real, t: real)
    requires 3.0 * (q - p) <= a <= 0.0 && 3.0 * (q - p) <= b <= 0.0
    requires 0.0 <= s <= t <= 1.0
    ensures Hermite(p, q, a, b, s) >= Hermite(p, q, a, b, t)
  {
    hide Hermite;
    HermiteRises(-p, -q, -a, -b, s, t);
    HermiteNegates(p, q, a, b, s);
    HermiteNegates(p, q, a, b, t);
  }
}
