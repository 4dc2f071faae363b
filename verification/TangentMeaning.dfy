/**
  What the tangent pass computes, beyond being safe: centred tangents are exact for
  quadratic prices, and pulling back is the projection onto the circle of radius 3.
 */
module TangentMeaning {
  import opened LiquiditySpline
  import opened RealFacts

  /** A quadratic price. */
  function QuadraticAt(a: real, b: real, c: real, q: real): real {
    a + Times(b, q) + Times(c, Square(q))
  }

  lemma QuadraticRise(a: real, b: real, c: real, x: real, y: real)
    ensures QuadraticAt(a, b, c, y) - QuadraticAt(a, b, c, x) == Times(b + Times(c, x + y), y - x)
  {
    var s, w := x + y, y - x;
    assert Square(y) - Square(x) == Times(s, w);
    assert Times(b, y) - Times(b, x) == Times(b, w);
    hide Square;
    assert Times(c, Square(y)) - Times(c, Square(x)) == c * Times(s, w);
    assert Times(b + Times(c, s), w) == b * w + c * s * w;
    assert c * s * w == c * (s * w);
  }

  lemma SlopeOfQuadratic(x: seq<real>, y: seq<real>, i: nat, a: real, b: real, c: real)
    requires i + 1 < |x| == |y| && x[i] < x[i + 1]
    requires y[i] == QuadraticAt(a, b, c, x[i]) && y[i + 1] == QuadraticAt(a, b, c, x[i + 1])
    ensures Slopes(x, y)[i] == b + Times(c, x[i] + x[i + 1])
  {
    hide QuadraticAt, Times;
    QuadraticRise(a, b, c, x[i], x[i + 1]);
    QuotientOfTimes(b + Times(c, x[i] + x[i + 1]), x[i + 1] - x[i]);
  }

  /**
    At an evenly spaced inner knot the three-point tangent is the true derivative of any
    quadratic through the three knots, unless the price turns there; then it is zero.
   */
  lemma CentredTangentExact(x: seq<real>, y: seq<real>, i: nat, a: real, b: real, c: real)
    requires |x| == |y| && 1 <= i && i + 1 < |x|
    requires x[i - 1] < x[i] < x[i + 1] && x[i] - x[i - 1] == x[i + 1] - x[i]
    requires forall j :: i - 1 <= j <= i + 1 ==> y[j] == QuadraticAt(a, b, c, x[j])
    ensures var d := Slopes(x, y);
            ThreePoint(d, i) == if Turns(d[i - 1], d[i]) then 0.0 else b + Times(2.0 * c, x[i])
  {
    SlopeOfQuadratic(x, y, i - 1, a, b, c);
    SlopeOfQuadratic(x, y, i, a, b, c);
    var d := Slopes(x, y);
    hide Slopes, QuadraticAt;
    MeanOfSums(c, x[i - 1] + x[i], x[i] + x[i + 1], x[i]);
    ThreePointIs(d, i);
  }

  /** Neighbouring slopes of opposite sign, or one of them level. */
  predicate Turns(d: real, e: real) {
    !(d > 0.0 && e > 0.0) && !(d < 0.0 && e < 0.0)
  }

  lemma ThreePointIs(d: seq<real>, i: nat)
    requires 1 <= i < |d|
    ensures ThreePoint(d, i) == if Turns(d[i - 1], d[i]) then 0.0 else (d[i - 1] + d[i]) / 2.0
  {
    ProductSign(d[i - 1], d[i]);
  }

  lemma ProductSign(d: real, e: real)
    ensures d * e <= 0.0 <==> Turns(d, e)
  {
    if d >= 0.0 && e <= 0.0 { ProductPositive(d, -e); assert d * -e == -(d * e); }
    if d <= 0.0 && e >= 0.0 { ProductPositive(-d, e); assert -d * e == -(d * e); }
    TimesSigns(d, e);
    assert Times(d, e) == d * e;
  }

  lemma MeanOfSums(c: real, s: real, t: real, m: real)
    requires s + t == 4.0 * m
    ensures Times(c, s) + Times(c, t) == 2.0 * Times(2.0 * c, m)
  {
    assert Times(c, s) + Times(c, t) == c * (s + t);
  }

  lemma PulledBackRatio(left: real, d: real, r: real)
    requires d != 0.0 && r != 0.0
    ensures Ratio(PullBack(left, d, r), d) == Times(3.0 / r, left)
  {
    var w := 3.0 / r;
    assert PullBack(left, d, r) == Times(w, left) * d;
    CancelFactor(Times(w, left), d);
  }

  lemma CancelFactor(x: real, d: real)
    requires d != 0.0
    ensures x * d / d == x
  {
  }

  lemma ScaledNorm(left: real, right: real, w: real, r: real)
    requires Times(w, r) == 3.0 && Times(r, r) == Norm(left, right)
    ensures Norm(Times(w, left), Times(w, right)) == 9.0
  {
    var u, v := Times(left, left), Times(right, right);
    assert Norm(left, right) == u + v;
    SquareOfTimes(w, left);
    SquareOfTimes(w, right);
    SquareOfTimes(w, r);
    var ww := Times(w, w);
    assert Norm(Times(w, left), Times(w, right)) == Times(ww, u) + Times(ww, v);
    TimesDistributes(ww, u, v);
    assert Times(Times(w, r), Times(w, r)) == 9.0;
  }

  lemma SquareOfTimes(w: real, x: real)
    ensures Times(Times(w, x), Times(w, x)) == Times(Times(w, w), Times(x, x))
  {
    assert w * x * (w * x) == w * (x * w) * x == w * (w * x) * x;
  }

  lemma SameDirection(w: real, left: real, right: real)
    ensures Times(Times(w, left), right) == Times(Times(w, right), left)
  {
    assert w * left * right == w * (left * right) == w * (right * left);
  }

  lemma ScaleOfRoot(r: real)
    requires r != 0.0
    ensures Times(3.0 / r, r) == 3.0
  {
    DivMul(3.0, r);
  }

  /**
    A pair of tangents inside the circle is left alone; with an exact root one outside is
    moved onto the circle, straight towards its centre.
   */
  lemma LimitPairProjects(m: real, n: real, d: real, root: real -> real)
    requires RoundsUp(root) && Abs(d) > FLAT_SLOPE
    ensures var left, right := Ratio(m, d), Ratio(n, d);
            var norm, (p, q) := Norm(left, right), LimitPair(m, n, d, root);
            && (norm <= 9.0 ==> (p, q) == (m, n))
            && (norm > 9.0 && Times(root(norm), root(norm)) == norm ==>
                  && Norm(Ratio(p, d), Ratio(q, d)) == 9.0
                  && Times(Ratio(p, d), right) == Times(Ratio(q, d), left))
  {
    var left, right := Ratio(m, d), Ratio(n, d);
    var norm := Norm(left, right);
    if norm > 9.0 && Times(root(norm), root(norm)) == norm {
      var r := root(norm);
      assert Covers(r, norm);
      assert LimitPair(m, n, d, root) == (PullBack(left, d, r), PullBack(right, d, r));
      hide LimitPair, RoundsUp, Ratio, PullBack, Norm, Times;
      PulledBackRatio(left, d, r);
      PulledBackRatio(right, d, r);
      ScaleOfRoot(r);
      ScaledNorm(left, right, 3.0 / r, r);
      SameDirection(3.0 / r, left, right);
    }
  }

  // ------------------------------------------------- the pass as a whole

  ghost predicate StrictlyRising(x: seq<real>) {
    forall i, j :: 0 <= i < j < |x| ==> x[i] < x[j]
  }

  /** The slope of the straight line over an interval. */
  function Chord(x: seq<real>, y: seq<real>, i: nat): real
    requires i + 1 < |x| == |y| && x[i] != x[i + 1]
  {
    (y[i + 1] - y[i]) / (x[i + 1] - x[i])
  }

  /** Two slopes that agree in sign average; otherwise the curve turns and is level there. */
  predicate Centred(m: real, a: real, b: real) {
    if (a > 0.0 && b > 0.0) || (a < 0.0 && b < 0.0) then 2.0 * m == a + b else m == 0.0
  }

  /** Tangents before any limiting: the end chords at the ends, the centred ones between. */
  ghost predicate Unlimited(m: seq<real>, x: seq<real>, y: seq<real>)
    requires StrictlyRising(x) && |x| == |y| >= 2
  {
    && |m| == |x|
    && m[0] == Chord(x, y, 0)
    && m[|x| - 1] == Chord(x, y, |x| - 2)
    && (forall i :: 1 <= i < |x| - 1 ==> Centred(m[i], Chord(x, y, i - 1), Chord(x, y, i)))
  }

  /** Squared distance from the origin of both tangents measured in chords. */
  function Distance(m: real, n: real, c: real): real
    requires c != 0.0
  {
    (m / c) * (m / c) + (n / c) * (n / c)
  }

  /**
    One interval's turn: only its own two tangents change.  A chord within 1e-12 of level
    makes them zero, a pair within the circle of radius 3 stays, any other is scaled by
    three over the root of its squared distance.
   */
  ghost predicate Turn(before: seq<real>, after: seq<real>, i: nat, c: real, root: real -> real)
    requires i + 1 < |before|
  {
    && |after| == |before|
    && (forall j :: 0 <= j < |before| && j != i && j != i + 1 ==> after[j] == before[j])
    && var m, n, p, q := before[i], before[i + 1], after[i], after[i + 1];
       if -0.000000000001 <= c <= 0.000000000001 then p == 0.0 && q == 0.0
       else if Distance(m, n, c) <= 9.0 then p == m && q == n
       else p * root(Distance(m, n, c)) == 3.0 * m && q * root(Distance(m, n, c)) == 3.0 * n
  }

  lemma PullBackScales(m: real, c: real, r: real)
    requires c != 0.0 && r != 0.0
    ensures PullBack(Ratio(m, c), c, r) * r == 3.0 * m
  {
    var w := 3.0 / r;
    DivMul(3.0, r);
    DivMul(m, c);
    assert PullBack(Ratio(m, c), c, r) == w * (m / c * c);
    assert w * m * r == w * r * m;
  }

  lemma DistanceIsNorm(m: real, n: real, c: real)
    requires c != 0.0
    ensures Distance(m, n, c) == Norm(Ratio(m, c), Ratio(n, c))
  {
  }

  lemma LimitStepTurns(t: seq<real>, d: seq<real>, i: nat, root: real -> real)
    requires RoundsUp(root) && i < |d| && |t| == |d| + 1
    ensures Turn(t, LimitStep(t, d, i, root), i, d[i], root)
  {
    var m, n, c := t[i], t[i + 1], d[i];
    if Abs(c) > FLAT_SLOPE {
      DistanceIsNorm(m, n, c);
      var norm := Norm(Ratio(m, c), Ratio(n, c));
      if norm > 9.0 {
        assert Covers(root(norm), norm);
        PullBackScales(m, c, root(norm));
        PullBackScales(n, c, root(norm));
      }
      hide Ratio, PullBack, Norm, Distance, RoundsUp;
    }
  }

  lemma SlopesAreChords(x: seq<real>, y: seq<real>)
    requires StrictlyRising(x) && |x| == |y| >= 2
    ensures |Slopes(x, y)| == |x| - 1
    ensures forall i :: 0 <= i < |x| - 1 ==> Slopes(x, y)[i] == Chord(x, y, i)
  {
  }

  lemma ThreePointsUnlimited(x: seq<real>, y: seq<real>)
    requires StrictlyRising(x) && |x| == |y| >= 2
    ensures Unlimited(ThreePoints(Slopes(x, y)), x, y)
  {
    SlopesAreChords(x, y);
    var d := Slopes(x, y);
    hide Slopes, Chord;
    forall i | 1 <= i < |x| - 1 ensures Centred(ThreePoints(d)[i], Chord(x, y, i - 1), Chord(x, y, i)) {
      ThreePointIs(d, i);
      hide ThreePoint;
    }
  }

  /**
    What the tangent pass does, from its inputs alone: it starts from the unlimited tangents
    and gives every interval its turn, from the first to the last.
   */
  lemma PassMeaning(x: seq<real>, y: seq<real>, root: real -> real) returns (runs: seq<seq<real>>)
    requires RoundsUp(root) && StrictlyRising(x) && |x| == |y| >= 2
    ensures |runs| == |x| && Unlimited(runs[0], x, y) && runs[|x| - 1] == Tangents(x, y, root)
    ensures forall k :: 0 <= k < |x| - 1 ==>
              |runs[k]| == |x| && Turn(runs[k], runs[k + 1], k, Chord(x, y, k), root)
  {
    var d := Slopes(x, y);
    var start := ThreePoints(d);
    SlopesAreChords(x, y);
    ThreePointsUnlimited(x, y);
    hide RoundsUp, Turn, Chord, ThreePoints, Slopes, Unlimited;
    runs := seq(|x|, k requires 0 <= k < |x| => Limited(start, d, k, root));
    forall k | 0 <= k < |x| - 1
      ensures |runs[k]| == |x| && Turn(runs[k], runs[k + 1], k, Chord(x, y, k), root)
    {
      LimitStepTurns(Limited(start, d, k, root), d, k, root);
      hide LimitStep;
    }
  }

  /** No chord is level and no pair of tangents lies outside the circle. */
  ghost predicate NothingToLimit(m: seq<real>, x: seq<real>, y: seq<real>)
    requires StrictlyRising(x) && |m| == |x| == |y|
  {
    forall i :: 0 <= i < |x| - 1 ==>
      var c := Chord(x, y, i);
      (c < -0.000000000001 || c > 0.000000000001) && Distance(m[i], m[i + 1], c) <= 9.0
  }

  lemma QuietTurn(m: seq<real>, after: seq<real>, x: seq<real>, y: seq<real>, i: nat, root: real -> real)
    requires StrictlyRising(x) && |m| == |x| == |y| && i + 1 < |x|
    requires NothingToLimit(m, x, y) && Turn(m, after, i, Chord(x, y, i), root)
    ensures after == m
  {
    var c := Chord(x, y, i);
    assert (c < -0.000000000001 || c > 0.000000000001) && Distance(m[i], m[i + 1], c) <= 9.0;
    hide Chord, Distance, NothingToLimit;
    forall j | 0 <= j < |m| ensures after[j] == m[j] {}
  }

  /** Where nothing has to be limited the tangents are the unlimited ones, end chords included. */
  lemma UnlimitedTangents(x: seq<real>, y: seq<real>, m: seq<real>, root: real -> real)
    requires RoundsUp(root) && StrictlyRising(x) && |x| == |y| >= 2
    requires Unlimited(m, x, y) && NothingToLimit(m, x, y)
    ensures Tangents(x, y, root) == m
  {
    var runs := PassMeaning(x, y, root);
    hide RoundsUp, NothingToLimit, Turn, Chord, Tangents;
    UnlimitedOnce(m, runs[0], x, y);
    hide Unlimited;
    var k := 0;
    while k < |x| - 1
      invariant 0 <= k <= |x| - 1 && runs[k] == m
    {
      QuietTurn(m, runs[k + 1], x, y, k, root);
      k := k + 1;
    }
  }

  lemma UnlimitedOnce(a: seq<real>, b: seq<real>, x: seq<real>, y: seq<real>)
    requires StrictlyRising(x) && |x| == |y| >= 2 && Unlimited(a, x, y) && Unlimited(b, x, y)
    ensures a == b
  {
    hide Chord;
    forall i | 0 <= i < |a| ensures a[i] == b[i] {
      if 1 <= i < |x| - 1 {
        assert Centred(a[i], Chord(x, y, i - 1), Chord(x, y, i)) && Centred(b[i], Chord(x, y, i - 1), Chord(x, y, i));
      }
    }
  }
}
