/**
  The spline through knots on a straight line is that line: the tangent pass leaves true
  slopes alone.  The exception is a line so flat that the pass takes it for level.
 */
module StraightLines {
  import opened HermiteCubic
  import opened LiquiditySpline
  import opened RealFacts
  import opened SplineEvaluation

  function LineAt(a: real, c: real, q: real): real { a + Times(c, q) }

  ghost predicate OnLine(knots: seq<Knot>, a: real, c: real) {
    forall i :: 0 <= i < |knots| ==> knots[i].price == LineAt(a, c, knots[i].qty)
  }

  lemma LineRise(a: real, c: real, x: real, y: real)
    ensures LineAt(a, c, y) - LineAt(a, c, x) == Times(c, y - x)
  {
  }

  lemma LineSlopes(knots: seq<Knot>, a: real, c: real)
    requires WellSpaced(knots) && OnLine(knots, a, c) && |knots| >= 2
    ensures var d := Slopes(Qtys(knots), Prices(knots));
            |d| == |knots| - 1 && forall i :: 0 <= i < |d| ==> d[i] == c
  {
    hide Slope, LineAt;
    var x, y := Qtys(knots), Prices(knots);
    forall i | 0 <= i < |knots| - 1 ensures Slopes(x, y)[i] == c {
      SlopeIsQuotient(x, y, i);
      LineRise(a, c, x[i], x[i + 1]);
      QuotientOfTimes(c, x[i + 1] - x[i]);
    }
  }

  ghost predicate AllEqual(s: seq<real>, c: real) {
    forall i :: 0 <= i < |s| ==> s[i] == c
  }

  lemma ConstantThreePoint(d: seq<real>, c: real, i: nat)
    requires AllEqual(d, c) && |d| >= 1 && i <= |d|
    ensures ThreePoint(d, i) == c
  {
    SquareSign(c);
    assert Square(c) == c * c;
  }

  lemma SameRatio(c: real)
    requires c != 0.0
    ensures Ratio(c, c) == 1.0
  {
  }

  lemma UnitNorm(u: real)
    requires u == 1.0
    ensures Norm(u, u) == 2.0
  {
  }

  lemma EqualPairKept(c: real, root: real -> real)
    requires RoundsUp(root) && Abs(c) > FLAT_SLOPE
    ensures LimitPair(c, c, c, root) == (c, c)
  {
    SameRatio(c);
    UnitNorm(Ratio(c, c));
    hide Ratio, Norm, RoundsUp, PullBack;
  }

  lemma {:induction false} EqualTangentsKept(t: seq<real>, d: seq<real>, c: real, k: nat, root: real -> real)
    requires RoundsUp(root) && AllEqual(t, c) && AllEqual(d, c) && |t| == |d| + 1 && k <= |d|
    requires Abs(c) > FLAT_SLOPE
    ensures Limited(t, d, k, root) == t
  {
    hide RoundsUp;
    if k > 0 {
      EqualTangentsKept(t, d, c, k - 1, root);
      EqualPairKept(c, root);
      hide LimitPair, Abs;
    }
  }

  lemma {:induction false} FlatTangentsZero(t: seq<real>, d: seq<real>, c: real, k: nat, root: real -> real)
    requires RoundsUp(root) && AllEqual(d, c) && |t| == |d| + 1 && 1 <= k <= |d|
    requires Abs(c) <= FLAT_SLOPE
    ensures forall i :: 0 <= i <= k ==> Limited(t, d, k, root)[i] == 0.0
  {
    hide RoundsUp;
    if k > 1 { FlatTangentsZero(t, d, c, k - 1, root); }
  }

  /** On a line every tangent is the slope, or zero when the slope counts as flat. */
  lemma LineTangents(knots: seq<Knot>, a: real, c: real, root: real -> real)
    requires RoundsUp(root) && WellSpaced(knots) && OnLine(knots, a, c) && |knots| >= 2
    ensures AllEqual(KnotTangents(knots, root), if Abs(c) > FLAT_SLOPE then c else 0.0)
  {
    hide RoundsUp, Limited, ThreePoint, Abs;
    LineSlopes(knots, a, c);
    var d := Slopes(Qtys(knots), Prices(knots));
    forall i | 0 <= i <= |d| ensures ThreePoint(d, i) == c { ConstantThreePoint(d, c, i); }
    if Abs(c) > FLAT_SLOPE {
      EqualTangentsKept(ThreePoints(d), d, c, |d|, root);
    } else {
      FlatTangentsZero(ThreePoints(d), d, c, |d|, root);
    }
  }

  lemma BasisSums(t: real)
    ensures H00(t) == 1.0 - H01(t) && H10(t) + H01(t) + H11(t) == t
  {
  }

  /** Tangents equal to the rise make the cubic a straight line. */
  lemma HermiteLinear(p: real, q: real, a: real, b: real, t: real)
    requires a == q - p && b == q - p
    ensures Hermite(p, q, a, b, t) == p + Times(q - p, t)
  {
    BasisSums(t);
    BlendLinear(H00(t), p, H10(t), a, H01(t), q, H11(t), b, t);
  }

  lemma BlendLinear(f: real, p: real, g: real, a: real, h: real, q: real, k: real, b: real, t: real)
    requires f == 1.0 - h && g + h + k == t && a == q - p && b == a
    ensures Blend(f, p, g, a, h, q, k, b) == p + Times(q - p, t)
  {
    assert f * p == p - h * p;
    assert h * q - h * p == h * a;
    assert g * a + h * a + k * a == t * a;
  }

  /** Zero tangents leave only the S-shaped blend. */
  lemma HermiteLevel(p: real, q: real, a: real, b: real, t: real)
    requires a == 0.0 && b == 0.0
    ensures Hermite(p, q, a, b, t) == p + Times(q - p, H01(t))
  {
    BasisSums(t);
    BlendLevel(H00(t), p, H10(t), a, H01(t), q, H11(t), b);
  }

  lemma BlendLevel(f: real, p: real, g: real, a: real, h: real, q: real, k: real, b: real)
    requires f == 1.0 - h && a == 0.0 && b == 0.0
    ensures Blend(f, p, g, a, h, q, k, b) == p + Times(q - p, h)
  {
    assert f * p == p - h * p;
    assert h * q - h * p == h * (q - p);
  }

  lemma RiseAlong(c: real, span: real, x: real)
    requires span > 0.0
    ensures Times(Times(c, span), x / span) == Times(c, x)
  {
    DivMul(x, span);
    assert Times(Times(c, span), x / span) == c * (x / span * span);
  }

  lemma PieceOnLine(knots: seq<Knot>, a: real, c: real, root: real -> real, i: nat, q: real)
    requires RoundsUp(root) && WellSpaced(knots) && OnLine(knots, a, c) && i + 1 < |knots|
    ensures Abs(c) > FLAT_SLOPE ==> Piece(knots, KnotTangents(knots, root), i, q) == LineAt(a, c, q)
    ensures Abs(c) <= FLAT_SLOPE ==>
              Piece(knots, KnotTangents(knots, root), i, q)
              == knots[i].price + Times(Times(c, knots[i + 1].qty - knots[i].qty), H01(Position(knots, i, q)))
  {
    LineTangents(knots, a, c, root);
    var t := KnotTangents(knots, root);
    var span, rise := knots[i + 1].qty - knots[i].qty, knots[i + 1].price - knots[i].price;
    assert span > 0.0;
    hide RoundsUp, WellSpaced, KnotTangents, Abs, Hermite, H01, Times, LineAt;
    LineRise(a, c, knots[i].qty, knots[i + 1].qty);
    LineRise(a, c, knots[i].qty, q);
    if Abs(c) > FLAT_SLOPE {
      TimesCommutes(span, c);
      HermiteLinear(knots[i].price, knots[i + 1].price, Rise(knots, i, t[i]), Rise(knots, i, t[i + 1]),
                    Position(knots, i, q));
      RiseAlong(c, span, q - knots[i].qty);
    } else {
      TimesUnits(span, t[i]);
      TimesUnits(span, t[i + 1]);
      HermiteLevel(knots[i].price, knots[i + 1].price, Rise(knots, i, t[i]), Rise(knots, i, t[i + 1]),
                   Position(knots, i, q));
    }
  }

  lemma TimesCommutes(x: real, y: real)
    ensures Times(x, y) == Times(y, x)
  {
  }

  lemma LevelLine(c: real, span: real, h: real, a: real, q: real)
    requires c == 0.0
    ensures Times(Times(c, span), h) == 0.0 && LineAt(a, c, q) == a
  {
  }

  lemma OnPiece(knots: seq<Knot>, a: real, c: real, root: real -> real, i: nat, q: real)
    requires RoundsUp(root) && WellSpaced(knots) && OnLine(knots, a, c) && i + 1 < |knots|
    requires c == 0.0 || Abs(c) > FLAT_SLOPE
    ensures Piece(knots, KnotTangents(knots, root), i, q) == LineAt(a, c, q)
  {
    PieceOnLine(knots, a, c, root, i, q);
    hide RoundsUp, WellSpaced, KnotTangents, H01, Piece, Times, LineAt;
    if c == 0.0 {
      LevelLine(c, knots[i + 1].qty - knots[i].qty, H01(Position(knots, i, q)), a, q);
      LevelLine(c, knots[i + 1].qty - knots[i].qty, H01(Position(knots, i, q)), a, knots[i].qty);
    }
  }

  lemma LineReproduced(knots: seq<Knot>, a: real, c: real, root: real -> real, q: real)
    requires RoundsUp(root) && WellSpaced(knots) && OnLine(knots, a, c) && |knots| >= 2
    requires knots[0].qty <= q <= knots[|knots| - 1].qty
    requires c == 0.0 || Abs(c) > FLAT_SLOPE
    ensures Spline(knots, root, q) == LineAt(a, c, q)
  {
    var last := |knots| - 1;
    hide RoundsUp, WellSpaced, Spline, LineAt, Piece, Abs;
    if q == knots[0].qty {
      SplineHitsKnots(knots, root, 0);
    } else if q == knots[last].qty {
      SplineHitsKnots(knots, root, last);
    } else {
      var i := SplinePlace(knots, root, q);
      OnPiece(knots, a, c, root, i, q);
    }
  }

  function QuarterPoint(knots: seq<Knot>): real
    requires |knots| >= 2
  {
    knots[0].qty + (knots[1].qty - knots[0].qty) / 4.0
  }

  lemma QuarterPosition(knots: seq<Knot>)
    requires WellSpaced(knots) && |knots| >= 2
    ensures var q := QuarterPoint(knots);
            && knots[0].qty < q < knots[|knots| - 1].qty && q < knots[1].qty
            && Position(knots, 0, q) == 0.25 && Locate(knots, q, 0) == 0
  {
    var span := knots[1].qty - knots[0].qty;
    assert span > 0.0;
    DivBounds(span / 4.0, span, 0.25, 0.25);
  }

  lemma QuarterOfBlend(t: real)
    requires t == 0.25
    ensures H01(t) == 0.15625
  {
  }

  lemma Unequal(rise: real, u: real, v: real)
    requires rise != 0.0 && u == 0.15625 && v == 0.25
    ensures Times(rise, u) != Times(rise, v)
  {
  }

  /** A tilt of at most 1e-12 is drawn as an S between its knots. */
  lemma SlightTiltBends(knots: seq<Knot>, a: real, c: real, root: real -> real)
    requires RoundsUp(root) && WellSpaced(knots) && OnLine(knots, a, c) && |knots| >= 2
    requires c != 0.0 && Abs(c) <= FLAT_SLOPE
    ensures Spline(knots, root, QuarterPoint(knots)) != LineAt(a, c, QuarterPoint(knots))
  {
    var q := QuarterPoint(knots);
    var span := knots[1].qty - knots[0].qty;
    assert span > 0.0;
    QuarterPosition(knots);
    var u := Position(knots, 0, q);
    QuarterOfBlend(u);
    PieceOnLine(knots, a, c, root, 0, q);
    hide RoundsUp, WellSpaced, Spline, Piece, H01, Abs, Locate, KnotTangents;
    var i := SplinePlace(knots, root, q);
    LineRise(a, c, knots[0].qty, q);
    RiseAlong(c, span, q - knots[0].qty);
    NonZeroProduct(c, span);
    Unequal(Times(c, span), H01(u), u);
  }

  lemma NonZeroProduct(c: real, span: real)
    requires c != 0.0 && span > 0.0
    ensures Times(c, span) != 0.0
  {
    TimesSigns(c, span);
    TimesSigns(c, -span);
    assert Times(c, -span) == -Times(c, span);
  }

  /** A line is reproduced at every quantity exactly when it is level or steeper than the flatness threshold. */
  lemma LineReproducedIff(knots: seq<Knot>, a: real, c: real, root: real -> real)
    requires RoundsUp(root) && WellSpaced(knots) && OnLine(knots, a, c) && |knots| >= 2
    ensures (forall q :: knots[0].qty <= q <= knots[|knots| - 1].qty ==> Spline(knots, root, q) == LineAt(a, c, q))
            <==> (c == 0.0 || Abs(c) > FLAT_SLOPE)
  {
    if c == 0.0 || Abs(c) > FLAT_SLOPE {
      hide RoundsUp, WellSpaced, Spline, LineAt, Abs;
      forall q | knots[0].qty <= q <= knots[|knots| - 1].qty ensures Spline(knots, root, q) == LineAt(a, c, q) {
        LineReproduced(knots, a, c, root, q);
      }
    } else {
      QuarterPosition(knots);
      SlightTiltBends(knots, a, c, root);
    }
  }
}
