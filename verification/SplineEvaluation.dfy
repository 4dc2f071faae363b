/**
  Evaluating the spline at any quantity, and the promises of the whole pipeline from raw
  samples: it hits every knot, stays between neighbouring knot prices, and is monotone
  over all quantities whenever the knot prices are.
 */
module SplineEvaluation {
  import opened HermiteCubic
  import opened LiquiditySpline
  import opened RealFacts
  import opened Wrappers

  /** The first interval, searching from `i`, whose right end is not left of `q`. */
  function Locate(knots: seq<Knot>, q: real, i: nat): nat
    decreases |knots| - i
  {
    if i + 1 < |knots| && q > knots[i + 1].qty then Locate(knots, q, i + 1) else i
  }

  /** Position of `q` within interval `i`, from 0 to 1. */
  function Position(knots: seq<Knot>, i: nat, q: real): real
    requires i + 1 < |knots| && knots[i + 1].qty != knots[i].qty
  {
    (q - knots[i].qty) / (knots[i + 1].qty - knots[i].qty)
  }

  function Rise(knots: seq<Knot>, i: nat, m: real): real
    requires i + 1 < |knots|
  {
    Times(knots[i + 1].qty - knots[i].qty, m)
  }

  function Piece(knots: seq<Knot>, tangents: seq<real>, i: nat, q: real): real
    requires i + 1 < |knots| && |tangents| == |knots|
  {
    if knots[i + 1].qty - knots[i].qty <= 0.0 then knots[i + 1].price
    else
      Hermite(knots[i].price, knots[i + 1].price,
              Rise(knots, i, tangents[i]), Rise(knots, i, tangents[i + 1]),
              Position(knots, i, q))
  }

  function SplineAt(knots: seq<Knot>, tangents: seq<real>, q: real): real
    requires |knots| >= 1 && (|knots| >= 2 ==> |tangents| == |knots|)
  {
    var last := |knots| - 1;
    if last == 0 then knots[0].price
    else if q <= knots[0].qty then knots[0].price
    else if q >= knots[last].qty then knots[last].price
    else
      LocateStops(knots, q, 0);
      Piece(knots, tangents, Locate(knots, q, 0), q)
  }

  lemma {:induction false} LocateStops(knots: seq<Knot>, q: real, i: nat)
    requires i + 1 < |knots| && q < knots[|knots| - 1].qty
    ensures var k := Locate(knots, q, i);
            i <= k && k + 1 < |knots| && q <= knots[k + 1].qty && (k > i ==> q > knots[k].qty)
    decreases |knots| - i
  {
    if q > knots[i + 1].qty { LocateStops(knots, q, i + 1); }
  }

  lemma LocateOrdered(knots: seq<Knot>, q: real, r: real)
    requires |knots| >= 2 && knots[0].qty < q <= r < knots[|knots| - 1].qty
    requires WellSpaced(knots)
    ensures Locate(knots, q, 0) <= Locate(knots, r, 0)
  {
    LocateStops(knots, q, 0);
    LocateStops(knots, r, 0);
  }

  method EvaluateMonotoneQtySpline(knots: seq<Knot>, tangents: seq<real>, qty: Num) returns (price: Num)
    requires |knots| >= 2 ==> |tangents| == |knots|
    ensures price == if knots == [] || qty.NonFinite? then NonFinite
                     else Finite(SplineAt(knots, tangents, qty.value))
  {
    if |knots| == 0 || qty.NonFinite? {
      return NonFinite;
    }
    var last := |knots| - 1;
    if last == 0 {
      return Finite(knots[0].price);
    }
    var q := qty.value;
    if q <= knots[0].qty {
      return Finite(knots[0].price);
    }
    if q >= knots[last].qty {
      return Finite(knots[last].price);
    }
    LocateStops(knots, q, 0);
    var index := 0;
    while index + 1 < |knots| && q > knots[index + 1].qty
      invariant 0 <= index < |knots|
      invariant Locate(knots, q, index) == Locate(knots, q, 0)
    {
      index := index + 1;
    }
    price := Finite(Piece(knots, tangents, index, q));
  }

  // ------------------------------------------------------------ one piece

  /** The tangents the pass leaves on the knots of a curve. */
  function KnotTangents(knots: seq<Knot>, root: real -> real): (t: seq<real>)
    requires RoundsUp(root)
    ensures |knots| >= 2 ==> |t| == |knots|
  {
    Tangents(Qtys(knots), Prices(knots), root)
  }

  function Qtys(knots: seq<Knot>): (x: seq<real>)
    ensures |x| == |knots| && forall i :: 0 <= i < |knots| ==> x[i] == knots[i].qty
  {
    seq(|knots|, i requires 0 <= i < |knots| => knots[i].qty)
  }

  function Prices(knots: seq<Knot>): (y: seq<real>)
    ensures |y| == |knots| && forall i :: 0 <= i < |knots| ==> y[i] == knots[i].price
  {
    seq(|knots|, i requires 0 <= i < |knots| => knots[i].price)
  }

  function Spline(knots: seq<Knot>, root: real -> real, q: real): real
    requires RoundsUp(root) && |knots| >= 1
  {
    SplineAt(knots, KnotTangents(knots, root), q)
  }

  /** Tangents scaled by the span of an interval against the interval's price rise. */
  ghost predicate Tame(knots: seq<Knot>, t: seq<real>, i: nat)
    requires i + 1 < |knots| && |t| == |knots|
  {
    var rise := knots[i + 1].price - knots[i].price;
    InCone(Rise(knots, i, t[i]), rise) && InCone(Rise(knots, i, t[i + 1]), rise)
  }

  lemma RiseInCone(m: real, d: real, span: real, rise: real)
    requires span > 0.0 && InCone(m, d) && d == rise / span
    ensures InCone(Times(span, m), rise)
  {
    DivMul(rise, span);
    if d >= 0.0 {
      ProductPositive(span, m);
      ProductPositive(span, d);
      ScaleLe(m, 3.0 * d, span);
      assert span * (3.0 * d) == 3.0 * (d * span);
    } else {
      ProductPositive(span, -m);
      StrictScale(d, 0.0, span);
      ScaleLe(3.0 * d, m, span);
      assert span * -m == -(span * m);
      assert span * (3.0 * d) == 3.0 * (d * span);
    }
  }

  lemma KnotTangentsTame(knots: seq<Knot>, root: real -> real, i: nat)
    requires RoundsUp(root) && WellSpaced(knots) && i + 1 < |knots|
    ensures Tame(knots, KnotTangents(knots, root), i)
  {
    hide Tangents, InCone, RoundsUp, Slope, Times;
    var x, y := Qtys(knots), Prices(knots);
    var t, d := Tangents(x, y, root), Slopes(x, y);
    TangentsInCone(x, y, root);
    SlopeIsQuotient(x, y, i);
    var span, rise := knots[i + 1].qty - knots[i].qty, knots[i + 1].price - knots[i].price;
    assert span == x[i + 1] - x[i] && rise == y[i + 1] - y[i];
    RiseInCone(t[i], d[i], span, rise);
    RiseInCone(t[i + 1], d[i], span, rise);
  }

  lemma SlopeIsQuotient(x: seq<real>, y: seq<real>, i: nat)
    requires i + 1 < |x| == |y| && x[i] < x[i + 1]
    ensures Slopes(x, y)[i] == (y[i + 1] - y[i]) / (x[i + 1] - x[i])
  {
  }

  lemma PositionOrdered(knots: seq<Knot>, i: nat, q: real, r: real)
    requires i + 1 < |knots| && knots[i].qty < knots[i + 1].qty
    requires knots[i].qty <= q <= r <= knots[i + 1].qty
    ensures 0.0 <= Position(knots, i, q) <= Position(knots, i, r) <= 1.0
    ensures q == knots[i].qty ==> Position(knots, i, q) == 0.0
    ensures q == knots[i + 1].qty ==> Position(knots, i, q) == 1.0
  {
    QuotientOrdered(q - knots[i].qty, r - knots[i].qty, knots[i + 1].qty - knots[i].qty);
  }

  /**
    Within an interval the piece moves one way only, from the left knot's price to the
    right knot's price, whatever the other knots do.
   */
  lemma PieceMonotone(knots: seq<Knot>, t: seq<real>, i: nat, q: real, r: real)
    requires i + 1 < |knots| && |t| == |knots| && WellSpaced(knots) && Tame(knots, t, i)
    requires knots[i].qty <= q <= r <= knots[i + 1].qty
    ensures knots[i].price <= knots[i + 1].price ==>
              knots[i].price <= Piece(knots, t, i, q) <= Piece(knots, t, i, r) <= knots[i + 1].price
    ensures knots[i].price >= knots[i + 1].price ==>
              knots[i].price >= Piece(knots, t, i, q) >= Piece(knots, t, i, r) >= knots[i + 1].price
    ensures Piece(knots, t, i, knots[i].qty) == knots[i].price
    ensures Piece(knots, t, i, knots[i + 1].qty) == knots[i + 1].price
  {
    hide Hermite, Position, Rise;
    var lo, hi := knots[i].qty, knots[i + 1].qty;
    PositionOrdered(knots, i, lo, q);
    PositionOrdered(knots, i, q, r);
    PositionOrdered(knots, i, r, hi);
    PositionOrdered(knots, i, hi, hi);
    var a, b := Rise(knots, i, t[i]), Rise(knots, i, t[i + 1]);
    var p, p' := knots[i].price, knots[i + 1].price;
    var zero, u, v, one :=
      Position(knots, i, lo), Position(knots, i, q), Position(knots, i, r), Position(knots, i, hi);
    HermiteEnds(p, p', a, b, zero);
    HermiteEnds(p, p', a, b, one);
    if p <= p' {
      HermiteRises(p, p', a, b, zero, u);
      HermiteRises(p, p', a, b, u, v);
      HermiteRises(p, p', a, b, v, one);
    }
    if p >= p' {
      HermiteFalls(p, p', a, b, zero, u);
      HermiteFalls(p, p', a, b, u, v);
      HermiteFalls(p, p', a, b, v, one);
    }
  }

  // ------------------------------------------------------ the whole curve

  ghost predicate Rising(knots: seq<Knot>) {
    forall i, j :: 0 <= i <= j < |knots| ==> knots[i].price <= knots[j].price
  }

  ghost predicate Falling(knots: seq<Knot>) {
    forall i, j :: 0 <= i <= j < |knots| ==> knots[i].price >= knots[j].price
  }

  /** Where `q` lies: on the flat parts outside the knots, or inside interval `i`. */
  lemma SplinePlace(knots: seq<Knot>, root: real -> real, q: real) returns (i: nat)
    requires RoundsUp(root) && WellSpaced(knots) && |knots| >= 2
    requires knots[0].qty < q < knots[|knots| - 1].qty
    ensures i == Locate(knots, q, 0) && i + 1 < |knots|
    ensures knots[i].qty <= q <= knots[i + 1].qty
    ensures Spline(knots, root, q) == Piece(knots, KnotTangents(knots, root), i, q)
    ensures Tame(knots, KnotTangents(knots, root), i)
  {
    LocateStops(knots, q, 0);
    i := Locate(knots, q, 0);
    KnotTangentsTame(knots, root, i);
    hide Piece, KnotTangents, Tame;
  }

  /** The curve passes through every knot. */
  lemma SplineHitsKnots(knots: seq<Knot>, root: real -> real, k: nat)
    requires RoundsUp(root) && WellSpaced(knots) && k < |knots|
    ensures Spline(knots, root, knots[k].qty) == knots[k].price
  {
    hide Piece, KnotTangents, Tame;
    if 0 < k < |knots| - 1 {
      var q := knots[k].qty;
      var i := SplinePlace(knots, root, q);
      LocateStops(knots, q, 0);
      assert i == k - 1;
      PieceMonotone(knots, KnotTangents(knots, root), i, q, q);
    }
  }

  /** Between two neighbouring knots the curve never leaves their price range. */
  lemma SplineNeverOvershoots(knots: seq<Knot>, root: real -> real, k: nat, q: real)
    requires RoundsUp(root) && WellSpaced(knots) && k + 1 < |knots|
    requires knots[k].qty <= q <= knots[k + 1].qty
    ensures var p, p' := knots[k].price, knots[k + 1].price;
            (p <= Spline(knots, root, q) <= p') || (p' <= Spline(knots, root, q) <= p)
  {
    hide Piece, KnotTangents, Tame;
    if q == knots[k].qty {
      SplineHitsKnots(knots, root, k);
    } else if q == knots[k + 1].qty {
      SplineHitsKnots(knots, root, k + 1);
    } else {
      assert knots[0].qty < q < knots[|knots| - 1].qty;
      var i := SplinePlace(knots, root, q);
      LocateStops(knots, q, 0);
      assert i == k;
      PieceMonotone(knots, KnotTangents(knots, root), i, q, q);
    }
  }

  /** Every value is positive, and between the first and the last price of a monotone curve. */
  lemma SplineInRange(knots: seq<Knot>, root: real -> real, q: real)
    requires RoundsUp(root) && WellSpaced(knots) && |knots| >= 1
    ensures Spline(knots, root, q) > 0.0
    ensures Rising(knots) ==> knots[0].price <= Spline(knots, root, q) <= knots[|knots| - 1].price
    ensures Falling(knots) ==> knots[0].price >= Spline(knots, root, q) >= knots[|knots| - 1].price
  {
    hide Piece, KnotTangents, Tame;
    if |knots| >= 2 && knots[0].qty < q < knots[|knots| - 1].qty {
      var i := SplinePlace(knots, root, q);
      PieceMonotone(knots, KnotTangents(knots, root), i, q, q);
    }
  }

  /** A curve through rising (falling) prices rises (falls) over all quantities. */
  lemma SplineMonotone(knots: seq<Knot>, root: real -> real, q: real, r: real)
    requires RoundsUp(root) && WellSpaced(knots) && |knots| >= 1 && q <= r
    ensures Rising(knots) ==> Spline(knots, root, q) <= Spline(knots, root, r)
    ensures Falling(knots) ==> Spline(knots, root, q) >= Spline(knots, root, r)
  {
    hide Piece, KnotTangents, Tame;
    SplineInRange(knots, root, q);
    SplineInRange(knots, root, r);
    if |knots| >= 2 && knots[0].qty < q && r < knots[|knots| - 1].qty {
      var i := SplinePlace(knots, root, q);
      var j := SplinePlace(knots, root, r);
      var t := KnotTangents(knots, root);
      LocateOrdered(knots, q, r);
      if i == j {
        PieceMonotone(knots, t, i, q, r);
      } else {
        PieceMonotone(knots, t, i, q, q);
        PieceMonotone(knots, t, j, r, r);
      }
    }
  }

  /** From raw samples: if the prices kept are monotone, so is the curve, at every quantity. */
  lemma CurveFromSamplesMonotone(qtys: seq<Num>, prices: seq<Num>, root: real -> real, q: real, r: real)
    requires RoundsUp(root) && q <= r
    requires KnotsOf(qtys, prices, Min(|qtys|, |prices|)) != []
    ensures var knots := KnotsOf(qtys, prices, Min(|qtys|, |prices|));
            && (Rising(knots) ==> Spline(knots, root, q) <= Spline(knots, root, r))
            && (Falling(knots) ==> Spline(knots, root, q) >= Spline(knots, root, r))
            && Spline(knots, root, q) > 0.0
  {
    hide Spline;
    var knots := KnotsOf(qtys, prices, Min(|qtys|, |prices|));
    KnotsAreWellSpaced(qtys, prices, Min(|qtys|, |prices|));
    SplineMonotone(knots, root, q, r);
    SplineInRange(knots, root, q);
  }
}
