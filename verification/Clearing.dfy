/**
  The clearing point: where the summed supply and demand curves cross.

  Rounding of the reported numbers is a parameter; `Exact` is the result before it.
 */
module Clearing {
  import opened LiquiditySpline
  import opened MarketCurves
  import opened RealFacts
  import opened Schedules

  datatype Crossing = Crossing(price: real, volume: real, crossed: bool)

  const NO_CURVE_PRICE: real := 68450.0

  function Excess(supply: seq<Point>, demand: seq<Point>, i: nat): real
    requires i < |supply| && i < |demand|
  {
    supply[i].volume - demand[i].volume
  }

  /** Equal at a grid price, with something to trade. */
  predicate Touch(supply: seq<Point>, demand: seq<Point>, i: nat)
    requires i < |supply| && i < |demand|
  {
    Excess(supply, demand, i) == 0.0 && !(supply[i].volume <= 0.0 && demand[i].volume <= 0.0)
  }

  /** The excess changes sign strictly between two neighbouring grid prices. */
  predicate Change(supply: seq<Point>, demand: seq<Point>, i: nat)
    requires 1 <= i < |supply| && i < |demand|
  {
    var before, after := Excess(supply, demand, i - 1), Excess(supply, demand, i);
    (before < 0.0 && after > 0.0) || (before > 0.0 && after < 0.0)
  }

  predicate Stops(supply: seq<Point>, demand: seq<Point>, i: nat)
    requires 1 <= i < |supply| && i < |demand|
  {
    Touch(supply, demand, i - 1) || Change(supply, demand, i)
  }

  /** The first step from `i` on at which the scan stops. */
  function Scan(supply: seq<Point>, demand: seq<Point>, i: nat): nat
    requires i >= 1
    decreases |supply| - i
  {
    if i < |supply| && i < |demand| && !Stops(supply, demand, i) then Scan(supply, demand, i + 1) else i
  }

  function Weight(supply: seq<Point>, demand: seq<Point>, i: nat): real
    requires 1 <= i < |supply| && i < |demand| && Change(supply, demand, i)
  {
    Excess(supply, demand, i - 1) / (Excess(supply, demand, i - 1) - Excess(supply, demand, i))
  }

  function Along(a: real, b: real, weight: real): real {
    a + Times(b - a, weight)
  }

  predicate AnyVolume(volume: real, supply: seq<Point>, demand: seq<Point>, i: nat)
    requires 1 <= i < |supply| && i < |demand|
  {
    volume > 0.0 || supply[i - 1].volume > 0.0 || demand[i - 1].volume > 0.0
    || supply[i].volume > 0.0 || demand[i].volume > 0.0
  }

  /** The first grid point, among the first `n`, where the curves are closest. */
  function Closest(supply: seq<Point>, demand: seq<Point>, n: nat): (b: nat)
    requires 1 <= n <= |supply| && n <= |demand|
    ensures b < n
  {
    if n == 1 then 0
    else
      var b := Closest(supply, demand, n - 1);
      if Abs(Excess(supply, demand, n - 1)) < Abs(Excess(supply, demand, b)) then n - 1 else b
  }

  function StoppedAt(supply: seq<Point>, demand: seq<Point>, i: nat,
                     roundPrice: real -> real, roundVolume: real -> real): Crossing
    requires 1 <= i < |supply| && i < |demand| && Stops(supply, demand, i)
  {
    if Touch(supply, demand, i - 1) then Crossing(supply[i - 1].price, supply[i - 1].volume, true)
    else
      var weight := Weight(supply, demand, i);
      var volume := Along(supply[i - 1].volume, supply[i].volume, weight);
      Crossing(roundPrice(Along(supply[i - 1].price, supply[i].price, weight)), roundVolume(volume),
               AnyVolume(volume, supply, demand, i))
  }

  function Fallback(supply: seq<Point>, demand: seq<Point>,
                    roundPrice: real -> real, roundVolume: real -> real): Crossing
    requires supply != [] && demand != []
  {
    var b := Closest(supply, demand, Min(|supply|, |demand|));
    Crossing(roundPrice(supply[b].price), roundVolume((supply[b].volume + demand[b].volume) / 2.0), false)
  }

  function Intersection(supply: seq<Point>, demand: seq<Point>,
                        roundPrice: real -> real, roundVolume: real -> real): Crossing {
    if supply == [] || demand == [] then Crossing(NO_CURVE_PRICE, 0.0, false)
    else
      ScanRange(supply, demand, 1);
      var i := Scan(supply, demand, 1);
      if i < Min(|supply|, |demand|) then StoppedAt(supply, demand, i, roundPrice, roundVolume)
      else Fallback(supply, demand, roundPrice, roundVolume)
  }

  lemma {:induction false} ScanRange(supply: seq<Point>, demand: seq<Point>, i: nat)
    requires i >= 1
    ensures var k := Scan(supply, demand, i);
            && k >= i
            && (k < Min(|supply|, |demand|) ==> Stops(supply, demand, k))
            && (forall j :: i <= j < k && j < Min(|supply|, |demand|) ==> !Stops(supply, demand, j))
    decreases |supply| - i
  {
    hide Stops;
    if i < |supply| && i < |demand| && !Stops(supply, demand, i) { ScanRange(supply, demand, i + 1); }
  }

  lemma KeepsScanning(supply: seq<Point>, demand: seq<Point>, i: nat)
    requires 1 <= i < |supply| && i < |demand| && !Touch(supply, demand, i - 1) && !Change(supply, demand, i)
    ensures Scan(supply, demand, i) == Scan(supply, demand, i + 1)
  {
    hide Touch, Change;
  }

  lemma StopsScanning(supply: seq<Point>, demand: seq<Point>, i: nat,
                      roundPrice: real -> real, roundVolume: real -> real)
    requires 1 <= i < |supply| && i < |demand| && (Touch(supply, demand, i - 1) || Change(supply, demand, i))
    requires Scan(supply, demand, 1) == Scan(supply, demand, i)
    ensures Intersection(supply, demand, roundPrice, roundVolume)
            == StoppedAt(supply, demand, i, roundPrice, roundVolume)
  {
    hide Touch, Change, StoppedAt, Fallback;
  }

  lemma StoppedAtTouch(supply: seq<Point>, demand: seq<Point>, i: nat,
                       roundPrice: real -> real, roundVolume: real -> real)
    requires 1 <= i < |supply| && i < |demand| && Touch(supply, demand, i - 1)
    ensures StoppedAt(supply, demand, i, roundPrice, roundVolume)
            == Crossing(supply[i - 1].price, supply[i - 1].volume, true)
  {
    hide Touch;
  }

  lemma StoppedAtChange(supply: seq<Point>, demand: seq<Point>, i: nat, weight: real,
                        roundPrice: real -> real, roundVolume: real -> real)
    requires 1 <= i < |supply| && i < |demand| && Change(supply, demand, i)
    requires weight == Weight(supply, demand, i)
    ensures var volume := Along(supply[i - 1].volume, supply[i].volume, weight);
            StoppedAt(supply, demand, i, roundPrice, roundVolume)
            == Crossing(roundPrice(Along(supply[i - 1].price, supply[i].price, weight)), roundVolume(volume),
                        AnyVolume(volume, supply, demand, i))
  {
    hide Along, Weight, AnyVolume;
  }

  lemma Exhausted(supply: seq<Point>, demand: seq<Point>, roundPrice: real -> real, roundVolume: real -> real)
    requires supply != [] && demand != []
    requires Scan(supply, demand, 1) == Scan(supply, demand, Min(|supply|, |demand|))
    ensures Intersection(supply, demand, roundPrice, roundVolume) == Fallback(supply, demand, roundPrice, roundVolume)
  {
    hide Stops, StoppedAt, Fallback;
  }

  lemma FallbackIs(supply: seq<Point>, demand: seq<Point>,
                   roundPrice: real -> real, roundVolume: real -> real, b: nat)
    requires supply != [] && demand != [] && b == Closest(supply, demand, Min(|supply|, |demand|))
    ensures Fallback(supply, demand, roundPrice, roundVolume)
            == Crossing(roundPrice(supply[b].price), roundVolume((supply[b].volume + demand[b].volume) / 2.0), false)
  {
  }

  method FindCurveIntersection(supply: seq<Point>, demand: seq<Point>,
                               roundPrice: real -> real, roundVolume: real -> real) returns (r: Crossing)
    ensures r == Intersection(supply, demand, roundPrice, roundVolume)
  {
    if |supply| == 0 || |demand| == 0 {
      return Crossing(NO_CURVE_PRICE, 0.0, false);
    }
    hide Intersection, Scan, Along, AnyVolume, Abs, Fallback, StoppedAt, Stops;
    var n := Min(|supply|, |demand|);
    var best, bestDiff := 0, Abs(supply[0].volume - demand[0].volume);
    var i := 0;
    while i < n
      invariant 0 <= i <= n
      invariant best == if i == 0 then 0 else Closest(supply, demand, i)
      invariant bestDiff == Abs(Excess(supply, demand, best))
      invariant i >= 1 ==> Scan(supply, demand, 1) == Scan(supply, demand, i)
    {
      var currentDiff := supply[i].volume - demand[i].volume;
      if Abs(currentDiff) < bestDiff {
        best, bestDiff := i, Abs(currentDiff);
      }
      if i == 0 {
        i := 1;
        continue;
      }
      var previousDiff := supply[i - 1].volume - demand[i - 1].volume;
      if previousDiff == 0.0 {
        if supply[i - 1].volume <= 0.0 && demand[i - 1].volume <= 0.0 {
          KeepsScanning(supply, demand, i);
          i := i + 1;
          continue;
        }
        StopsScanning(supply, demand, i, roundPrice, roundVolume);
        StoppedAtTouch(supply, demand, i, roundPrice, roundVolume);
        return Crossing(supply[i - 1].price, supply[i - 1].volume, true);
      }
      if (previousDiff < 0.0 && currentDiff > 0.0) || (previousDiff > 0.0 && currentDiff < 0.0) {
        var weight := previousDiff / (previousDiff - currentDiff);
        var price := Along(supply[i - 1].price, supply[i].price, weight);
        var volume := Along(supply[i - 1].volume, supply[i].volume, weight);
        StopsScanning(supply, demand, i, roundPrice, roundVolume);
        StoppedAtChange(supply, demand, i, weight, roundPrice, roundVolume);
        return Crossing(roundPrice(price), roundVolume(volume), AnyVolume(volume, supply, demand, i));
      }
      KeepsScanning(supply, demand, i);
      i := i + 1;
    }
    Exhausted(supply, demand, roundPrice, roundVolume);
    FallbackIs(supply, demand, roundPrice, roundVolume, best);
    r := Crossing(roundPrice(supply[best].price), roundVolume((supply[best].volume + demand[best].volume) / 2.0), false);
  }

  // ------------------------------------------------------ before rounding

  function Same(x: real): real { x }

  function Exact(supply: seq<Point>, demand: seq<Point>): Crossing {
    Intersection(supply, demand, Same, Same)
  }

  /** Supply and demand summed on one increasing price grid. */
  ghost predicate Market(supply: seq<Point>, demand: seq<Point>) {
    && |supply| == |demand|
    && (forall i :: 0 <= i < |supply| ==> supply[i].price == demand[i].price)
    && StrictPrices(supply)
    && Economic(supply, Ask) && Economic(demand, Bid)
  }

  function Supply(supply: seq<Point>, price: real): real { Interpolated(supply, price, Ask) }

  function Demand(demand: seq<Point>, price: real): real { Interpolated(demand, price, Bid) }

  // ------------------------------------------------------ between grid points

  /** Between two neighbouring prices a curve is read on the line joining them. */
  lemma OnSegment(points: seq<Point>, kind: Side, x: real, i: nat)
    requires StrictPrices(points) && 1 <= i < |points| && points[i - 1].price < x < points[i].price
    ensures Interpolated(points, x, kind) == Line(points[i - 1], points[i], x)
  {
    hide Line, Interpolated;
    FromFirstToLast(points, i);
    var k := Inside(points, kind, x);
    SameSegment(points, x, i, k);
  }

  lemma SameSegment(points: seq<Point>, x: real, i: nat, k: nat)
    requires StrictPrices(points) && 1 <= i < |points| && 1 <= k < |points|
    requires points[i - 1].price < x < points[i].price && points[k - 1].price < x <= points[k].price
    ensures i == k
  {
  }

  lemma FromFirstToLast(points: seq<Point>, i: nat)
    requires StrictPrices(points) && 1 <= i < |points|
    ensures points[0].price <= points[i - 1].price && points[i].price <= points[|points| - 1].price
  {
  }

  /** At its own prices a curve reads its own volumes. */
  lemma AtGridPoint(points: seq<Point>, kind: Side, k: nat)
    requires StrictPrices(points) && k < |points|
    ensures Interpolated(points, points[k].price, kind) == points[k].volume
  {
    hide Line, Segment;
    if 0 < k < |points| - 1 {
      var x := points[k].price;
      var i := Inside(points, kind, x);
      SegmentRange(points, x, 1);
      assert i == k;
      LineAtRight(points[k - 1], points[k]);
    }
  }

  lemma LineAtRight(left: Point, right: Point)
    ensures Line(left, right, right.price) == right.volume
  {
    var span := right.price - left.price;
    if span > 0.0 {
      QuotientEnds(span);
      TimesUnits(right.volume - left.volume, span / span);
    }
  }

  /** Both curves read at the same fraction of the way between two grid prices. */
  lemma ExcessBetween(supply: seq<Point>, demand: seq<Point>, i: nat, u: real, x: real)
    requires Market(supply, demand) && 1 <= i < |supply|
    requires 0.0 < u < 1.0 && x == Along(supply[i - 1].price, supply[i].price, u)
    ensures supply[i - 1].price < x < supply[i].price
    ensures Supply(supply, x) == Along(supply[i - 1].volume, supply[i].volume, u)
    ensures Demand(demand, x) == Along(demand[i - 1].volume, demand[i].volume, u)
  {
    hide Economic, Interpolated;
    var span := supply[i].price - supply[i - 1].price;
    FractionBack(span, u);
    hide Times;
    OnSegment(supply, Ask, x, i);
    OnSegment(demand, Bid, x, i);
  }

  lemma FractionBack(span: real, u: real)
    requires span > 0.0 && 0.0 < u < 1.0
    ensures 0.0 < Times(span, u) < span
    ensures Times(span, u) / span == u
  {
    StrictlyWithin(span, u);
    assert Times(span, u) == u * span;
    DivBounds(Times(span, u), span, u, u);
  }

  lemma StrictlyWithin(span: real, u: real)
    requires span > 0.0 && 0.0 < u < 1.0
    ensures 0.0 < Times(span, u) < span
  {
    hide Times;
    var v := 1.0 - u;
    TimesSigns(span, u);
    TimesSigns(span, v);
    TimesDistributes(span, u, v);
    TimesUnits(span, u + v);
  }

  lemma ProperFraction(a: real, c: real)
    requires 0.0 < a < c
    ensures 0.0 < a / c < 1.0
  {
    DivMul(a, c);
    DivBounds(a, c, 0.0, 1.0);
  }

  /** Every price strictly between two grid prices is some fraction of the way. */
  lemma FractionOf(a: real, b: real, x: real) returns (u: real)
    requires a < x < b
    ensures 0.0 < u < 1.0 && x == Along(a, b, u)
  {
    u := (x - a) / (b - a);
    ProperFraction(x - a, b - a);
    DivMul(x - a, b - a);
  }

  lemma AlongDifference(a: real, b: real, c: real, d: real, u: real)
    ensures Along(a, b, u) - Along(c, d, u) == Along(a - c, b - d, u)
  {
  }

  /** A weighted mean of numbers of strictly opposite sign vanishes at one weight only. */
  lemma ZeroWeight(e: real, f: real, u: real)
    requires (e < 0.0 && f > 0.0) || (e > 0.0 && f < 0.0)
    requires u == e / (e - f)
    ensures 0.0 < u < 1.0 && Along(e, f, u) == 0.0
  {
    DivMul(e, e - f);
    assert Times(f - e, u) == -(u * (e - f));
    if e < 0.0 {
      if u <= 0.0 { ScaleLe(u, 0.0, f - e); }
      if u >= 1.0 { ScaleLe(1.0, u, f - e); }
    } else {
      if u <= 0.0 { ScaleLe(u, 0.0, e - f); }
      if u >= 1.0 { ScaleLe(1.0, u, e - f); }
    }
  }

  lemma AlongSigns(e: real, f: real, u: real)
    requires 0.0 < u < 1.0
    ensures e >= 0.0 && f >= 0.0 && (e > 0.0 || f > 0.0) ==> Along(e, f, u) > 0.0
    ensures e <= 0.0 && f <= 0.0 && (e < 0.0 || f < 0.0) ==> Along(e, f, u) < 0.0
    ensures e == 0.0 && f == 0.0 ==> Along(e, f, u) == 0.0
  {
    assert Along(e, f, u) == Times(1.0 - u, e) + Times(u, f);
    SignOfScaled(1.0 - u, e);
    SignOfScaled(u, f);
  }

  lemma SignOfScaled(c: real, e: real)
    requires c > 0.0
    ensures e > 0.0 ==> Times(c, e) > 0.0
    ensures e < 0.0 ==> Times(c, e) < 0.0
    ensures e == 0.0 ==> Times(c, e) == 0.0
  {
    if e > 0.0 { StrictScale(0.0, e, c); }
    if e < 0.0 { StrictScale(e, 0.0, c); }
  }

  // ---------------------------------------------------------- the crossing

  /** The reported point lies on both curves, short of the last grid price. */
  lemma CrossingOnBothCurves(supply: seq<Point>, demand: seq<Point>)
    requires Market(supply, demand) && Exact(supply, demand).crossed
    ensures var r := Exact(supply, demand);
            && Supply(supply, r.price) == r.volume && Demand(demand, r.price) == r.volume
            && r.volume > 0.0
            && supply[0].price <= r.price < supply[|supply| - 1].price
  {
    hide Economic;
    ScanRange(supply, demand, 1);
    var i := Scan(supply, demand, 1);
    hide Scan;
    FromFirstToLast(supply, i);
    if Touch(supply, demand, i - 1) {
      AtGridPoint(supply, Ask, i - 1);
      AtGridPoint(demand, Bid, i - 1);
    } else {
      ChangeCrosses(supply, demand, i);
    }
  }

  lemma ChangeCrosses(supply: seq<Point>, demand: seq<Point>, i: nat)
    requires Market(supply, demand) && 1 <= i < |supply| && Change(supply, demand, i)
    ensures var u := Weight(supply, demand, i);
            var x, v := Along(supply[i - 1].price, supply[i].price, u), Along(supply[i - 1].volume, supply[i].volume, u);
            && supply[i - 1].price < x < supply[i].price
            && Supply(supply, x) == v && Demand(demand, x) == v && v > 0.0
  {
    var u := Weight(supply, demand, i);
    ZeroWeight(Excess(supply, demand, i - 1), Excess(supply, demand, i), u);
    ExcessBetween(supply, demand, i, u, Along(supply[i - 1].price, supply[i].price, u));
    AlongDifference(supply[i - 1].volume, supply[i].volume, demand[i - 1].volume, demand[i].volume, u);
    VolumesNonNegative(supply, demand, i);
    hide Market, Along;
    AlongSigns(supply[i - 1].volume, supply[i].volume, u);
    AlongSigns(demand[i - 1].volume, demand[i].volume, u);
  }

  lemma VolumesNonNegative(supply: seq<Point>, demand: seq<Point>, i: nat)
    requires Market(supply, demand) && 1 <= i < |supply|
    ensures supply[i - 1].volume >= 0.0 && supply[i].volume >= 0.0
    ensures demand[i - 1].volume >= 0.0 && demand[i].volume >= 0.0
    ensures supply[i - 1].volume <= supply[i].volume && demand[i - 1].volume >= demand[i].volume
  {
  }

  /**
    The clearing point maximises what can be executed: at no price at all, on the grid or
    off it, do both sides offer more than the reported volume.
   */
  lemma ClearingMaximisesVolume(supply: seq<Point>, demand: seq<Point>, price: real)
    requires Market(supply, demand) && Exact(supply, demand).crossed
    ensures var r := Exact(supply, demand);
            Supply(supply, price) <= r.volume || Demand(demand, price) <= r.volume
  {
    CrossingOnBothCurves(supply, demand);
    var r := Exact(supply, demand);
    hide Intersection, Interpolated, Economic;
    if price <= r.price {
      InterpolatedMonotone(supply, Ask, price, r.price);
    } else {
      InterpolatedMonotone(demand, Bid, r.price, price);
    }
  }

  /** A crossing is reported exactly when some step of the grid stops the scan. */
  lemma CrossedIffStops(supply: seq<Point>, demand: seq<Point>)
    requires Market(supply, demand)
    ensures Exact(supply, demand).crossed <==> exists i :: 1 <= i < |supply| && Stops(supply, demand, i)
  {
    ScanRange(supply, demand, 1);
    var i := Scan(supply, demand, 1);
    if supply != [] && i < |supply| {
      VolumesNonNegative(supply, demand, i);
    }
  }

  /** Every strict change of sign between neighbouring grid prices is reported as a crossing. */
  lemma SignChangeIsReported(supply: seq<Point>, demand: seq<Point>, i: nat)
    requires Market(supply, demand) && 1 <= i < |supply| && Change(supply, demand, i)
    ensures Exact(supply, demand).crossed
  {
    assert Stops(supply, demand, i);
    CrossedIffStops(supply, demand);
  }

  /** The curves meet at `x` with something to trade. */
  ghost predicate Meet(supply: seq<Point>, demand: seq<Point>, x: real) {
    Supply(supply, x) == Demand(demand, x) > 0.0
  }

  /**
    A crossing is reported if and only if the curves meet, with positive volume, somewhere
    from the first grid price up to but not including the last.
   */
  lemma CrossedIffCurvesMeet(supply: seq<Point>, demand: seq<Point>)
    requires Market(supply, demand) && supply != []
    ensures Exact(supply, demand).crossed <==>
              exists x :: supply[0].price <= x < supply[|supply| - 1].price && Meet(supply, demand, x)
  {
    hide Intersection, Interpolated;
    if Exact(supply, demand).crossed {
      CrossingOnBothCurves(supply, demand);
      assert Meet(supply, demand, Exact(supply, demand).price);
    }
    forall x | supply[0].price <= x < supply[|supply| - 1].price && Meet(supply, demand, x)
      ensures Exact(supply, demand).crossed
    {
      var i := MeetingStops(supply, demand, x);
      CrossedIffStops(supply, demand);
    }
  }

  lemma MeetingStops(supply: seq<Point>, demand: seq<Point>, x: real) returns (i: nat)
    requires Market(supply, demand) && supply != []
    requires supply[0].price <= x < supply[|supply| - 1].price && Meet(supply, demand, x)
    ensures 1 <= i < |supply| && Stops(supply, demand, i)
  {
    hide Interpolated;
    var k := LastAtOrBelow(supply, x);
    i := k + 1;
    if supply[k].price == x {
      AtGridPoint(supply, Ask, k);
      AtGridPoint(demand, Bid, k);
    } else {
      var u := FractionOf(supply[k].price, supply[i].price, x);
      ExcessBetween(supply, demand, i, u, x);
      AlongDifference(supply[k].volume, supply[i].volume, demand[k].volume, demand[i].volume, u);
      VolumesNonNegative(supply, demand, i);
      hide Market, Along, Supply, Demand;
      AlongSigns(Excess(supply, demand, k), Excess(supply, demand, i), u);
      AlongSigns(supply[k].volume, supply[i].volume, u);
    }
  }

  lemma LastAtOrBelow(points: seq<Point>, x: real) returns (k: nat)
    requires points != [] && points[0].price <= x < points[|points| - 1].price
    ensures k + 1 < |points| && points[k].price <= x < points[k + 1].price
  {
    k := 0;
    while points[k + 1].price <= x
      invariant k + 1 < |points| && points[k].price <= x
      decreases |points| - k
    {
      k := k + 1;
    }
  }

  /** Curves that first meet at the last grid price are not reported, although they trade there. */
  lemma LastGridPriceIsMissed()
    ensures var supply := [Point(100.0, 0.0), Point(101.0, 1.0)];
            var demand := [Point(100.0, 2.0), Point(101.0, 1.0)];
            Market(supply, demand) && Meet(supply, demand, 101.0) && !Exact(supply, demand).crossed
  {
  }

  /** Without a crossing the report falls back on the closest grid point, the first of them. */
  lemma {:induction false} ClosestIsClosest(supply: seq<Point>, demand: seq<Point>, n: nat, i: nat)
    requires 1 <= n <= |supply| && n <= |demand| && i < n
    ensures var b := Closest(supply, demand, n);
            && Abs(Excess(supply, demand, b)) <= Abs(Excess(supply, demand, i))
            && (i < b ==> Abs(Excess(supply, demand, b)) < Abs(Excess(supply, demand, i)))
  {
    hide Abs;
    if n > 1 {
      var b := Closest(supply, demand, n - 1);
      ClosestIsClosest(supply, demand, n - 1, if i == n - 1 then b else i);
    }
  }

  /** Without one of the curves the gateway reports 68450, nothing to trade, and no crossing. */
  lemma NoCurves(supply: seq<Point>, demand: seq<Point>)
    requires supply == [] || demand == []
    ensures Exact(supply, demand) == Crossing(68450.0, 0.0, false)
  {
  }

  /** What is reported without a crossing: the closest grid price, and the mean volume there. */
  lemma UncrossedReport(supply: seq<Point>, demand: seq<Point>, i: nat)
    requires supply != [] && demand != [] && i < Min(|supply|, |demand|)
    requires Scan(supply, demand, 1) >= Min(|supply|, |demand|)
    ensures var r, b := Exact(supply, demand), Closest(supply, demand, Min(|supply|, |demand|));
            && !r.crossed && r.price == supply[b].price
            && 2.0 * r.volume == supply[b].volume + demand[b].volume
            && Abs(supply[b].volume - demand[b].volume) <= Abs(supply[i].volume - demand[i].volume)
  {
    ClosestIsClosest(supply, demand, Min(|supply|, |demand|), i);
    hide Scan, Closest, StoppedAt;
  }

  /** Rounding decides neither whether the curves cross nor where: it is applied to the result. */
  lemma RoundingComesLast(supply: seq<Point>, demand: seq<Point>,
                          roundPrice: real -> real, roundVolume: real -> real)
    ensures var r, exact := Intersection(supply, demand, roundPrice, roundVolume), Exact(supply, demand);
            && r.crossed == exact.crossed
            && (r.price == exact.price || r.price == roundPrice(exact.price))
            && (r.volume == exact.volume || r.volume == roundVolume(exact.volume))
  {
    hide Scan, Closest, Along, Weight, Touch, Change;
  }

  /**
    The whole path from venue schedules: clearing the curves summed from economic schedules,
    at no grid price could both rounded totals exceed the clearing volume.
   */
  lemma MarketClears(asks: seq<seq<Point>>, bids: seq<seq<Point>>, grid: seq<real>, round: real -> real, k: nat)
    requires AllEconomic(asks, Ask) && AllEconomic(bids, Bid)
    requires Increasing(grid) && Rounding(round) && k < |grid|
    ensures var supply, demand := Aggregated(asks, grid, Ask, round), Aggregated(bids, grid, Bid, round);
            var r := Exact(supply, demand);
            r.crossed ==>
              && Supply(supply, r.price) == r.volume == Demand(demand, r.price)
              && (round(Total(asks, grid[k], Ask)) <= r.volume || round(Total(bids, grid[k], Bid)) <= r.volume)
  {
    hide AllEconomic, Rounding, Increasing, Intersection, Total, Economic;
    var supply, demand := Aggregated(asks, grid, Ask, round), Aggregated(bids, grid, Bid, round);
    AggregatedIsEconomic(asks, grid, Ask, round);
    AggregatedIsEconomic(bids, grid, Bid, round);
    AtGridPoint(supply, Ask, k);
    AtGridPoint(demand, Bid, k);
    hide Interpolated;
    if Exact(supply, demand).crossed {
      CrossingOnBothCurves(supply, demand);
      ClearingMaximisesVolume(supply, demand, grid[k]);
    }
  }
}
