/**
  What is cleared can be executed: between grid prices the summed curve, read linearly,
  never shows more volume than the schedules themselves offer.
 */
module ExecutableVolume {
  import opened Clearing
  import opened MarketCurves
  import opened RealFacts
  import opened Schedules

  /** Prices increase strictly, but for the step at the side's near end. */
  ghost predicate Stepped(points: seq<Point>, kind: Side) {
    forall i, j :: (if kind.Ask? then 1 else 0) <= i < j < (if kind.Bid? then |points| - 1 else |points|) ==>
      points[i].price < points[j].price
  }

  /** All of a bid schedule's volume at a single price. */
  predicate SinglePriceBid(points: seq<Point>, kind: Side) {
    kind.Bid? && points != [] && points[0].price == points[|points| - 1].price && points[0].volume > 0.0
  }

  ghost predicate WellShaped(points: seq<Point>, kind: Side) {
    Economic(points, kind) && StartsEmpty(points, kind) && Stepped(points, kind)
  }

  /** Cleaning one-way samples leaves this shape. */
  lemma ScheduleIsWellShaped(schedule: seq<Point>, raw: seq<RawPoint>, kind: Side,
                             roundPrice: real -> real, roundVolume: real -> real)
    requires Rounding(roundPrice) && Rounding(roundVolume) && OneWay(raw, kind)
    requires ScheduleOf(schedule, raw, kind, roundPrice, roundVolume)
    ensures WellShaped(schedule, kind)
  {
    ScheduleIsEconomic(schedule, raw, kind, roundPrice, roundVolume);
    hide Rounding, OneWay, Economic, StartsEmpty, Envelope, Stepped;
    var points: seq<Point> :| Envelope(points, raw, roundPrice, roundVolume) && schedule == WithZeroVolume(points, kind);
    EnvelopeIsStrict(points, raw, roundPrice, roundVolume);
    ZeroVolumeStep(points, kind);
  }

  lemma EnvelopeIsStrict(points: seq<Point>, raw: seq<RawPoint>, roundPrice: real -> real, roundVolume: real -> real)
    requires Envelope(points, raw, roundPrice, roundVolume)
    ensures StrictPrices(points)
  {
    hide StrictPrices, Above, ComesFrom;
  }

  lemma ZeroVolumeStep(points: seq<Point>, kind: Side)
    requires StrictPrices(points)
    ensures Stepped(WithZeroVolume(points, kind), kind)
  {
  }

  // ------------------------------------------------------ one schedule

  lemma AlongMonotone(a: real, b: real, c: real, d: real, u: real)
    requires a <= c && b <= d && 0.0 < u < 1.0
    ensures Along(a, b, u) <= Along(c, d, u)
  {
    var v := 1.0 - u;
    AlongMixes(a, b, u, v);
    AlongMixes(c, d, u, v);
    TimesOrdered(a, c, v);
    TimesOrdered(b, d, u);
    hide Times, Along;
  }

  lemma TimesOrdered(a: real, c: real, v: real)
    requires a <= c && v >= 0.0
    ensures Times(a, v) <= Times(c, v)
  {
    ScaleLe(a, c, v);
  }

  lemma AlongMixes(a: real, b: real, u: real, v: real)
    requires v == 1.0 - u
    ensures Along(a, b, u) == Times(a, v) + Times(b, u)
  {
    assert Times(b - a, u) == b * u - a * u;
    assert a * v == a - a * u;
  }

  lemma AlongConstant(a: real, b: real, u: real)
    requires a == b
    ensures Along(a, b, u) == a
  {
  }

  lemma AlongBetween(g: real, h: real, u: real)
    requires g < h && 0.0 < u < 1.0
    ensures g < Along(g, h, u) < h
  {
    StrictlyWithin(h - g, u);
  }

  /** A straight line read along an interval is the line between its end values. */
  lemma LineAffine(left: Point, right: Point, g: real, h: real, u: real)
    requires left.price < right.price
    ensures Line(left, right, Along(g, h, u)) == Along(Line(left, right, g), Line(left, right, h), u)
  {
    var span, rise := right.price - left.price, right.volume - left.volume;
    var s, t := (g - left.price) / span, (h - left.price) / span;
    FractionAlong(g - left.price, h - left.price, span, u);
    assert Along(g, h, u) - left.price == Along(g - left.price, h - left.price, u);
    TimesAlong(rise, s, t, u);
    hide Times;
    AlongShift(left.volume, Times(rise, s), Times(rise, t), u);
  }

  lemma FractionAlong(a: real, b: real, span: real, u: real)
    requires span > 0.0
    ensures Along(a, b, u) / span == Along(a / span, b / span, u)
  {
    var s, t := a / span, b / span;
    DivMul(a, span);
    DivMul(b, span);
    assert Along(s, t, u) * span == s * span + (t * span - s * span) * u;
    DivBounds(Along(a, b, u), span, Along(s, t, u), Along(s, t, u));
  }

  lemma TimesAlong(rise: real, s: real, t: real, u: real)
    ensures Times(rise, Along(s, t, u)) == Along(Times(rise, s), Times(rise, t), u)
  {
  }

  lemma AlongShift(c: real, a: real, b: real, u: real)
    ensures c + Along(a, b, u) == Along(c + a, c + b, u)
  {
  }

  ghost predicate NoPriceWithin(points: seq<Point>, g: real, h: real) {
    forall k :: 0 <= k < |points| ==> !(g < points[k].price < h)
  }

  /** Inside a schedule, between neighbouring prices, the ends lie on or below the segment's line. */
  lemma ChordOnSegment(points: seq<Point>, kind: Side, g: real, h: real, x: real) returns (k: nat)
    requires WellShaped(points, kind) && points != [] && NoPriceWithin(points, g, h) && g < x < h
    requires points[0].price <= g && h <= points[|points| - 1].price
    ensures 1 <= k < |points| && points[k - 1].price < points[k].price
    ensures Interpolated(points, x, kind) == Line(points[k - 1], points[k], x)
    ensures Interpolated(points, g, kind) <= Line(points[k - 1], points[k], g)
    ensures Interpolated(points, h, kind) <= Line(points[k - 1], points[k], h)
  {
    k := Inside(points, kind, x);
    assert points[k - 1].price <= g && h <= points[k].price;
    LeftEndBelow(points, kind, g, k);
    RightEndBelow(points, kind, h, k);
  }

  lemma LineAtLeft(left: Point, right: Point)
    requires left.price < right.price
    ensures Line(left, right, left.price) == left.volume
  {
    QuotientOrdered(0.0, 0.0, right.price - left.price);
    TimesUnits(right.volume - left.volume, (left.price - left.price) / (right.price - left.price));
  }

  lemma LeftEndBelow(points: seq<Point>, kind: Side, g: real, k: nat)
    requires WellShaped(points, kind) && 1 <= k < |points|
    requires points[0].price <= g && points[k - 1].price <= g < points[k].price <= points[|points| - 1].price
    ensures Interpolated(points, g, kind) <= Line(points[k - 1], points[k], g)
  {
    var p := points[k - 1];
    if g == p.price {
      LineAtLeft(p, points[k]);
      if g > points[0].price {
        var j := Inside(points, kind, g);
        SegmentRange(points, g, 1);
        assert j <= k - 1 && points[j].price == g;
        LineAtRight(points[j - 1], points[j]);
        hide Line, Interpolated, Segment;
        assert Ordered(kind, points[j].volume, p.volume);
      } else {
        hide Line, Segment;
        assert Ordered(kind, points[0].volume, p.volume);
      }
    } else {
      var j := Inside(points, kind, g);
      SegmentRange(points, g, 1);
      hide Line, Interpolated, Segment;
      SameSegmentOf(points, g, j, k);
    }
  }

  lemma SameSegmentOf(points: seq<Point>, x: real, j: nat, k: nat)
    requires 1 <= j < |points| && 1 <= k < |points|
    requires forall a, b :: 0 <= a <= b < |points| ==> points[a].price <= points[b].price
    requires points[j - 1].price < x <= points[j].price && points[k - 1].price < x <= points[k].price
    ensures j == k
  {
  }

  lemma RightEndBelow(points: seq<Point>, kind: Side, h: real, k: nat)
    requires WellShaped(points, kind) && 1 <= k < |points|
    requires points[0].price <= points[k - 1].price < h <= points[k].price
    ensures Interpolated(points, h, kind) <= Line(points[k - 1], points[k], h)
  {
    var last := |points| - 1;
    if h < points[last].price {
      var j := Inside(points, kind, h);
      hide Line, Interpolated, Segment;
      SameSegmentOf(points, h, j, k);
    } else {
      assert points[k].price <= points[last].price;
      LineAtRight(points[k - 1], points[k]);
      hide Line, Segment;
      assert Ordered(kind, points[k].volume, points[last].volume);
    }
  }

  /** Between neighbouring prices the straight line never overstates the schedule. */
  lemma ChordBelow(points: seq<Point>, kind: Side, g: real, h: real, u: real)
    requires WellShaped(points, kind) && !SinglePriceBid(points, kind)
    requires g < h && 0.0 < u < 1.0 && NoPriceWithin(points, g, h)
    ensures Along(Interpolated(points, g, kind), Interpolated(points, h, kind), u)
            <= Interpolated(points, Along(g, h, u), kind)
  {
    var x, last := Along(g, h, u), |points| - 1;
    AlongBetween(g, h, u);
    if points != [] && points[0].price < h && g < points[last].price {
      assert points[0].price <= g && h <= points[last].price;
      var k := ChordOnSegment(points, kind, g, h, x);
      LineAffine(points[k - 1], points[k], g, h, u);
      hide Line, Along, Interpolated;
      AlongMonotone(Interpolated(points, g, kind), Interpolated(points, h, kind),
                    Line(points[k - 1], points[k], g), Line(points[k - 1], points[k], h), u);
    } else {
      OutsideConstant(points, kind, g, h, x);
      hide Line, Along, Interpolated;
      var v := Interpolated(points, x, kind);
      AlongConstant(v, v, u);
      AlongMonotone(Interpolated(points, g, kind), Interpolated(points, h, kind), v, v, u);
    }
  }

  lemma OutsideConstant(points: seq<Point>, kind: Side, g: real, h: real, x: real)
    requires WellShaped(points, kind) && !SinglePriceBid(points, kind) && g < x < h
    requires points == [] || h <= points[0].price || points[|points| - 1].price <= g
    ensures Interpolated(points, g, kind) <= Interpolated(points, x, kind)
    ensures Interpolated(points, h, kind) <= Interpolated(points, x, kind)
  {
    hide Line, Segment;
    if points != [] {
      var last := |points| - 1;
      assert Ordered(kind, points[0].volume, points[last].volume);
      assert points[0].price <= points[last].price;
      assert points[0].volume >= 0.0 && points[last].volume >= 0.0;
    }
  }

  /** The exception is real: above its only price a single-price bid is overstated. */
  lemma SinglePriceBidOverstated(points: seq<Point>, h: real, u: real)
    requires WellShaped(points, Bid) && SinglePriceBid(points, Bid)
    requires points[0].price < h && 0.0 < u < 1.0
    ensures Along(Interpolated(points, points[0].price, Bid), Interpolated(points, h, Bid), u)
            > Interpolated(points, Along(points[0].price, h, u), Bid)
  {
    AlongBetween(points[0].price, h, u);
    hide Along, Line, Segment;
    AlongSigns(points[0].volume, Interpolated(points, h, Bid), u);
  }

  /** So a schedule is never overstated between its prices exactly when it is no single-price bid. */
  lemma NeverOverstatedIff(points: seq<Point>, kind: Side)
    requires WellShaped(points, kind)
    ensures (forall g, h, u :: g < h && 0.0 < u < 1.0 && NoPriceWithin(points, g, h) ==>
               Along(Interpolated(points, g, kind), Interpolated(points, h, kind), u)
               <= Interpolated(points, Along(g, h, u), kind))
            <==> !SinglePriceBid(points, kind)
  {
    hide WellShaped, Interpolated, Along;
    if SinglePriceBid(points, kind) {
      var g := points[0].price;
      var h, u := g + 1.0, 0.5;
      assert NoPriceWithin(points, g, h) by { AllAtOnePrice(points, kind); }
      SinglePriceBidOverstated(points, h, u);
    } else {
      forall g, h, u | g < h && 0.0 < u < 1.0 && NoPriceWithin(points, g, h)
        ensures Along(Interpolated(points, g, kind), Interpolated(points, h, kind), u)
                <= Interpolated(points, Along(g, h, u), kind)
      {
        ChordBelow(points, kind, g, h, u);
      }
    }
  }

  lemma AllAtOnePrice(points: seq<Point>, kind: Side)
    requires WellShaped(points, kind) && SinglePriceBid(points, kind)
    ensures forall k :: 0 <= k < |points| ==> points[k].price == points[0].price
  {
    forall k | 0 <= k < |points| ensures points[k].price == points[0].price {
      assert points[0].price <= points[k].price <= points[|points| - 1].price;
    }
  }

  // ---------------------------------------------------------- the market

  ghost predicate AllSound(schedules: seq<seq<Point>>, kind: Side) {
    forall i :: 0 <= i < |schedules| ==> WellShaped(schedules[i], kind) && !SinglePriceBid(schedules[i], kind)
  }

  /** Every price of every schedule is on the grid. */
  ghost predicate OnGrid(schedules: seq<seq<Point>>, grid: seq<real>) {
    forall i, k :: 0 <= i < |schedules| && 0 <= k < |schedules[i]| ==> schedules[i][k].price in grid
  }

  lemma NoneBetween(points: seq<Point>, grid: seq<real>, i: nat)
    requires Increasing(grid) && 1 <= i < |grid|
    requires forall k :: 0 <= k < |points| ==> points[k].price in grid
    ensures NoPriceWithin(points, grid[i - 1], grid[i])
  {
    forall k | 0 <= k < |points| ensures !(grid[i - 1] < points[k].price < grid[i]) {
      var j :| 0 <= j < |grid| && grid[j] == points[k].price;
      if j < i - 1 { assert grid[j] < grid[i - 1]; }
      if j > i { assert grid[i] < grid[j]; }
    }
  }

  lemma AlongAdds(a: real, b: real, c: real, d: real, u: real)
    ensures Along(a + c, b + d, u) == Along(a, b, u) + Along(c, d, u)
  {
  }

  lemma {:induction false} TotalChordBelow(schedules: seq<seq<Point>>, kind: Side, grid: seq<real>, i: nat, u: real)
    requires AllSound(schedules, kind) && OnGrid(schedules, grid)
    requires Increasing(grid) && 1 <= i < |grid| && 0.0 < u < 1.0
    ensures Along(Total(schedules, grid[i - 1], kind), Total(schedules, grid[i], kind), u)
            <= Total(schedules, Along(grid[i - 1], grid[i], u), kind)
  {
    hide WellShaped, SinglePriceBid, Interpolated, Along;
    if schedules == [] {
      AlongConstant(0.0, 0.0, u);
    } else {
      var init, last := schedules[..|schedules| - 1], schedules[|schedules| - 1];
      assert forall k :: 0 <= k < |init| ==> init[k] == schedules[k];
      TotalChordBelow(init, kind, grid, i, u);
      NoneBetween(last, grid, i);
      hide AllSound, OnGrid, NoPriceWithin;
      ChordBelow(last, kind, grid[i - 1], grid[i], u);
      AlongAdds(Total(init, grid[i - 1], kind), Total(init, grid[i], kind),
                Interpolated(last, grid[i - 1], kind), Interpolated(last, grid[i], kind), u);
    }
  }

  /** Rounding up by at most `e`. */
  ghost predicate UpBy(round: real -> real, e: real) {
    e >= 0.0 && forall x :: round(x) <= x + e
  }

  /**
    Nowhere on the grid's range does the summed curve show more than the schedules offer,
    but for what rounding the sums may add; at grid prices it shows the rounded sum.
   */
  lemma AggregateNeverOverstates(schedules: seq<seq<Point>>, kind: Side, grid: seq<real>,
                                 round: real -> real, e: real, x: real)
    requires AllSound(schedules, kind) && OnGrid(schedules, grid) && Increasing(grid) && grid != []
    requires UpBy(round, e) && grid[0] <= x <= grid[|grid| - 1]
    ensures Interpolated(Aggregated(schedules, grid, kind, round), x, kind) <= Total(schedules, x, kind) + e
    ensures x in grid ==>
              Interpolated(Aggregated(schedules, grid, kind, round), x, kind) == round(Total(schedules, x, kind))
  {
    hide AllSound, OnGrid, Total, Interpolated, Aggregated, Increasing;
    if x in grid {
      var k :| 0 <= k < |grid| && grid[k] == x;
      ExactAtGridPrice(schedules, kind, grid, round, k);
    } else {
      BelowBetweenGridPrices(schedules, kind, grid, round, e, x);
    }
  }

  lemma ExactAtGridPrice(schedules: seq<seq<Point>>, kind: Side, grid: seq<real>, round: real -> real, k: nat)
    requires Increasing(grid) && k < |grid|
    ensures Interpolated(Aggregated(schedules, grid, kind, round), grid[k], kind)
         == round(Total(schedules, grid[k], kind))
  {
    hide Interpolated, Total;
    AtGridPoint(Aggregated(schedules, grid, kind, round), kind, k);
  }

  lemma BelowBetweenGridPrices(schedules: seq<seq<Point>>, kind: Side, grid: seq<real>,
                               round: real -> real, e: real, x: real)
    requires AllSound(schedules, kind) && OnGrid(schedules, grid) && Increasing(grid) && grid != []
    requires UpBy(round, e) && grid[0] <= x <= grid[|grid| - 1] && x !in grid
    ensures Interpolated(Aggregated(schedules, grid, kind, round), x, kind) <= Total(schedules, x, kind) + e
  {
    hide AllSound, OnGrid, Total, Interpolated, Along;
    var k, u := BetweenGridPrices(grid, x);
    var a, b := Total(schedules, grid[k], kind), Total(schedules, grid[k + 1], kind);
    CurveBetween(Aggregated(schedules, grid, kind, round), kind, k + 1, u, x);
    TotalChordBelow(schedules, kind, grid, k + 1, u);
    assert round(a) <= a + e && round(b) <= b + e;
    AlongMonotone(round(a), round(b), a + e, b + e, u);
    AlongAdds(a, b, e, e, u);
    AlongConstant(e, e, u);
  }

  /** A price between grid prices as a fraction of the way from one to the next. */
  lemma BetweenGridPrices(grid: seq<real>, x: real) returns (k: nat, u: real)
    requires Increasing(grid) && grid != [] && x !in grid && grid[0] <= x <= grid[|grid| - 1]
    ensures k + 1 < |grid| && 0.0 < u < 1.0 && x == Along(grid[k], grid[k + 1], u)
  {
    LastNotAbove(grid, x);
    var points := seq(|grid|, i requires 0 <= i < |grid| => Point(grid[i], 0.0));
    k := LastAtOrBelow(points, x);
    assert grid[k] in grid;
    u := FractionOf(grid[k], grid[k + 1], x);
  }

  lemma LastNotAbove(grid: seq<real>, x: real)
    requires grid != [] && x !in grid && x <= grid[|grid| - 1]
    ensures x < grid[|grid| - 1]
  {
    assert grid[|grid| - 1] in grid;
  }

  lemma CurveBetween(curve: seq<Point>, kind: Side, i: nat, u: real, x: real)
    requires StrictPrices(curve) && 1 <= i < |curve| && 0.0 < u < 1.0
    requires x == Along(curve[i - 1].price, curve[i].price, u)
    ensures Interpolated(curve, x, kind) == Along(curve[i - 1].volume, curve[i].volume, u)
  {
    hide Interpolated;
    FractionBack(curve[i].price - curve[i - 1].price, u);
    OnSegment(curve, kind, x, i);
    hide Times;
  }

  /** What clears is offered by both sides, up to `e`. */
  ghost predicate Executable(asks: seq<seq<Point>>, bids: seq<seq<Point>>, grid: seq<real>,
                             round: real -> real, e: real) {
    var r := Exact(Aggregated(asks, grid, Ask, round), Aggregated(bids, grid, Bid, round));
    r.crossed ==> r.volume <= Total(asks, r.price, Ask) + e && r.volume <= Total(bids, r.price, Bid) + e
  }

  /**
    The clearing volume can be executed: at the reported price the ask schedules offer at
    least that much, and so do the bid schedules, up to the rounding of the sums.
   */
  lemma ClearingIsExecutable(asks: seq<seq<Point>>, bids: seq<seq<Point>>, grid: seq<real>, round: real -> real, e: real)
    requires AllSound(asks, Ask) && AllSound(bids, Bid) && OnGrid(asks, grid) && OnGrid(bids, grid)
    requires Increasing(grid) && Rounding(round) && UpBy(round, e)
    ensures Executable(asks, bids, grid, round, e)
  {
    var supply, demand := Aggregated(asks, grid, Ask, round), Aggregated(bids, grid, Bid, round);
    SoundIsEconomic(asks, Ask);
    SoundIsEconomic(bids, Bid);
    hide AllSound, AllEconomic, OnGrid, Total, Intersection, Increasing, Economic, Rounding, UpBy;
    AggregatedIsEconomic(asks, grid, Ask, round);
    AggregatedIsEconomic(bids, grid, Bid, round);
    hide Interpolated;
    var r := Exact(supply, demand);
    if r.crossed {
      CrossingOnBothCurves(supply, demand);
      AggregateNeverOverstates(asks, Ask, grid, round, e, r.price);
      AggregateNeverOverstates(bids, Bid, grid, round, e, r.price);
    }
  }

  lemma SoundIsEconomic(schedules: seq<seq<Point>>, kind: Side)
    requires AllSound(schedules, kind)
    ensures AllEconomic(schedules, kind)
  {
    hide Economic, Stepped, StartsEmpty;
  }

  lemma SameIsRounding()
    ensures Rounding(Same)
  {
  }

  lemma SameNeverAdds(e: real)
    requires e == 0.0
    ensures UpBy(Same, e)
  {
  }

  lemma PartsOnGrid(a: seq<seq<Point>>, b: seq<seq<Point>>, grid: seq<real>)
    requires OnGrid(a + b, grid)
    ensures OnGrid(a, grid) && OnGrid(b, grid)
  {
    forall i, k | 0 <= i < |a| && 0 <= k < |a[i]| ensures a[i][k].price in grid {
      assert (a + b)[i] == a[i];
    }
    forall i, k | 0 <= i < |b| && 0 <= k < |b[i]| ensures b[i][k].price in grid {
      assert (a + b)[|a| + i] == b[i];
    }
  }
}
