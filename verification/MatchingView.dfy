/**
  The matching view from the venues' samples to the clearing point: the grid is the one
  built from the schedules' own prices, so it reaches beyond every one of them.
 */
module MatchingView {
  import opened Clearing
  import opened ExecutableVolume
  import opened MarketCurves
  import opened RealFacts
  import opened Schedules

  // ------------------------------------------------------- cleaned venues

  ghost predicate Idempotent(round: real -> real) {
    forall x :: round(round(x)) == round(x)
  }

  /** Schedules cleaned from samples that run the side's way. */
  ghost predicate Cleaned(schedules: seq<seq<Point>>, raws: seq<seq<RawPoint>>, kind: Side,
                          roundPrice: real -> real, roundVolume: real -> real) {
    |schedules| == |raws|
    && forall i :: 0 <= i < |schedules| ==>
         ScheduleOf(schedules[i], raws[i], kind, roundPrice, roundVolume) && OneWay(raws[i], kind)
  }

  /** A cleaned schedule's prices are positive and rounded already. */
  lemma ScheduleIsGridReady(schedule: seq<Point>, raw: seq<RawPoint>, kind: Side,
                            roundPrice: real -> real, roundVolume: real -> real)
    requires ScheduleOf(schedule, raw, kind, roundPrice, roundVolume) && Idempotent(roundPrice)
    ensures forall k :: 0 <= k < |schedule| ==>
              schedule[k].price > 0.0 && roundPrice(schedule[k].price) == schedule[k].price
  {
    var points: seq<Point> :| Envelope(points, raw, roundPrice, roundVolume) && schedule == WithZeroVolume(points, kind);
    forall i | 0 <= i < |points| ensures points[i].price > 0.0 && roundPrice(points[i].price) == points[i].price {
      EnvelopePrice(points, raw, roundPrice, roundVolume, i);
    }
    hide Envelope;
    forall k | 0 <= k < |schedule| ensures exists i :: 0 <= i < |points| && schedule[k].price == points[i].price {
      ZeroVolumeKeepsPrices(points, kind, k);
    }
    hide WithZeroVolume;
  }

  lemma EnvelopePrice(points: seq<Point>, raw: seq<RawPoint>, roundPrice: real -> real, roundVolume: real -> real, i: nat)
    requires Envelope(points, raw, roundPrice, roundVolume) && Idempotent(roundPrice) && i < |points|
    ensures points[i].price > 0.0 && roundPrice(points[i].price) == points[i].price
  {
    hide StrictPrices, Above;
    assert ComesFrom(points[i], raw, roundPrice, roundVolume);
    var j :| 0 <= j < |raw| && Usable(raw[j], roundPrice, roundVolume)
             && Rounded(raw[j], roundPrice, roundVolume) == points[i];
  }

  lemma ZeroVolumeKeepsPrices(points: seq<Point>, kind: Side, k: nat)
    requires k < |WithZeroVolume(points, kind)|
    ensures exists i :: 0 <= i < |points| && WithZeroVolume(points, kind)[k].price == points[i].price
  {
    var s := WithZeroVolume(points, kind);
    var i := if |s| == |points| || kind.Bid? then k else k - 1;
    var at := if i < 0 then 0 else if i < |points| then i else |points| - 1;
    assert s[k].price == points[at].price;
  }

  lemma CleanedIsReady(schedules: seq<seq<Point>>, raws: seq<seq<RawPoint>>, kind: Side,
                       roundPrice: real -> real, roundVolume: real -> real)
    requires Cleaned(schedules, raws, kind, roundPrice, roundVolume)
    requires Rounding(roundPrice) && Rounding(roundVolume) && Idempotent(roundPrice)
    ensures GridReady(schedules, roundPrice)
    ensures forall i :: 0 <= i < |schedules| ==> WellShaped(schedules[i], kind)
  {
    hide ScheduleOf, OneWay, Rounding, Idempotent, WellShaped;
    forall i | 0 <= i < |schedules|
      ensures WellShaped(schedules[i], kind)
      ensures forall k :: 0 <= k < |schedules[i]| ==>
                schedules[i][k].price > 0.0 && roundPrice(schedules[i][k].price) == schedules[i][k].price
    {
      ScheduleIsWellShaped(schedules[i], raws[i], kind, roundPrice, roundVolume);
      ScheduleIsGridReady(schedules[i], raws[i], kind, roundPrice, roundVolume);
    }
  }

  // --------------------------------------------------------- its own grid

  /** The grid the view builds from the domain of all its schedules. */
  ghost predicate OwnGrid(grid: seq<real>, asks: seq<seq<Point>>, bids: seq<seq<Point>>, fallback: real,
                          count: nat, round: real -> real) {
    var (min, max) := DomainOf(AllPrices(bids + asks), fallback, round);
    Increasing(grid) && forall p :: p in grid <==> p in GridPrices(min, max, count, bids + asks, round)
  }

  lemma OwnGridHolds(grid: seq<real>, asks: seq<seq<Point>>, bids: seq<seq<Point>>, fallback: real,
                     count: nat, round: real -> real)
    requires OwnGrid(grid, asks, bids, fallback, count, round)
    requires Rounding(round) && GridReady(asks, round) && GridReady(bids, round)
    ensures OnGrid(asks, grid) && OnGrid(bids, grid)
  {
    BothReady(bids, asks, round);
    hide Rounding, GridReady, Increasing, AllPrices, GridPrices, DomainOf;
    var all: seq<seq<Point>> := bids + asks;
    forall s, k | 0 <= s < |all| && 0 <= k < |all[s]| ensures all[s][k].price in grid {
      GridHoldsAllPrices(all, fallback, count, round, s, k);
    }
    PartsOnGrid(bids, asks, grid);
  }

  lemma BothReady(a: seq<seq<Point>>, b: seq<seq<Point>>, round: real -> real)
    requires GridReady(a, round) && GridReady(b, round)
    ensures GridReady(a + b, round)
  {
    forall s, k | 0 <= s < |a + b| && 0 <= k < |(a + b)[s]|
      ensures (a + b)[s][k].price > 0.0 && round((a + b)[s][k].price) == (a + b)[s][k].price
    {
      if s < |a| { assert (a + b)[s] == a[s]; } else { assert (a + b)[s] == b[s - |a|]; }
    }
  }

  /** Within half a price unit below, at most. */
  ghost predicate NotFarBelow(round: real -> real) {
    forall x :: x - 0.5 < round(x)
  }

  /** The grid ends above every price of every schedule. */
  lemma GridEndsBeyond(grid: seq<real>, asks: seq<seq<Point>>, bids: seq<seq<Point>>, fallback: real,
                       count: nat, round: real -> real)
    requires OwnGrid(grid, asks, bids, fallback, count, round) && NotFarBelow(round)
    ensures grid != []
    ensures forall p :: p in AllPrices(bids + asks) ==> p < grid[|grid| - 1]
  {
    var prices := AllPrices(bids + asks);
    var (min, max) := DomainOf(prices, fallback, round);
    hide EvenPrices, SchedulePrices, AllPrices;
    assert round(max) in GridPrices(min, max, count, bids + asks, round);
    assert round(max) in grid;
    var i :| 0 <= i < |grid| && grid[i] == round(max);
    assert round(max) <= grid[|grid| - 1];
    if prices != [] {
      EndBeyond(prices, fallback, round);
    }
  }

  lemma EndBeyond(prices: seq<real>, fallback: real, round: real -> real)
    requires NotFarBelow(round) && prices != []
    ensures forall p :: p in prices ==> p < round(DomainOf(prices, fallback, round).1)
  {
    var low, high := Lowest(prices), Highest(prices);
    var padding := Larger(Larger(high - low, Larger(1.0, low * 0.0015)) * 0.08, 1.0);
    var max := round(high + padding);
    assert padding >= 1.0;
    assert high + padding - 0.5 < max && max - 0.5 < round(max);
  }

  /** Beyond its last price a bid schedule wants nothing. */
  lemma {:induction false} NoDemandBeyond(bids: seq<seq<Point>>, x: real)
    requires forall i, k :: 0 <= i < |bids| && 0 <= k < |bids[i]| ==> bids[i][k].price < x
    ensures Total(bids, x, Bid) == 0.0
  {
    if bids != [] {
      var init, last := bids[..|bids| - 1], bids[|bids| - 1];
      assert forall i :: 0 <= i < |init| ==> init[i] == bids[i];
      NoDemandBeyond(init, x);
      if last != [] { assert last[|last| - 1].price < x; }
    }
  }

  lemma NoDemandAtGridEnd(grid: seq<real>, asks: seq<seq<Point>>, bids: seq<seq<Point>>, fallback: real,
                          count: nat, round: real -> real)
    requires OwnGrid(grid, asks, bids, fallback, count, round) && NotFarBelow(round) && GridReady(bids, round)
    ensures grid != [] && Total(bids, grid[|grid| - 1], Bid) == 0.0
  {
    GridEndsBeyond(grid, asks, bids, fallback, count, round);
    hide OwnGrid, Total, AllPrices;
    forall i, k | 0 <= i < |bids| && 0 <= k < |bids[i]| ensures bids[i][k].price < grid[|grid| - 1] {
      assert (bids + asks)[i] == bids[i] && bids[i][k].price > 0.0;
      PriceListed(bids + asks, i, k);
    }
    NoDemandBeyond(bids, grid[|grid| - 1]);
  }

  /**
    Over its own grid the view reports a crossing if and only if the summed curves meet,
    with something to trade, at any price at all.
   */
  lemma CrossedIffCurvesMeetAnywhere(grid: seq<real>, asks: seq<seq<Point>>, bids: seq<seq<Point>>, fallback: real,
                                     count: nat, round: real -> real, roundSum: real -> real)
    requires AllEconomic(asks, Ask) && AllEconomic(bids, Bid) && GridReady(bids, round)
    requires OwnGrid(grid, asks, bids, fallback, count, round) && NotFarBelow(round)
    requires Rounding(roundSum) && roundSum(0.0) == 0.0
    ensures var supply, demand := Aggregated(asks, grid, Ask, roundSum), Aggregated(bids, grid, Bid, roundSum);
            Exact(supply, demand).crossed <==> exists x :: Meet(supply, demand, x)
  {
    var supply, demand := Aggregated(asks, grid, Ask, roundSum), Aggregated(bids, grid, Bid, roundSum);
    NoDemandAtGridEnd(grid, asks, bids, fallback, count, round);
    assert Increasing(grid);
    hide OwnGrid, AllEconomic, Rounding, Total, Intersection, Interpolated, Economic, GridReady;
    AggregatedIsEconomic(asks, grid, Ask, roundSum);
    AggregatedIsEconomic(bids, grid, Bid, roundSum);
    assert Market(supply, demand);
    CrossedIffCurvesMeet(supply, demand);
    assert demand[|demand| - 1].volume == 0.0;
    forall x | Meet(supply, demand, x) ensures supply[0].price <= x < supply[|supply| - 1].price {
      MeetsInside(supply, demand, x);
    }
  }

  lemma MeetsInside(supply: seq<Point>, demand: seq<Point>, x: real)
    requires Market(supply, demand) && supply != [] && demand[|demand| - 1].volume == 0.0
    requires Meet(supply, demand, x)
    ensures supply[0].price <= x < supply[|supply| - 1].price
  {
    hide Economic, Line, Segment;
    var last := |supply| - 1;
    AtGridPoint(demand, Bid, last);
  }

  /**
    The matching view from end to end: schedules cleaned from one-way samples, summed with
    rounding over their own grid.  Unless some bid has all its volume at one price, what
    clears is offered by both sides, up to the rounding of the sums.
   */
  lemma MatchingIsExecutable(asks: seq<seq<Point>>, askRaws: seq<seq<RawPoint>>,
                             bids: seq<seq<Point>>, bidRaws: seq<seq<RawPoint>>, grid: seq<real>,
                             fallback: real, count: nat, roundPrice: real -> real, roundVolume: real -> real,
                             roundSum: real -> real, e: real)
    requires Rounding(roundPrice) && Idempotent(roundPrice) && Rounding(roundVolume)
    requires Rounding(roundSum) && UpBy(roundSum, e)
    requires Cleaned(asks, askRaws, Ask, roundPrice, roundVolume)
    requires Cleaned(bids, bidRaws, Bid, roundPrice, roundVolume)
    requires forall i :: 0 <= i < |bids| ==> !SinglePriceBid(bids[i], Bid)
    requires OwnGrid(grid, asks, bids, fallback, count, roundPrice)
    ensures Executable(asks, bids, grid, roundSum, e)
  {
    CleanedIsReady(asks, askRaws, Ask, roundPrice, roundVolume);
    CleanedIsReady(bids, bidRaws, Bid, roundPrice, roundVolume);
    assert Increasing(grid);
    hide Cleaned, WellShaped, Rounding, Idempotent, OwnGrid, GridReady, OnGrid, UpBy, Executable, Increasing;
    OwnGridHolds(grid, asks, bids, fallback, count, roundPrice);
    assert AllSound(asks, Ask) && AllSound(bids, Bid);
    hide AllSound, SinglePriceBid;
    ClearingIsExecutable(asks, bids, grid, roundSum, e);
  }

  // ---------------------------------------------------- single-price bids

  /** All grid points before `b` want more than is offered, and `b` does not: that is where it clears. */
  lemma FirstCrossing(supply: seq<Point>, demand: seq<Point>, b: nat) returns (u: real)
    requires Market(supply, demand) && 1 <= b < |supply|
    requires forall j :: 0 <= j < b ==> Excess(supply, demand, j) < 0.0
    requires Excess(supply, demand, b) > 0.0
    ensures 0.0 < u < 1.0
    ensures var r := Exact(supply, demand);
            && r.crossed && r.volume > 0.0
            && r.price == Along(supply[b - 1].price, supply[b].price, u)
            && r.volume == Along(demand[b - 1].volume, demand[b].volume, u)
  {
    ScanRange(supply, demand, 1);
    assert Stops(supply, demand, b);
    assert forall j :: 1 <= j < b ==> Excess(supply, demand, j - 1) < 0.0 && !Stops(supply, demand, j);
    assert Scan(supply, demand, 1) == b;
    hide Scan;
    u := Weight(supply, demand, b);
    ZeroWeight(Excess(supply, demand, b - 1), Excess(supply, demand, b), u);
    var x := Along(supply[b - 1].price, supply[b].price, u);
    ChangeCrosses(supply, demand, b);
    ExcessBetween(supply, demand, b, u, x);
    hide Along, Weight, Economic, Interpolated;
  }

  lemma LeftEndAbove(points: seq<Point>, g: real, k: nat)
    requires WellShaped(points, Bid) && 1 <= k < |points|
    requires points[0].price <= g && points[k - 1].price <= g < points[k].price <= points[|points| - 1].price
    ensures Interpolated(points, g, Bid) >= Line(points[k - 1], points[k], g)
  {
    var p := points[k - 1];
    if g == p.price {
      LineAtLeft(p, points[k]);
      if g > points[0].price {
        var j := Inside(points, Bid, g);
        SegmentRange(points, g, 1);
        assert j <= k - 1 && points[j].price == g;
        LineAtRight(points[j - 1], points[j]);
        hide Line, Interpolated, Segment;
        assert Ordered(Bid, points[j].volume, p.volume);
      } else {
        hide Line, Segment;
        assert Ordered(Bid, points[0].volume, p.volume);
      }
    } else {
      WithinSegment(points, g, k);
    }
  }

  /** Strictly inside a segment the schedule is that segment's line. */
  lemma WithinSegment(points: seq<Point>, x: real, k: nat)
    requires WellShaped(points, Bid) && 1 <= k < |points|
    requires points[k - 1].price < x < points[k].price
    ensures Interpolated(points, x, Bid) == Line(points[k - 1], points[k], x)
  {
    assert points[0].price <= points[k - 1].price && points[k].price <= points[|points| - 1].price;
    var j := Inside(points, Bid, x);
    hide Line, Interpolated, Segment;
    SameSegmentOf(points, x, j, k);
  }

  ghost predicate NoPriceUpTo(points: seq<Point>, g: real, h: real) {
    forall k :: 0 <= k < |points| ==> !(g < points[k].price <= h)
  }

  predicate SinglePriceAt(points: seq<Point>, g: real) {
    SinglePriceBid(points, Bid) && points[0].price == g
  }

  /** Short of a bid's next price the straight line is never below it, and above it at a single price. */
  lemma BidChordAbove(points: seq<Point>, g: real, h: real, u: real)
    requires WellShaped(points, Bid) && g < h && 0.0 < u < 1.0 && NoPriceUpTo(points, g, h)
    ensures Interpolated(points, Along(g, h, u), Bid)
            <= Along(Interpolated(points, g, Bid), Interpolated(points, h, Bid), u)
    ensures SinglePriceAt(points, g) ==>
              Interpolated(points, Along(g, h, u), Bid)
              < Along(Interpolated(points, g, Bid), Interpolated(points, h, Bid), u)
  {
    var x, last := Along(g, h, u), |points| - 1;
    var a, b := Interpolated(points, g, Bid), Interpolated(points, h, Bid);
    AlongBetween(g, h, u);
    InterpolatedNonNegative(points, Bid, g);
    InterpolatedNonNegative(points, Bid, h);
    if points == [] {
      AlongConstant(a, b, u);
    } else if points[0].price <= g && g < points[last].price {
      assert points[last].price > h;
      var k := Inside(points, Bid, x);
      assert points[k - 1].price <= g && h < points[k].price;
      LeftEndAbove(points, g, k);
      WithinSegment(points, h, k);
      LineAffine(points[k - 1], points[k], g, h, u);
      hide Line, Along, Interpolated;
      AlongMonotone(Line(points[k - 1], points[k], g), Line(points[k - 1], points[k], h), a, b, u);
    } else if points[0].price > g {
      assert points[0].price > h && points[0].price <= points[last].price;
      hide Along, Line, Segment;
      AlongConstant(a, b, u);
    } else {
      hide Along, Line, Segment;
      AlongSigns(a, b, u);
    }
  }

  lemma {:induction false} TotalChordAbove(bids: seq<seq<Point>>, g: real, h: real, u: real)
    requires forall i :: 0 <= i < |bids| ==> WellShaped(bids[i], Bid) && NoPriceUpTo(bids[i], g, h)
    requires g < h && 0.0 < u < 1.0
    ensures Total(bids, Along(g, h, u), Bid) <= Along(Total(bids, g, Bid), Total(bids, h, Bid), u)
    ensures (exists i :: 0 <= i < |bids| && SinglePriceAt(bids[i], g)) ==>
              Total(bids, Along(g, h, u), Bid) < Along(Total(bids, g, Bid), Total(bids, h, Bid), u)
  {
    hide WellShaped, NoPriceUpTo, SinglePriceAt, Interpolated, Along;
    if bids == [] {
      AlongConstant(0.0, 0.0, u);
    } else {
      var init, last := bids[..|bids| - 1], bids[|bids| - 1];
      assert forall i :: 0 <= i < |init| ==> init[i] == bids[i];
      TotalChordAbove(init, g, h, u);
      BidChordAbove(last, g, h, u);
      AlongAdds(Total(init, g, Bid), Total(init, h, Bid),
                Interpolated(last, g, Bid), Interpolated(last, h, Bid), u);
    }
  }

  lemma {:induction false} TotalCovers(bids: seq<seq<Point>>, x: real, i: nat)
    requires i < |bids| && forall j :: 0 <= j < |bids| ==> WellShaped(bids[j], Bid)
    ensures Total(bids, x, Bid) >= Interpolated(bids[i], x, Bid)
  {
    var init, last := bids[..|bids| - 1], bids[|bids| - 1];
    InterpolatedNonNegative(last, Bid, x);
    assert AllEconomic(init, Bid);
    TotalMonotone(init, Bid, x, x);
    hide WellShaped, Interpolated;
    if i < |init| { TotalCovers(init, x, i); }
  }

  // ------------------------------------------- a grid for any price list

  lemma {:induction false} GridFor(prices: seq<real>) returns (grid: seq<real>)
    ensures Increasing(grid) && forall p :: p in grid <==> p in prices
  {
    if prices == [] {
      grid := [];
    } else {
      var init, x := prices[..|prices| - 1], prices[|prices| - 1];
      var g := GridFor(init);
      assert forall p :: p in prices <==> p in init || p == x;
      if x in g { grid := g; } else { grid := Placed(g, x); }
    }
  }

  lemma Placed(g: seq<real>, x: real) returns (grid: seq<real>)
    requires Increasing(g) && x !in g
    ensures Increasing(grid) && forall p :: p in grid <==> p in g || p == x
  {
    var k := 0;
    while k < |g| && g[k] < x
      invariant 0 <= k <= |g| && forall j :: 0 <= j < k ==> g[j] < x
    {
      k := k + 1;
    }
    if k < |g| { assert g[k] in g; }
    grid := g[..k] + [x] + g[k..];
    forall p ensures p in grid <==> p in g || p == x {
      assert g == g[..k] + g[k..];
    }
  }

  function PricesOf(points: seq<Point>): (r: seq<real>)
    ensures |r| == |points| && forall k :: 0 <= k < |r| ==> r[k] == points[k].price
  {
    seq(|points|, k requires 0 <= k < |points| => points[k].price)
  }

  function EveryPrice(schedules: seq<seq<Point>>): seq<real> {
    if schedules == [] then [] else EveryPrice(schedules[..|schedules| - 1]) + PricesOf(schedules[|schedules| - 1])
  }

  lemma {:induction false} EveryPriceHas(schedules: seq<seq<Point>>, i: nat, k: nat)
    requires i < |schedules| && k < |schedules[i]|
    ensures schedules[i][k].price in EveryPrice(schedules)
  {
    if i < |schedules| - 1 {
      EveryPriceHas(schedules[..|schedules| - 1], i, k);
    } else {
      assert PricesOf(schedules[i])[k] in PricesOf(schedules[i]);
    }
  }

  /** A price above `p` with nothing of the list up to it. */
  lemma {:induction false} JustAbove(prices: seq<real>, p: real) returns (h: real)
    ensures p < h && forall x :: x in prices ==> !(p < x <= h)
  {
    if prices == [] {
      h := p + 1.0;
    } else {
      var init, last := prices[..|prices| - 1], prices[|prices| - 1];
      h := JustAbove(init, p);
      if p < last <= h { h := (p + last) / 2.0; }
      assert forall x :: x in prices <==> x in init || x == last;
    }
  }

  lemma NextOnGrid(grid: seq<real>, p: real, h: real) returns (b: nat)
    requires Increasing(grid) && p in grid && h in grid && p < h
    requires forall x :: x in grid ==> !(p < x < h)
    ensures 1 <= b < |grid| && grid[b - 1] == p && grid[b] == h
  {
    var a :| 0 <= a < |grid| && grid[a] == p;
    var c :| 0 <= c < |grid| && grid[c] == h;
    assert a < c;
    assert grid[a + 1] in grid;
    b := a + 1;
  }

  // --------------------------------------------------- the failing market

  /** An ask that starts from nothing at `p` and offers `w` at `h`. */
  function RisingAsk(p: real, h: real, w: real): seq<Point> {
    [Point(p, 0.0), Point(h, w)]
  }

  lemma RisingAskSound(p: real, h: real, w: real)
    requires p < h && w >= 0.0
    ensures AllSound([RisingAsk(p, h, w)], Ask)
    ensures forall x :: x <= p ==> Total([RisingAsk(p, h, w)], x, Ask) == 0.0
    ensures forall x :: p < x ==> Total([RisingAsk(p, h, w)], x, Ask) >= 0.0
    ensures Total([RisingAsk(p, h, w)], h, Ask) == w
  {
    var ask := RisingAsk(p, h, w);
    assert WellShaped(ask, Ask);
    forall x ensures Total([ask], x, Ask) == Interpolated(ask, x, Ask) && Interpolated(ask, x, Ask) >= 0.0 {
      TotalOfOne(ask, x, Ask);
      InterpolatedNonNegative(ask, Ask, x);
    }
    hide Total, Line, Segment;
  }

  lemma TotalOfOne(points: seq<Point>, x: real, kind: Side)
    ensures Total([points], x, kind) == Interpolated(points, x, kind)
  {
    assert [points][..0] == [];
  }

  /** Beside a single-price bid some ask, on some grid of all prices, clears more than is bid. */
  lemma SinglePriceBidFails(bids: seq<seq<Point>>, i: nat) returns (asks: seq<seq<Point>>, grid: seq<real>)
    requires forall j :: 0 <= j < |bids| ==> WellShaped(bids[j], Bid)
    requires i < |bids| && SinglePriceBid(bids[i], Bid)
    ensures AllSound(asks, Ask) && OnGrid(asks, grid) && OnGrid(bids, grid) && Increasing(grid)
    ensures !Executable(asks, bids, grid, Same, 0.0)
  {
    var p := bids[i][0].price;
    var prices := EveryPrice(bids);
    var h := JustAbove(prices, p);
    grid := GridFor(prices + [h]);
    EveryPriceHas(bids, i, 0);
    var b := NextOnGrid(grid, p, h);
    BidsShort(bids, prices, grid, p, h);
    assert OnGrid(bids, grid);
    hide OnGrid, NoPriceUpTo;
    PositiveAt(bids, i, p);
    hide WellShaped, SinglePriceBid;
    BookIsEconomic(bids);
    hide EveryPrice, PricesOf;
    TotalMonotone(bids, Bid, p, h);
    TotalMonotone(bids, Bid, h, h);
    var w := Total(bids, h, Bid) + 1.0;
    asks := [RisingAsk(p, h, w)];
    RisingAskSound(p, h, w);
    AskOnGrid(p, h, w, grid);
    SteepAskOverclears(bids, asks, grid, b, i);
  }

  lemma BidsShort(bids: seq<seq<Point>>, prices: seq<real>, grid: seq<real>, p: real, h: real)
    requires prices == EveryPrice(bids) && (forall x :: x in grid <==> x in prices + [h])
    requires forall x :: x in prices ==> !(p < x <= h)
    ensures OnGrid(bids, grid) && forall j :: 0 <= j < |bids| ==> NoPriceUpTo(bids[j], p, h)
  {
    forall j, k | 0 <= j < |bids| && 0 <= k < |bids[j]|
      ensures bids[j][k].price in grid && !(p < bids[j][k].price <= h)
    {
      EveryPriceHas(bids, j, k);
    }
  }

  lemma PositiveAt(bids: seq<seq<Point>>, i: nat, p: real)
    requires forall j :: 0 <= j < |bids| ==> WellShaped(bids[j], Bid)
    requires i < |bids| && SinglePriceBid(bids[i], Bid) && p == bids[i][0].price
    ensures Total(bids, p, Bid) > 0.0 && SinglePriceAt(bids[i], p)
  {
    TotalCovers(bids, p, i);
    hide Total, Line, Segment, WellShaped;
  }

  lemma BookIsEconomic(bids: seq<seq<Point>>)
    requires forall j :: 0 <= j < |bids| ==> WellShaped(bids[j], Bid)
    ensures AllEconomic(bids, Bid)
  {
    hide Economic, Stepped, StartsEmpty;
  }

  lemma AskOnGrid(p: real, h: real, w: real, grid: seq<real>)
    requires p in grid && h in grid
    ensures OnGrid([RisingAsk(p, h, w)], grid)
  {
  }

  lemma SteepAskOverclears(bids: seq<seq<Point>>, asks: seq<seq<Point>>, grid: seq<real>, b: nat, i: nat)
    requires Increasing(grid) && 1 <= b < |grid| && i < |bids| && SinglePriceAt(bids[i], grid[b - 1])
    requires AllEconomic(bids, Bid) && AllSound(asks, Ask)
    requires forall j :: 0 <= j < |bids| ==> WellShaped(bids[j], Bid) && NoPriceUpTo(bids[j], grid[b - 1], grid[b])
    requires Total(bids, grid[b - 1], Bid) > 0.0
    requires forall x :: x <= grid[b - 1] ==> Total(asks, x, Ask) == 0.0
    requires Total(asks, grid[b], Ask) > Total(bids, grid[b], Bid)
    ensures !Executable(asks, bids, grid, Same, 0.0)
  {
    var supply, demand := Aggregated(asks, grid, Ask, Same), Aggregated(bids, grid, Bid, Same);
    SoundIsEconomic(asks, Ask);
    SameIsRounding();
    hide AllSound, AllEconomic, WellShaped, NoPriceUpTo, SinglePriceAt, Total, Economic, Interpolated;
    AggregatedIsEconomic(asks, grid, Ask, Same);
    AggregatedIsEconomic(bids, grid, Bid, Same);
    forall j | 0 <= j < b ensures Excess(supply, demand, j) < 0.0 {
      assert grid[j] <= grid[b - 1];
      TotalMonotone(bids, Bid, grid[j], grid[b - 1]);
    }
    var u := FirstCrossing(supply, demand, b);
    TotalChordAbove(bids, grid[b - 1], grid[b], u);
    hide Intersection, Along;
  }

  /**
    A book of bids is safe from over-clearing beside every sound ask list, on every grid
    that holds all prices, if and only if none of its bids is a single-price bid.
   */
  lemma BookIsSafeIff(bids: seq<seq<Point>>)
    requires forall i :: 0 <= i < |bids| ==> WellShaped(bids[i], Bid)
    ensures (forall asks, grid :: AllSound(asks, Ask) && OnGrid(asks, grid) && OnGrid(bids, grid) && Increasing(grid)
                                  ==> Executable(asks, bids, grid, Same, 0.0))
            <==> (forall i :: 0 <= i < |bids| ==> !SinglePriceBid(bids[i], Bid))
  {
    hide WellShaped, SinglePriceBid, OnGrid, Executable, Increasing;
    if i :| 0 <= i < |bids| && SinglePriceBid(bids[i], Bid) {
      var asks, grid := SinglePriceBidFails(bids, i);
    } else {
      assert AllSound(bids, Bid);
      hide AllSound;
      SameIsRounding();
      SameNeverAdds(0.0);
      forall asks, grid | AllSound(asks, Ask) && OnGrid(asks, grid) && OnGrid(bids, grid) && Increasing(grid)
        ensures Executable(asks, bids, grid, Same, 0.0)
      {
        ClearingIsExecutable(asks, bids, grid, Same, 0.0);
      }
    }
  }

  /**
    It happens on the view's own grid: a bid of any volume at a single price beside an ask
    rising from that price always clears where nothing is bid.
   */
  lemma SinglePriceBidMarket(p: real, q: real, v: real, w: real, grid: seq<real>, fallback: real, count: nat,
                             round: real -> real)
    requires 0.0 < p < q && v > 0.0 && w > 0.0 && Rounding(round) && round(p) == p && round(q) == q
    requires OwnGrid(grid, [RisingAsk(p, q, w)], [[Point(p, v), Point(p, 0.0)]], fallback, count, round)
    ensures var asks, bids := [RisingAsk(p, q, w)], [[Point(p, v), Point(p, 0.0)]];
            var r := Exact(Aggregated(asks, grid, Ask, Same), Aggregated(bids, grid, Bid, Same));
            r.crossed && r.volume > 0.0 && Total(bids, r.price, Bid) == 0.0
  {
    var asks, bids := [RisingAsk(p, q, w)], [[Point(p, v), Point(p, 0.0)]];
    OwnGridHolds(grid, asks, bids, fallback, count, round);
    assert asks[0][0].price in grid && asks[0][1].price in grid && Increasing(grid);
    hide OwnGrid, OnGrid, GridReady, Rounding, Aggregated, Intersection, Total;
    var a :| 0 <= a < |grid| && grid[a] == p;
    var c :| 0 <= c < |grid| && grid[c] == q;
    assert a < c;
    hide Increasing;
    ClearsAboveSinglePrice(p, q, v, w, grid, a + 1);
  }

  lemma ClearsAboveSinglePrice(p: real, q: real, v: real, w: real, grid: seq<real>, b: nat)
    requires p < q && v > 0.0 && w > 0.0 && Increasing(grid) && 1 <= b < |grid| && grid[b - 1] == p
    ensures var asks, bids := [RisingAsk(p, q, w)], [[Point(p, v), Point(p, 0.0)]];
            var r := Exact(Aggregated(asks, grid, Ask, Same), Aggregated(bids, grid, Bid, Same));
            r.crossed && r.volume > 0.0 && Total(bids, r.price, Bid) == 0.0
  {
    var asks, bids := [RisingAsk(p, q, w)], [[Point(p, v), Point(p, 0.0)]];
    GridBefore(grid, b);
    RisingAskSound(p, q, w);
    SinglePriceReads(p, v);
    AskPositive(p, q, w, grid[b]);
    SoundIsEconomic(asks, Ask);
    SinglePriceIsWellShaped(p, v);
    BookIsEconomic(bids);
    SameIsRounding();
    hide AllSound, AllEconomic, WellShaped, Total, Economic, Interpolated, RisingAsk;
    AggregatedIsEconomic(asks, grid, Ask, Same);
    AggregatedIsEconomic(bids, grid, Bid, Same);
    var u := FirstCrossing(Aggregated(asks, grid, Ask, Same), Aggregated(bids, grid, Bid, Same), b);
    AlongBetween(p, grid[b], u);
    hide Intersection, Along, Increasing;
  }

  lemma SinglePriceIsWellShaped(p: real, v: real)
    requires v > 0.0
    ensures WellShaped([Point(p, v), Point(p, 0.0)], Bid)
  {
  }

  lemma GridBefore(grid: seq<real>, b: nat)
    requires Increasing(grid) && 1 <= b < |grid|
    ensures grid[b - 1] < grid[b] && forall j :: 0 <= j < b ==> grid[j] <= grid[b - 1]
  {
  }

  lemma SinglePriceReads(p: real, v: real)
    ensures forall x :: Total([[Point(p, v), Point(p, 0.0)]], x, Bid) == if x <= p then v else 0.0
  {
    var bid := [Point(p, v), Point(p, 0.0)];
    forall x ensures Total([bid], x, Bid) == if x <= p then v else 0.0 { TotalOfOne(bid, x, Bid); }
  }

  lemma AskPositive(p: real, q: real, w: real, x: real)
    requires p < q && w > 0.0 && p < x
    ensures Total([RisingAsk(p, q, w)], x, Ask) > 0.0
  {
    var ask := RisingAsk(p, q, w);
    TotalOfOne(ask, x, Ask);
    hide Total;
    if x < q {
      var u := FractionOf(p, q, x);
      CurveBetween(ask, Ask, 1, u, x);
      hide Interpolated, Along;
      AlongSigns(0.0, w, u);
    }
  }

  // ------------------------------------------------------ the real rounding

  /** `toFixed(3)`: the nearest thousandth, halves away from zero. */
  function ToThousandths(x: real): real {
    if x < 0.0 then -Thousandths(-x) else Thousandths(x)
  }

  function Thousandths(x: real): real {
    (x * 1000.0 + 0.5).Floor as real / 1000.0
  }

  lemma ThousandthsNear(x: real)
    ensures x - 0.0005 < Thousandths(x) <= x + 0.0005
  {
  }

  lemma FloorsOrdered(a: real, b: real)
    requires a <= b
    ensures a.Floor <= b.Floor
  {
  }

  lemma ThousandthsOrdered(x: real, y: real)
    requires x <= y
    ensures Thousandths(x) <= Thousandths(y)
  {
    FloorsOrdered(x * 1000.0 + 0.5, y * 1000.0 + 0.5);
  }

  lemma WholeFloor(k: int)
    ensures (k as real + 0.5).Floor == k
  {
  }

  lemma ThousandthsOnce(x: real)
    ensures Thousandths(Thousandths(x)) == Thousandths(x)
    ensures x >= 0.0 ==> Thousandths(x) >= 0.0
  {
    var k := (x * 1000.0 + 0.5).Floor;
    WholeFloor(k);
    assert Thousandths(x) * 1000.0 == k as real;
  }

  lemma ToThousandthsOrdered(x: real, y: real)
    requires x <= y
    ensures ToThousandths(x) <= ToThousandths(y)
  {
    hide Thousandths;
    if x < 0.0 && y < 0.0 {
      ThousandthsOrdered(-y, -x);
    } else if x < 0.0 {
      ThousandthsOnce(-x);
      ThousandthsOnce(y);
    } else {
      ThousandthsOrdered(x, y);
    }
  }

  lemma ToThousandthsOnce(x: real)
    ensures ToThousandths(ToThousandths(x)) == ToThousandths(x)
  {
    hide Thousandths;
    if x < 0.0 {
      ThousandthsOnce(-x);
    } else {
      ThousandthsOnce(x);
    }
  }

  /** Rounding to thousandths is everything the theorems above ask of a rounding. */
  lemma ThousandthsMeetAll(e: real)
    requires e == 0.0005
    ensures Rounding(ToThousandths) && Idempotent(ToThousandths) && NotFarBelow(ToThousandths)
    ensures UpBy(ToThousandths, e) && ToThousandths(0.0) == 0.0
  {
    forall x, y | x <= y ensures ToThousandths(x) <= ToThousandths(y) { ToThousandthsOrdered(x, y); }
    forall x | x >= 0.0 ensures ToThousandths(x) >= 0.0 { ThousandthsOnce(x); }
    forall x ensures ToThousandths(ToThousandths(x)) == ToThousandths(x) { ToThousandthsOnce(x); }
    forall x ensures x - 0.5 < ToThousandths(x) <= x + e {
      ThousandthsNear(x);
      ThousandthsNear(-x);
    }
  }
}
