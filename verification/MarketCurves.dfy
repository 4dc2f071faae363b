/**
  Reading a schedule at a price, the common price grid, and the sum over venues.
 */
module MarketCurves {
  import opened Ordering
  import opened RealFacts
  import opened Schedules
  import opened Wrappers

  /** The first point from `i` on that is not below `price`. */
  function Segment(points: seq<Point>, price: real, i: nat): (k: nat)
    ensures k >= i
    decreases |points| - i
  {
    if i < |points| && price > points[i].price then Segment(points, price, i + 1) else i
  }

  /** The straight line between two points; the right end on a vertical step. */
  function Line(left: Point, right: Point, price: real): real {
    if right.price - left.price <= 0.0 then right.volume
    else left.volume + Times(right.volume - left.volume, (price - left.price) / (right.price - left.price))
  }

  function Interpolated(points: seq<Point>, price: real, kind: Side): real {
    var last := |points| - 1;
    if points == [] then 0.0
    else if kind.Ask? && price < points[0].price then 0.0
    else if kind.Bid? && price > points[last].price then 0.0
    else if price <= points[0].price then points[0].volume
    else if price >= points[last].price then points[last].volume
    else
      var i := Segment(points, price, 1);
      if i < |points| then Line(points[i - 1], points[i], price) else points[last].volume
  }

  lemma {:induction false} SegmentRange(points: seq<Point>, price: real, i: nat)
    requires i <= |points|
    ensures Segment(points, price, i) <= |points|
    ensures Segment(points, price, i) > i ==> price > points[Segment(points, price, i) - 1].price
    ensures Segment(points, price, i) < |points| ==> price <= points[Segment(points, price, i)].price
    ensures forall j :: i <= j < Segment(points, price, i) ==> price > points[j].price
    decreases |points| - i
  {
    if i < |points| && price > points[i].price { SegmentRange(points, price, i + 1); }
  }

  method InterpolateScheduleQty(points: seq<Point>, price: real, kind: Side) returns (volume: real)
    ensures volume == Interpolated(points, price, kind)
  {
    hide Line;
    if |points| == 0 { return 0.0; }
    var last := |points| - 1;
    if kind.Ask? && price < points[0].price { return 0.0; }
    if kind.Bid? && price > points[last].price { return 0.0; }
    if price <= points[0].price { return points[0].volume; }
    if price >= points[last].price { return points[last].volume; }
    var i := 1;
    while i < |points|
      invariant 1 <= i <= |points|
      invariant Segment(points, price, 1) == Segment(points, price, i)
    {
      if price <= points[i].price {
        return Line(points[i - 1], points[i], price);
      }
      i := i + 1;
    }
    return points[last].volume;
  }

  // ------------------------------------------------------ one schedule

  lemma LineOrdered(left: Point, right: Point, x: real, y: real)
    requires left.price < right.price && left.price <= x <= y <= right.price
    ensures left.volume <= right.volume ==>
              left.volume <= Line(left, right, x) <= Line(left, right, y) <= right.volume
    ensures left.volume >= right.volume ==>
              left.volume >= Line(left, right, x) >= Line(left, right, y) >= right.volume
  {
    var rise, span := right.volume - left.volume, right.price - left.price;
    var u, v := (x - left.price) / span, (y - left.price) / span;
    QuotientOrdered(x - left.price, y - left.price, span);
    hide Times;
    Scaled(rise, u, v);
  }

  lemma Scaled(w: real, u: real, v: real)
    requires 0.0 <= u <= v <= 1.0
    ensures w >= 0.0 ==> 0.0 <= Times(w, u) <= Times(w, v) <= w
    ensures w <= 0.0 ==> 0.0 >= Times(w, u) >= Times(w, v) >= w
  {
    hide Times;
    if w >= 0.0 { ScaledUp(w, u, v); }
    if w <= 0.0 {
      ScaledUp(-w, u, v);
      TimesNegates(w, u);
      TimesNegates(w, v);
    }
  }

  lemma ScaledUp(w: real, u: real, v: real)
    requires 0.0 <= u <= v <= 1.0 && w >= 0.0
    ensures 0.0 <= Times(w, u) <= Times(w, v) <= w
  {
    ProductPositive(w, u);
    ScaleLe(u, v, w);
    ScaleLe(v, 1.0, w);
  }

  lemma TimesNegates(w: real, u: real)
    ensures Times(-w, u) == -Times(w, u)
  {
  }

  /** Strictly between its ends, a schedule is read on one segment that is not vertical. */
  lemma Inside(points: seq<Point>, kind: Side, x: real) returns (i: nat)
    requires points != [] && points[0].price < x < points[|points| - 1].price
    ensures 1 <= i < |points| && i == Segment(points, x, 1)
    ensures points[i - 1].price < x <= points[i].price
    ensures Interpolated(points, x, kind) == Line(points[i - 1], points[i], x)
  {
    hide Line;
    i := Segment(points, x, 1);
    SegmentRange(points, x, 1);
  }

  lemma InterpolatedInRange(points: seq<Point>, kind: Side, x: real)
    requires Economic(points, kind) && points != []
    ensures Interpolated(points, x, kind) >= 0.0
    ensures kind.Ask? ==> Interpolated(points, x, kind) <= points[|points| - 1].volume
    ensures kind.Bid? ==> Interpolated(points, x, kind) <= points[0].volume
    ensures kind.Ask? && x >= points[0].price ==> points[0].volume <= Interpolated(points, x, kind)
    ensures kind.Bid? && x <= points[|points| - 1].price ==> points[|points| - 1].volume <= Interpolated(points, x, kind)
  {
    hide Line, Segment;
    var last := |points| - 1;
    assert points[0].volume >= 0.0 && points[last].volume >= 0.0;
    assert Ordered(kind, points[0].volume, points[last].volume);
    if points[0].price < x < points[last].price {
      var i := Inside(points, kind, x);
      assert Ordered(kind, points[0].volume, points[i - 1].volume);
      assert Ordered(kind, points[i - 1].volume, points[i].volume);
      assert Ordered(kind, points[i].volume, points[last].volume);
      LineOrdered(points[i - 1], points[i], x, x);
    }
  }

  lemma InsideOrdered(points: seq<Point>, kind: Side, x: real, y: real)
    requires Economic(points, kind) && points != []
    requires points[0].price < x <= y < points[|points| - 1].price
    ensures Ordered(kind, Interpolated(points, x, kind), Interpolated(points, y, kind))
  {
    hide Line, Interpolated;
    var i := Inside(points, kind, x);
    var j := Inside(points, kind, y);
    SegmentRange(points, x, 1);
    SegmentRange(points, y, 1);
    assert i <= j;
    hide Segment;
    assert Ordered(kind, points[i - 1].volume, points[i].volume);
    assert Ordered(kind, points[j - 1].volume, points[j].volume);
    if i == j {
      LineOrdered(points[i - 1], points[i], x, y);
    } else {
      LineOrdered(points[i - 1], points[i], x, x);
      LineOrdered(points[j - 1], points[j], y, y);
      assert Ordered(kind, points[i].volume, points[j - 1].volume);
    }
  }

  /**
    Read at any two prices whatever, vertical steps and the regions beyond both ends
    included, an ask schedule offers no less at the higher price and a bid schedule no more.
   */
  lemma InterpolatedMonotone(points: seq<Point>, kind: Side, x: real, y: real)
    requires Economic(points, kind) && x <= y
    ensures Ordered(kind, Interpolated(points, x, kind), Interpolated(points, y, kind))
  {
    if points != [] {
      InterpolatedInRange(points, kind, x);
      InterpolatedInRange(points, kind, y);
      var last := |points| - 1;
      if points[0].price < x && y < points[last].price {
        InsideOrdered(points, kind, x, y);
      } else {
        hide Line, Segment, Economic;
      }
    }
  }

  /**
    What is read at a price, in numbers: nothing below an ask's first price or above a bid's
    last; the end volumes at and beyond the other ends; and between two neighbouring points
    the proportional volume.
   */
  lemma ReadingMeaning(points: seq<Point>, kind: Side, x: real, i: nat)
    requires StrictPrices(points) && i < |points|
    ensures kind == Ask && x < points[0].price ==> Interpolated(points, x, kind) == 0.0
    ensures kind == Bid && x > points[|points| - 1].price ==> Interpolated(points, x, kind) == 0.0
    ensures kind == Bid && x <= points[0].price ==> Interpolated(points, x, kind) == points[0].volume
    ensures kind == Ask && x >= points[|points| - 1].price ==>
              Interpolated(points, x, kind) == points[|points| - 1].volume
    ensures i > 0 && points[i - 1].price < x < points[i].price ==>
              (Interpolated(points, x, kind) - points[i - 1].volume) * (points[i].price - points[i - 1].price)
              == (points[i].volume - points[i - 1].volume) * (x - points[i - 1].price)
  {
    var last := |points| - 1;
    if i > 0 && points[i - 1].price < x < points[i].price {
      assert points[0].price <= points[i - 1].price && points[i].price <= points[last].price;
      var k := Inside(points, kind, x);
      hide Interpolated, Segment;
      SegmentOnce(points, x, i, k);
      LineMeaning(points[i - 1], points[i], x);
    } else {
      hide Line, Segment;
      assert points[0].price <= points[last].price;
    }
  }

  lemma SegmentOnce(points: seq<Point>, x: real, i: nat, k: nat)
    requires StrictPrices(points) && 1 <= i < |points| && 1 <= k < |points|
    requires points[i - 1].price < x < points[i].price && points[k - 1].price < x <= points[k].price
    ensures i == k
  {
  }

  lemma LineMeaning(left: Point, right: Point, x: real)
    requires left.price < right.price
    ensures (Line(left, right, x) - left.volume) * (right.price - left.price)
         == (right.volume - left.volume) * (x - left.price)
  {
    var rise, span, w := right.volume - left.volume, right.price - left.price, x - left.price;
    DivMul(w, span);
    assert Times(rise, w / span) * span == rise * (w / span * span);
  }

  // ------------------------------------------------------ sum over venues

  function Total(schedules: seq<seq<Point>>, price: real, kind: Side): real {
    if schedules == [] then 0.0
    else Total(schedules[..|schedules| - 1], price, kind) + Interpolated(schedules[|schedules| - 1], price, kind)
  }

  /** The total is a sum: of one schedule its reading, of two lists both totals. */
  lemma {:induction false} TotalAdds(a: seq<seq<Point>>, b: seq<seq<Point>>, price: real, kind: Side)
    ensures Total(a + b, price, kind) == Total(a, price, kind) + Total(b, price, kind)
    ensures |b| == 1 ==> Total(b, price, kind) == Interpolated(b[0], price, kind)
  {
    hide Interpolated;
    if b == [] {
      assert a + b == a;
    } else {
      var init := b[..|b| - 1];
      TotalAdds(a, init, price, kind);
      assert (a + b)[..|a + b| - 1] == a + init;
      assert |b| == 1 ==> init == [];
    }
  }

  ghost predicate AllEconomic(schedules: seq<seq<Point>>, kind: Side) {
    forall i :: 0 <= i < |schedules| ==> Economic(schedules[i], kind)
  }

  /** The market's total volume keeps the shape of its schedules, at every pair of prices. */
  lemma {:induction false} TotalMonotone(schedules: seq<seq<Point>>, kind: Side, x: real, y: real)
    requires AllEconomic(schedules, kind) && x <= y
    ensures Ordered(kind, Total(schedules, x, kind), Total(schedules, y, kind))
    ensures Total(schedules, x, kind) >= 0.0
  {
    hide Economic, Interpolated;
    if schedules != [] {
      var last := schedules[|schedules| - 1];
      TotalMonotone(schedules[..|schedules| - 1], kind, x, y);
      InterpolatedMonotone(last, kind, x, y);
      InterpolatedNonNegative(last, kind, x);
    }
  }

  lemma InterpolatedNonNegative(points: seq<Point>, kind: Side, x: real)
    requires Economic(points, kind)
    ensures Interpolated(points, x, kind) >= 0.0
  {
    if points != [] { InterpolatedInRange(points, kind, x); }
  }

  function Aggregated(schedules: seq<seq<Point>>, grid: seq<real>, kind: Side, round: real -> real): (r: seq<Point>)
    ensures |r| == |grid|
    ensures forall i :: 0 <= i < |r| ==> r[i] == Point(grid[i], round(Total(schedules, grid[i], kind)))
  {
    seq(|grid|, i requires 0 <= i < |grid| => Point(grid[i], round(Total(schedules, grid[i], kind))))
  }

  method BuildAggregatedMarketCurve(schedules: seq<seq<Point>>, grid: seq<real>, kind: Side, round: real -> real)
    returns (curve: seq<Point>)
    ensures curve == Aggregated(schedules, grid, kind, round)
  {
    hide Interpolated;
    curve := [];
    for i := 0 to |grid|
      invariant |curve| == i
      invariant forall j :: 0 <= j < i ==> curve[j] == Point(grid[j], round(Total(schedules, grid[j], kind)))
    {
      var sum := 0.0;
      for k := 0 to |schedules|
        invariant sum == Total(schedules[..k], grid[i], kind)
      {
        assert schedules[..k + 1][..k] == schedules[..k];
        var volume := InterpolateScheduleQty(schedules[k], grid[i], kind);
        sum := sum + volume;
      }
      assert schedules[..|schedules|] == schedules;
      curve := curve + [Point(grid[i], round(sum))];
    }
  }

  /** Summing economic schedules on an increasing grid gives an economic curve. */
  lemma AggregatedIsEconomic(schedules: seq<seq<Point>>, grid: seq<real>, kind: Side, round: real -> real)
    requires AllEconomic(schedules, kind) && Increasing(grid) && Rounding(round)
    ensures Economic(Aggregated(schedules, grid, kind, round), kind)
    ensures StrictPrices(Aggregated(schedules, grid, kind, round))
  {
    hide AllEconomic, Total;
    var curve := Aggregated(schedules, grid, kind, round);
    forall i, j | 0 <= i <= j < |grid|
      ensures grid[i] <= grid[j] && Ordered(kind, curve[i].volume, curve[j].volume) && curve[i].volume >= 0.0
    {
      TotalMonotone(schedules, kind, grid[i], grid[j]);
    }
  }

  // ---------------------------------------------------------- price grid

  ghost predicate Increasing(grid: seq<real>) {
    forall i, j :: 0 <= i < j < |grid| ==> grid[i] < grid[j]
  }

  predicate AtMost(a: real, b: real) { a <= b }

  lemma AtMostIsTotal()
    ensures TotalPreorder(AtMost)
  {
  }

  /** A price of the evenly spaced part of the grid. */
  function EvenPrice(min: real, max: real, count: nat, index: nat): real
    requires count >= 2
  {
    var span := if max - min > 0.001 then max - min else 0.001;
    min + Times(span, index as real / (count - 1) as real)
  }

  /** The even part runs from the lower end to the upper, at least a thousandth on, in equal steps. */
  lemma EvenPriceMeaning(min: real, max: real, count: nat, i: nat)
    requires count >= 2
    ensures var span := if max - min > 0.001 then max - min else 0.001;
            && EvenPrice(min, max, count, 0) == min
            && EvenPrice(min, max, count, count - 1) == min + span
            && (EvenPrice(min, max, count, i + 1) - EvenPrice(min, max, count, i)) * (count - 1) as real == span
  {
    var span := if max - min > 0.001 then max - min else 0.001;
    var m := (count - 1) as real;
    StepOf(span, i, count - 1);
    StepOf(span, 0, count - 1);
    FullSpan(span, m);
    hide Times;
  }

  lemma StepOf(span: real, i: nat, m: nat)
    requires m > 0
    ensures (Times(span, (i + 1) as real / m as real) - Times(span, i as real / m as real)) * m as real == span
    ensures i == 0 ==> Times(span, i as real / m as real) == 0.0
  {
    var a, b := (i + 1) as real / m as real, i as real / m as real;
    DivMul((i + 1) as real, m as real);
    DivMul(i as real, m as real);
    assert (Times(span, a) - Times(span, b)) * m as real == span * (a * m as real) - span * (b * m as real);
    assert span * ((i + 1) as real) == span * (i as real) + span;
  }

  lemma FullSpan(span: real, m: real)
    requires m > 0.0
    ensures Times(span, m / m) == span
  {
    DivMul(m, m);
    TimesUnits(span, m / m);
  }

  function EvenPrices(min: real, max: real, count: nat, n: nat, round: real -> real): set<real>
    requires count >= 2
  {
    set i: nat | i < n && round(EvenPrice(min, max, count, i)) > 0.0 :: round(EvenPrice(min, max, count, i))
  }

  predicate InDomain(price: real, min: real, max: real) {
    price > 0.0 && min <= price <= max
  }

  function PointPrices(points: seq<Point>, n: nat, min: real, max: real, round: real -> real): set<real>
    requires n <= |points|
  {
    set k: nat | k < n && InDomain(points[k].price, min, max) :: round(points[k].price)
  }

  function SchedulePrices(schedules: seq<seq<Point>>, n: nat, min: real, max: real, round: real -> real): set<real>
    requires n <= |schedules|
  {
    set s: nat, k: nat | s < n && k < |schedules[s]| && InDomain(schedules[s][k].price, min, max)
      :: round(schedules[s][k].price)
  }

  /** Every price the grid must have: even steps, the schedules' own prices, and both ends. */
  function GridPrices(min: real, max: real, count: nat, schedules: seq<seq<Point>>, round: real -> real): set<real> {
    var n := if count < 2 then 2 else count;
    EvenPrices(min, max, n, n, round) + SchedulePrices(schedules, |schedules|, min, max, round)
    + {round(min), round(max)}
  }

  /** A list without repetition, holding exactly `members`. */
  ghost predicate Lists(order: seq<real>, members: set<real>) {
    && (forall i, j :: 0 <= i < j < |order| ==> order[i] != order[j])
    && (forall p :: p in order <==> p in members)
  }

  function Include(order: seq<real>, price: real): seq<real> {
    if price in order then order else order + [price]
  }

  lemma IncludeLists(order: seq<real>, members: set<real>, price: real)
    requires Lists(order, members)
    ensures Lists(Include(order, price), members + {price})
  {
    var longer := Include(order, price);
    if price !in order {
      assert longer[|order|] == price;
      forall p | p in order ensures p in longer {
        var i :| 0 <= i < |order| && order[i] == p;
        assert longer[i] == p;
      }
    }
  }

  /** Sorting a list without repetition puts it in strictly increasing order. */
  lemma SortedIncreasing(values: seq<real>, sorted: seq<real>, members: set<real>)
    requires Lists(values, members) && SortOf(sorted, values, AtMost)
    ensures Increasing(sorted)
    ensures forall p :: p in sorted <==> p in members
  {
    assert forall p :: p in sorted <==> p in multiset(sorted);
    assert forall p :: p in values <==> p in multiset(values);
    forall i, j | 0 <= i < j < |sorted| ensures sorted[i] < sorted[j] {
      assert AtMost(sorted[i], sorted[j]);
      if sorted[i] == sorted[j] {
        Twice(sorted, i, j);
        Once(values, sorted[i]);
      }
    }
  }

  method EvenSteps(min: real, max: real, count: nat, round: real -> real) returns (order: seq<real>)
    requires count >= 2
    ensures Lists(order, EvenPrices(min, max, count, count, round))
  {
    hide EvenPrice, Lists;
    order := [];
    assert Lists([], {}) by { NothingListed(); }
    assert EvenPrices(min, max, count, 0, round) == {};
    for i := 0 to count
      invariant Lists(order, EvenPrices(min, max, count, i, round))
    {
      var price := round(EvenPrice(min, max, count, i));
      EvenPricesStep(min, max, count, i, round);
      if price > 0.0 {
        IncludeLists(order, EvenPrices(min, max, count, i, round), price);
        order := Include(order, price);
      }
    }
  }

  lemma NothingListed()
    ensures Lists([], {})
  {
  }

  lemma EvenPricesStep(min: real, max: real, count: nat, i: nat, round: real -> real)
    requires count >= 2
    ensures var price, before := round(EvenPrice(min, max, count, i)), EvenPrices(min, max, count, i, round);
            EvenPrices(min, max, count, i + 1, round) == if price > 0.0 then before + {price} else before
  {
    hide EvenPrice;
  }

  method SchedulePoints(start: seq<real>, ghost members: set<real>, points: seq<Point>,
                        min: real, max: real, round: real -> real) returns (order: seq<real>)
    requires Lists(start, members)
    ensures Lists(order, members + PointPrices(points, |points|, min, max, round))
  {
    hide Lists;
    order := start;
    assert members + PointPrices(points, 0, min, max, round) == members;
    for k := 0 to |points|
      invariant Lists(order, members + PointPrices(points, k, min, max, round))
    {
      var price := points[k].price;
      ghost var before := members + PointPrices(points, k, min, max, round);
      ghost var after := members + PointPrices(points, k + 1, min, max, round);
      if !InDomain(price, min, max) {
        assert after == before;
        continue;
      }
      assert after == before + {round(price)};
      IncludeLists(order, before, round(price));
      order := Include(order, round(price));
    }
  }

  lemma SchedulePricesStep(schedules: seq<seq<Point>>, s: nat, min: real, max: real, round: real -> real)
    requires s < |schedules|
    ensures SchedulePrices(schedules, s + 1, min, max, round)
            == SchedulePrices(schedules, s, min, max, round)
               + PointPrices(schedules[s], |schedules[s]|, min, max, round)
  {
  }

  method BuildEvaluationPriceGrid(min: real, max: real, count: nat, schedules: seq<seq<Point>>, round: real -> real)
    returns (grid: seq<real>)
    ensures Increasing(grid)
    ensures forall p :: p in grid <==> p in GridPrices(min, max, count, schedules, round)
  {
    hide Lists, EvenPrices, PointPrices, SchedulePrices, Increasing;
    var safeCount := if count < 2 then 2 else count;
    var order := EvenSteps(min, max, safeCount, round);
    ghost var even := EvenPrices(min, max, safeCount, safeCount, round);
    NoSchedulePrices(schedules, min, max, round);
    assert even + {} == even;
    for s := 0 to |schedules|
      invariant Lists(order, even + SchedulePrices(schedules, s, min, max, round))
    {
      ghost var members := even + SchedulePrices(schedules, s, min, max, round);
      SchedulePricesStep(schedules, s, min, max, round);
      assert members + PointPrices(schedules[s], |schedules[s]|, min, max, round)
          == even + SchedulePrices(schedules, s + 1, min, max, round);
      order := SchedulePoints(order, members, schedules[s], min, max, round);
    }
    ghost var members := even + SchedulePrices(schedules, |schedules|, min, max, round);
    IncludeLists(order, members, round(min));
    order := Include(order, round(min));
    IncludeLists(order, members + {round(min)}, round(max));
    order := Include(order, round(max));
    members := members + {round(min)} + {round(max)};
    assert members == GridPrices(min, max, count, schedules, round);
    AtMostIsTotal();
    SortSorts(order, AtMost);
    hide SortOf, TotalPreorder;
    grid := Sort(order, AtMost);
    SortedIncreasing(order, grid, members);
  }

  lemma NoSchedulePrices(schedules: seq<seq<Point>>, min: real, max: real, round: real -> real)
    ensures SchedulePrices(schedules, 0, min, max, round) == {}
  {
  }

  // -------------------------------------------------------- price domain

  /** The positive prices of a schedule, then of all schedules, in order. */
  function PositivePrices(points: seq<Point>): seq<real> {
    if points == [] then []
    else
      var last := points[|points| - 1];
      PositivePrices(points[..|points| - 1]) + if last.price > 0.0 then [last.price] else []
  }

  function AllPrices(schedules: seq<seq<Point>>): seq<real> {
    if schedules == [] then []
    else AllPrices(schedules[..|schedules| - 1]) + PositivePrices(schedules[|schedules| - 1])
  }

  function Larger(a: real, b: real): real { if a < b then b else a }

  function Lowest(prices: seq<real>): (m: real)
    requires prices != []
    ensures m in prices && forall p :: p in prices ==> m <= p
  {
    if |prices| == 1 then prices[0]
    else
      var m, last := Lowest(prices[..|prices| - 1]), prices[|prices| - 1];
      assert forall p :: p in prices <==> p in prices[..|prices| - 1] || p == last;
      if last < m then last else m
  }

  function Highest(prices: seq<real>): (m: real)
    requires prices != []
    ensures m in prices && forall p :: p in prices ==> p <= m
  {
    if |prices| == 1 then prices[0]
    else
      var m, last := Highest(prices[..|prices| - 1]), prices[|prices| - 1];
      assert forall p :: p in prices <==> p in prices[..|prices| - 1] || p == last;
      if m < last then last else m
  }

  const NO_PRICES: (real, real) := (68000.0, 69000.0)

  function DomainOf(prices: seq<real>, fallback: real, round: real -> real): (real, real) {
    if prices == [] then
      if fallback > 0.0 then (round(fallback * 0.998), round(fallback * 1.002)) else NO_PRICES
    else
      var min, max := Lowest(prices), Highest(prices);
      var span := Larger(max - min, Larger(1.0, min * 0.0015));
      var padding := Larger(span * 0.08, 1.0);
      (round(min - padding), round(max + padding))
  }

  /**
    Before rounding the domain reaches past all prices by the same distance on both sides: the
    largest of one, of 8% of their range, and of 8% of 0.15% of the lowest.  Without prices it is
    0.2% around the fallback, or 68000 to 69000.
   */
  lemma DomainMeaning(prices: seq<real>, fallback: real, low: real, high: real)
    requires prices != [] ==> low in prices && high in prices && forall p :: p in prices ==> low <= p <= high
    ensures var (min, max) := DomainOf(prices, fallback, x => x);
            if prices != [] then
              && low - min == max - high
              && low - min >= 1.0 && low - min >= 0.08 * (high - low) && low - min >= 0.00012 * low
              && (low - min == 1.0 || low - min == 0.08 * (high - low) || low - min == 0.00012 * low)
            else if fallback > 0.0 then min == fallback - fallback / 500.0 && max == fallback + fallback / 500.0
            else min == 68000.0 && max == 69000.0
  {
    if prices != [] { assert Lowest(prices) == low && Highest(prices) == high; }
  }

  method BuildMatchingPriceDomain(schedules: seq<seq<Point>>, fallback: real, round: real -> real)
    returns (domain: (real, real))
    ensures domain == DomainOf(AllPrices(schedules), fallback, round)
  {
    var prices := [];
    for s := 0 to |schedules|
      invariant prices == AllPrices(schedules[..s])
    {
      assert schedules[..s + 1][..s] == schedules[..s];
      var points := schedules[s];
      for k := 0 to |points|
        invariant prices == AllPrices(schedules[..s]) + PositivePrices(points[..k])
      {
        assert points[..k + 1][..k] == points[..k];
        if points[k].price > 0.0 {
          prices := prices + [points[k].price];
        }
      }
      assert points[..|points|] == points;
    }
    assert schedules[..|schedules|] == schedules;
    domain := DomainOf(prices, fallback, round);
  }

  /** Prices that are positive and already have the grid's decimals. */
  ghost predicate GridReady(schedules: seq<seq<Point>>, round: real -> real) {
    forall s, k :: 0 <= s < |schedules| && 0 <= k < |schedules[s]| ==>
      schedules[s][k].price > 0.0 && round(schedules[s][k].price) == schedules[s][k].price
  }

  lemma {:induction false} PositivePriceListed(points: seq<Point>, k: nat)
    requires k < |points| && points[k].price > 0.0
    ensures points[k].price in PositivePrices(points)
  {
    if k < |points| - 1 { PositivePriceListed(points[..|points| - 1], k); }
  }

  lemma {:induction false} PriceListed(schedules: seq<seq<Point>>, s: nat, k: nat)
    requires s < |schedules| && k < |schedules[s]| && schedules[s][k].price > 0.0
    ensures schedules[s][k].price in AllPrices(schedules)
  {
    if s < |schedules| - 1 {
      PriceListed(schedules[..|schedules| - 1], s, k);
    } else {
      PositivePriceListed(schedules[s], k);
    }
  }

  /** The domain covers every schedule's prices, so the grid holds them all. */
  lemma GridHoldsAllPrices(schedules: seq<seq<Point>>, fallback: real, count: nat, round: real -> real, s: nat, k: nat)
    requires Rounding(round) && GridReady(schedules, round) && s < |schedules| && k < |schedules[s]|
    ensures var (min, max) := DomainOf(AllPrices(schedules), fallback, round);
            && min <= schedules[s][k].price <= max
            && schedules[s][k].price in GridPrices(min, max, count, schedules, round)
  {
    var p := schedules[s][k].price;
    assert p > 0.0 && round(p) == p;
    PriceListed(schedules, s, k);
    var prices := AllPrices(schedules);
    var (min, max) := DomainOf(prices, fallback, round);
    assert Lowest(prices) <= p <= Highest(prices);
    hide Lowest, Highest, AllPrices, EvenPrices;
    DomainAround(prices, p, fallback, round);
    assert InDomain(schedules[s][k].price, min, max);
    assert round(schedules[s][k].price) in SchedulePrices(schedules, |schedules|, min, max, round);
  }

  lemma DomainAround(prices: seq<real>, p: real, fallback: real, round: real -> real)
    requires Rounding(round) && p in prices && round(p) == p
    ensures DomainOf(prices, fallback, round).0 <= p <= DomainOf(prices, fallback, round).1
  {
    var min, max := Lowest(prices), Highest(prices);
    var padding := Larger(Larger(max - min, Larger(1.0, min * 0.0015)) * 0.08, 1.0);
    assert padding >= 1.0;
    assert min - padding <= p <= max + padding;
    assert round(min - padding) <= round(p) <= round(max + padding);
  }
}
