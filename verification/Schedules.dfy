/**
  Price/volume schedules: sampling a venue's curve, cleaning the samples, reading a
  schedule at any price and summing schedules on a common price grid.

  Numbers are exact reals.  `toFixed` is any function meeting `Rounding`.
 */
module Schedules {
  import opened LiquiditySpline
  import opened Ordering
  import opened RealFacts
  import opened SplineEvaluation
  import opened Wrappers

  datatype Side = Bid | Ask

  datatype Point = Point(price: real, volume: real)

  datatype RawPoint = RawPoint(price: Num, volume: Num)

  /** Rounding to a fixed number of decimals keeps order and signs. */
  ghost predicate Rounding(round: real -> real) {
    && (forall x, y :: x <= y ==> round(x) <= round(y))
    && (forall x :: x >= 0.0 ==> round(x) >= 0.0)
  }

  // ------------------------------------------------------------- cleaning

  predicate Usable(p: RawPoint, roundPrice: real -> real, roundVolume: real -> real) {
    && p.price.Finite? && p.price.value > 0.0 && p.volume.Finite? && p.volume.value >= 0.0
    && roundPrice(p.price.value) > 0.0 && roundVolume(p.volume.value) >= 0.0
  }

  function Rounded(p: RawPoint, roundPrice: real -> real, roundVolume: real -> real): Point
    requires Usable(p, roundPrice, roundVolume)
  {
    Point(roundPrice(p.price.value), roundVolume(p.volume.value))
  }

  ghost predicate StrictPrices(points: seq<Point>) {
    forall i, j :: 0 <= i < j < |points| ==> points[i].price < points[j].price
  }

  ghost predicate Above(p: Point, points: seq<Point>) {
    exists i :: 0 <= i < |points| && points[i].price == p.price && points[i].volume >= p.volume
  }

  ghost predicate ComesFrom(p: Point, raw: seq<RawPoint>, roundPrice: real -> real, roundVolume: real -> real) {
    exists j :: 0 <= j < |raw| && Usable(raw[j], roundPrice, roundVolume)
                && Rounded(raw[j], roundPrice, roundVolume) == p
  }

  /** The upper envelope: at each rounded price, once, the largest usable volume there. */
  ghost predicate Envelope(points: seq<Point>, raw: seq<RawPoint>,
                           roundPrice: real -> real, roundVolume: real -> real) {
    && StrictPrices(points)
    && (forall j :: 0 <= j < |raw| && Usable(raw[j], roundPrice, roundVolume) ==>
          Above(Rounded(raw[j], roundPrice, roundVolume), points))
    && (forall i :: 0 <= i < |points| ==> ComesFrom(points[i], raw, roundPrice, roundVolume))
  }

  /** The vertical step added at the near end of a schedule. */
  function WithZeroVolume(points: seq<Point>, kind: Side): seq<Point> {
    if points == [] then []
    else
      var first, last := points[0], points[|points| - 1];
      if kind.Ask? && first.volume > 0.0 then [Point(first.price, 0.0)] + points
      else if kind.Bid? && last.volume > 0.0 then points + [Point(last.price, 0.0)]
      else points
  }

  ghost predicate ScheduleOf(schedule: seq<Point>, raw: seq<RawPoint>, kind: Side,
                             roundPrice: real -> real, roundVolume: real -> real) {
    exists points :: Envelope(points, raw, roundPrice, roundVolume) && schedule == WithZeroVolume(points, kind)
  }

  predicate ByPrice(a: Point, b: Point) { a.price <= b.price }

  lemma ByPriceIsTotal()
    ensures TotalPreorder(ByPrice)
  {
  }

  /** What the map from price to best point holds after some samples. */
  ghost predicate Gathered(byPrice: map<real, Point>, order: seq<real>, raw: seq<RawPoint>,
                           roundPrice: real -> real, roundVolume: real -> real) {
    && (forall i :: 0 <= i < |order| ==> order[i] in byPrice)
    && (forall k :: k in byPrice ==> k in order)
    && (forall i, j :: 0 <= i < j < |order| ==> order[i] != order[j])
    && (forall k :: k in byPrice ==>
          byPrice[k].price == k && ComesFrom(byPrice[k], raw, roundPrice, roundVolume))
    && (forall j :: 0 <= j < |raw| && Usable(raw[j], roundPrice, roundVolume) ==>
          var p := Rounded(raw[j], roundPrice, roundVolume);
          p.price in byPrice && p.volume <= byPrice[p.price].volume)
  }

  lemma ComesFromLonger(p: Point, raw: seq<RawPoint>, next: RawPoint,
                        roundPrice: real -> real, roundVolume: real -> real)
    ensures ComesFrom(p, raw, roundPrice, roundVolume) ==> ComesFrom(p, raw + [next], roundPrice, roundVolume)
    ensures Usable(next, roundPrice, roundVolume) && Rounded(next, roundPrice, roundVolume) == p ==>
              ComesFrom(p, raw + [next], roundPrice, roundVolume)
  {
    var longer := raw + [next];
    if ComesFrom(p, raw, roundPrice, roundVolume) {
      var j :| 0 <= j < |raw| && Usable(raw[j], roundPrice, roundVolume)
               && Rounded(raw[j], roundPrice, roundVolume) == p;
      assert longer[j] == raw[j];
    }
    assert longer[|raw|] == next;
  }

  /** The map after one more sample. */
  function Gather(byPrice: map<real, Point>, order: seq<real>, next: RawPoint,
                  roundPrice: real -> real, roundVolume: real -> real): (map<real, Point>, seq<real>) {
    if !Usable(next, roundPrice, roundVolume) then (byPrice, order)
    else
      var p := Rounded(next, roundPrice, roundVolume);
      if p.price !in byPrice then (byPrice[p.price := p], order + [p.price])
      else if p.volume > byPrice[p.price].volume then (byPrice[p.price := p], order)
      else (byPrice, order)
  }

  lemma GatherStep(byPrice: map<real, Point>, order: seq<real>, raw: seq<RawPoint>, next: RawPoint,
                   roundPrice: real -> real, roundVolume: real -> real)
    requires Gathered(byPrice, order, raw, roundPrice, roundVolume)
    ensures var (m, o) := Gather(byPrice, order, next, roundPrice, roundVolume);
            Gathered(m, o, raw + [next], roundPrice, roundVolume)
  {
    hide ComesFrom;
    var (m, o) := Gather(byPrice, order, next, roundPrice, roundVolume);
    forall k | k in m ensures ComesFrom(m[k], raw + [next], roundPrice, roundVolume) {
      ComesFromLonger(m[k], raw, next, roundPrice, roundVolume);
    }
    forall k | k in m ensures k in o {
      if k !in order { assert o[|order|] == k; }
    }
  }

  lemma Twice<T>(s: seq<T>, i: nat, j: nat)
    requires i < j < |s| && s[i] == s[j]
    ensures multiset(s)[s[i]] >= 2
  {
    assert s == s[..j] + s[j..];
    assert s[..j][i] == s[i] && s[j..][0] == s[j];
  }

  lemma {:induction false} Once<T>(s: seq<T>, x: T)
    requires forall i, j :: 0 <= i < j < |s| ==> s[i] != s[j]
    ensures multiset(s)[x] <= 1
  {
    if s != [] {
      var init, last := s[..|s| - 1], s[|s| - 1];
      Once(init, x);
      assert s == init + [last];
      assert last !in init;
    }
  }

  /** Sorting points of distinct prices leaves no ties. */
  lemma SortedStrict(values: seq<Point>, sorted: seq<Point>)
    requires forall i, j :: 0 <= i < j < |values| ==> values[i].price != values[j].price
    requires SortOf(sorted, values, ByPrice)
    ensures StrictPrices(sorted)
    ensures forall p :: p in sorted <==> p in values
  {
    assert forall p :: p in sorted <==> p in multiset(sorted);
    assert forall p :: p in values <==> p in multiset(values);
    forall i, j | 0 <= i < j < |sorted| ensures sorted[i].price < sorted[j].price {
      assert ByPrice(sorted[i], sorted[j]);
      if sorted[i].price == sorted[j].price {
        assert sorted[i] in values && sorted[j] in values;
        assert sorted[i] == sorted[j];
        Twice(sorted, i, j);
        Once(values, sorted[i]);
      }
    }
  }

  function Listed(byPrice: map<real, Point>, order: seq<real>): (r: seq<Point>)
    requires forall i :: 0 <= i < |order| ==> order[i] in byPrice
    ensures |r| == |order| && forall i :: 0 <= i < |r| ==> r[i] == byPrice[order[i]]
  {
    seq(|order|, i requires 0 <= i < |order| => byPrice[order[i]])
  }

  lemma GatheredSorts(byPrice: map<real, Point>, order: seq<real>, raw: seq<RawPoint>, sorted: seq<Point>,
                      roundPrice: real -> real, roundVolume: real -> real)
    requires Gathered(byPrice, order, raw, roundPrice, roundVolume)
    requires SortOf(sorted, Listed(byPrice, order), ByPrice)
    ensures Envelope(sorted, raw, roundPrice, roundVolume)
  {
    hide ComesFrom, SortOf;
    var values := Listed(byPrice, order);
    SortedStrict(values, sorted);
    forall i | 0 <= i < |values| ensures ComesFrom(values[i], raw, roundPrice, roundVolume) {
      var k := order[i];
      assert k in byPrice && values[i] == byPrice[k];
    }
    forall i | 0 <= i < |sorted| ensures ComesFrom(sorted[i], raw, roundPrice, roundVolume) {
      assert sorted[i] in values;
    }
    forall j | 0 <= j < |raw| && Usable(raw[j], roundPrice, roundVolume)
      ensures Above(Rounded(raw[j], roundPrice, roundVolume), sorted)
    {
      var p := Rounded(raw[j], roundPrice, roundVolume);
      assert p.price in order;
      var k :| 0 <= k < |order| && order[k] == p.price;
      assert values[k] in sorted;
    }
  }

  method BestByPrice(raw: seq<RawPoint>, roundPrice: real -> real, roundVolume: real -> real)
    returns (byPrice: map<real, Point>, order: seq<real>)
    ensures Gathered(byPrice, order, raw, roundPrice, roundVolume)
  {
    byPrice, order := map[], [];
    assert raw[..0] == [];
    NothingGathered(roundPrice, roundVolume);
    hide Gathered;
    for i := 0 to |raw|
      invariant Gathered(byPrice, order, raw[..i], roundPrice, roundVolume)
    {
      GatherStep(byPrice, order, raw[..i], raw[i], roundPrice, roundVolume);
      assert raw[..i + 1] == raw[..i] + [raw[i]];
      var point := raw[i];
      if point.price.NonFinite? || point.price.value <= 0.0 || point.volume.NonFinite? || point.volume.value < 0.0 {
        continue;
      }
      var price, volume := roundPrice(point.price.value), roundVolume(point.volume.value);
      if price <= 0.0 || volume < 0.0 {
        continue;
      }
      if price !in byPrice {
        order := order + [price];
        byPrice := byPrice[price := Point(price, volume)];
      } else if volume > byPrice[price].volume {
        byPrice := byPrice[price := Point(price, volume)];
      }
    }
    assert raw[..|raw|] == raw;
  }

  lemma NothingGathered(roundPrice: real -> real, roundVolume: real -> real)
    ensures Gathered(map[], [], [], roundPrice, roundVolume)
  {
  }

  lemma OrderInMap(byPrice: map<real, Point>, order: seq<real>, raw: seq<RawPoint>,
                   roundPrice: real -> real, roundVolume: real -> real)
    requires Gathered(byPrice, order, raw, roundPrice, roundVolume)
    ensures forall i :: 0 <= i < |order| ==> order[i] in byPrice
  {
  }

  method SanitizeSchedule(raw: seq<RawPoint>, kind: Side, roundPrice: real -> real, roundVolume: real -> real)
    returns (schedule: seq<Point>)
    ensures ScheduleOf(schedule, raw, kind, roundPrice, roundVolume)
  {
    hide Envelope, Gathered, TotalPreorder, SortOf;
    var byPrice, order := BestByPrice(raw, roundPrice, roundVolume);
    OrderInMap(byPrice, order, raw, roundPrice, roundVolume);
    ByPriceIsTotal();
    SortSorts(Listed(byPrice, order), ByPrice);
    schedule := Sort(Listed(byPrice, order), ByPrice);
    GatheredSorts(byPrice, order, raw, schedule, roundPrice, roundVolume);
    ghost var points := schedule;
    if |schedule| == 0 {
      return;
    }
    if kind.Ask? && schedule[0].volume > 0.0 {
      schedule := [Point(schedule[0].price, 0.0)] + schedule;
    }
    if kind.Bid? && schedule[|schedule| - 1].volume > 0.0 {
      schedule := schedule + [Point(schedule[|schedule| - 1].price, 0.0)];
    }
    assert schedule == WithZeroVolume(points, kind);
  }

  lemma EmptyWithin<T>(a: seq<T>, b: seq<T>)
    requires forall p :: p in a ==> p in b
    ensures b == [] ==> a == []
  {
    if a != [] { assert a[0] in b; }
  }

  lemma {:induction false} SamePoints(a: seq<Point>, b: seq<Point>)
    requires StrictPrices(a) && StrictPrices(b)
    requires forall p :: p in a <==> p in b
    ensures a == b
  {
    EmptyWithin(b, a);
    if a != [] {
      var m := |a| - 1;
      assert a[m] in b;
      var n := |b| - 1;
      assert b[n] in a;
      assert a[m] == b[n];
      forall p ensures p in a[..m] <==> p in b[..n] {
        if p in a[..m] {
          assert p in b && p != b[n];
        }
        if p in b[..n] {
          assert p in a && p != a[m];
        }
      }
      SamePoints(a[..m], b[..n]);
      assert a == a[..m] + [a[m]] && b == b[..n] + [b[n]];
    }
  }

  lemma EnvelopeWithin(a: seq<Point>, b: seq<Point>, raw: seq<RawPoint>,
                       roundPrice: real -> real, roundVolume: real -> real, i: nat)
    requires Envelope(a, raw, roundPrice, roundVolume) && Envelope(b, raw, roundPrice, roundVolume)
    requires i < |a|
    ensures a[i] in b
  {
    hide ComesFrom, StrictPrices, Above;
    var j := EnvelopeReaches(a, b, raw, roundPrice, roundVolume, i);
    var k := EnvelopeReaches(b, a, raw, roundPrice, roundVolume, j);
    if k < i { StrictAt(a, k, i); } else if i < k { StrictAt(a, i, k); }
  }

  lemma StrictAt(a: seq<Point>, i: nat, j: nat)
    requires StrictPrices(a) && i < j < |a|
    ensures a[i].price < a[j].price
  {
  }

  lemma EnvelopeReaches(a: seq<Point>, b: seq<Point>, raw: seq<RawPoint>,
                        roundPrice: real -> real, roundVolume: real -> real, i: nat) returns (j: nat)
    requires Envelope(a, raw, roundPrice, roundVolume) && Envelope(b, raw, roundPrice, roundVolume)
    requires i < |a|
    ensures j < |b| && b[j].price == a[i].price && b[j].volume >= a[i].volume
  {
    assert ComesFrom(a[i], raw, roundPrice, roundVolume);
    var k :| 0 <= k < |raw| && Usable(raw[k], roundPrice, roundVolume)
             && Rounded(raw[k], roundPrice, roundVolume) == a[i];
    hide Usable, Rounded, StrictPrices;
    assert Above(Rounded(raw[k], roundPrice, roundVolume), b);
    j :| 0 <= j < |b| && b[j].price == a[i].price && b[j].volume >= a[i].volume;
  }

  /** The samples determine the schedule. */
  lemma ScheduleUnique(s: seq<Point>, t: seq<Point>, raw: seq<RawPoint>, kind: Side,
                       roundPrice: real -> real, roundVolume: real -> real)
    requires ScheduleOf(s, raw, kind, roundPrice, roundVolume)
    requires ScheduleOf(t, raw, kind, roundPrice, roundVolume)
    ensures s == t
  {
    var a :| Envelope(a, raw, roundPrice, roundVolume) && s == WithZeroVolume(a, kind);
    var b :| Envelope(b, raw, roundPrice, roundVolume) && t == WithZeroVolume(b, kind);
    forall i | 0 <= i < |a| ensures a[i] in b { EnvelopeWithin(a, b, raw, roundPrice, roundVolume, i); }
    forall i | 0 <= i < |b| ensures b[i] in a { EnvelopeWithin(b, a, raw, roundPrice, roundVolume, i); }
    SamePoints(a, b);
  }

  lemma StepHolds(points: seq<Point>, kind: Side, i: nat)
    requires i < |points|
    ensures exists k :: 0 <= k < |WithZeroVolume(points, kind)| && WithZeroVolume(points, kind)[k] == points[i]
  {
    var s := WithZeroVolume(points, kind);
    var k := if |s| == |points| || kind.Bid? then i else i + 1;
    assert s[k] == points[i];
  }

  lemma StepAdds(points: seq<Point>, kind: Side, k: nat)
    requires k < |WithZeroVolume(points, kind)|
    ensures var p := WithZeroVolume(points, kind)[k];
            exists i :: 0 <= i < |points| && points[i].price == p.price && (points[i] == p || p.volume == 0.0)
  {
    var s := WithZeroVolume(points, kind);
    var i := if |s| == |points| || kind.Bid? then k else k - 1;
    var at := if i < 0 then 0 else if i < |points| then i else |points| - 1;
    assert points[at].price == s[k].price;
  }

  /** A sample with a price and no negative volume. */
  predicate Trades(r: RawPoint) {
    r.price.Finite? && r.volume.Finite? && r.price.value > 0.0 && r.volume.value >= 0.0
  }

  ghost predicate CoveredIn(schedule: seq<Point>, r: RawPoint, roundPrice: real -> real, roundVolume: real -> real)
    requires Trades(r)
  {
    exists k :: 0 <= k < |schedule| && schedule[k].price == roundPrice(r.price.value)
                && schedule[k].volume >= roundVolume(r.volume.value)
  }

  ghost predicate SampledFrom(p: Point, raw: seq<RawPoint>, roundPrice: real -> real, roundVolume: real -> real) {
    exists j :: 0 <= j < |raw| && Trades(raw[j]) && p.price == roundPrice(raw[j].price.value)
                && (p.volume == roundVolume(raw[j].volume.value) || p.volume == 0.0)
  }

  /**
    The schedule by its points: every sample that trades, and still does when rounded, is
    covered at its rounded price, and every point with volume is such a sample, rounded.
   */
  lemma ScheduleMeaning(schedule: seq<Point>, raw: seq<RawPoint>, kind: Side,
                        roundPrice: real -> real, roundVolume: real -> real)
    requires ScheduleOf(schedule, raw, kind, roundPrice, roundVolume)
    ensures forall j :: 0 <= j < |raw| && Trades(raw[j])
                        && roundPrice(raw[j].price.value) > 0.0 && roundVolume(raw[j].volume.value) >= 0.0
                        ==> CoveredIn(schedule, raw[j], roundPrice, roundVolume)
    ensures forall k :: 0 <= k < |schedule| ==> SampledFrom(schedule[k], raw, roundPrice, roundVolume)
  {
    var points: seq<Point> :| Envelope(points, raw, roundPrice, roundVolume) && schedule == WithZeroVolume(points, kind);
    hide Envelope, WithZeroVolume, CoveredIn, SampledFrom;
    forall j | 0 <= j < |raw| && Usable(raw[j], roundPrice, roundVolume)
      ensures CoveredIn(schedule, raw[j], roundPrice, roundVolume)
    {
      SampleCovered(points, schedule, raw, kind, roundPrice, roundVolume, j);
    }
    forall k | 0 <= k < |schedule| ensures SampledFrom(schedule[k], raw, roundPrice, roundVolume) {
      PointSampled(points, schedule, raw, kind, roundPrice, roundVolume, k);
    }
  }

  lemma SampleCovered(points: seq<Point>, schedule: seq<Point>, raw: seq<RawPoint>, kind: Side,
                      roundPrice: real -> real, roundVolume: real -> real, j: nat)
    requires Envelope(points, raw, roundPrice, roundVolume) && schedule == WithZeroVolume(points, kind)
    requires j < |raw| && Usable(raw[j], roundPrice, roundVolume)
    ensures CoveredIn(schedule, raw[j], roundPrice, roundVolume)
  {
    hide StrictPrices, ComesFrom, WithZeroVolume;
    assert Above(Rounded(raw[j], roundPrice, roundVolume), points);
    hide Envelope;
    var p := Rounded(raw[j], roundPrice, roundVolume);
    var i :| 0 <= i < |points| && points[i].price == p.price && points[i].volume >= p.volume;
    StepHolds(points, kind, i);
  }

  lemma PointSampled(points: seq<Point>, schedule: seq<Point>, raw: seq<RawPoint>, kind: Side,
                     roundPrice: real -> real, roundVolume: real -> real, k: nat)
    requires Envelope(points, raw, roundPrice, roundVolume) && schedule == WithZeroVolume(points, kind)
    requires k < |schedule|
    ensures SampledFrom(schedule[k], raw, roundPrice, roundVolume)
  {
    hide StrictPrices, Above, WithZeroVolume;
    StepAdds(points, kind, k);
    var i :| 0 <= i < |points| && points[i].price == schedule[k].price
             && (points[i] == schedule[k] || schedule[k].volume == 0.0);
    assert ComesFrom(points[i], raw, roundPrice, roundVolume);
    hide Envelope;
    var j :| 0 <= j < |raw| && Usable(raw[j], roundPrice, roundVolume)
             && Rounded(raw[j], roundPrice, roundVolume) == points[i];
  }

  // ------------------------------------------------------ economic shape

  /** More is offered at higher prices, and wanted at lower ones. */
  ghost predicate Ordered(kind: Side, x: real, y: real) {
    if kind.Ask? then x <= y else x >= y
  }

  /** Volumes move the side's way with price, from (or down to) nothing. */
  ghost predicate Economic(points: seq<Point>, kind: Side) {
    && (forall i :: 0 <= i < |points| ==> points[i].volume >= 0.0)
    && (forall i, j :: 0 <= i <= j < |points| ==>
          points[i].price <= points[j].price && Ordered(kind, points[i].volume, points[j].volume))
  }

  ghost predicate StartsEmpty(points: seq<Point>, kind: Side) {
    points != [] ==> (if kind.Ask? then points[0].volume else points[|points| - 1].volume) == 0.0
  }

  /** Samples along a curve that the side allows: volume grows while price moves one way. */
  ghost predicate OneWay(raw: seq<RawPoint>, kind: Side) {
    forall i, j :: 0 <= i <= j < |raw| ==>
      && raw[i].price.Finite? && raw[i].volume.Finite? && raw[j].price.Finite? && raw[j].volume.Finite?
      && raw[i].volume.value <= raw[j].volume.value
      && Ordered(kind, raw[i].price.value, raw[j].price.value)
  }

  lemma EnvelopeOrdered(points: seq<Point>, raw: seq<RawPoint>, kind: Side,
                        roundPrice: real -> real, roundVolume: real -> real, a: nat, b: nat)
    requires Rounding(roundPrice) && Rounding(roundVolume) && OneWay(raw, kind)
    requires Envelope(points, raw, roundPrice, roundVolume) && a < b < |points|
    ensures Ordered(kind, points[a].volume, points[b].volume)
  {
    assert ComesFrom(points[a], raw, roundPrice, roundVolume) && ComesFrom(points[b], raw, roundPrice, roundVolume);
    var i :| 0 <= i < |raw| && Usable(raw[i], roundPrice, roundVolume)
             && Rounded(raw[i], roundPrice, roundVolume) == points[a];
    var j :| 0 <= j < |raw| && Usable(raw[j], roundPrice, roundVolume)
             && Rounded(raw[j], roundPrice, roundVolume) == points[b];
  }

  /** Cleaning one-way samples gives an economically monotone schedule, zero-volume point included. */
  lemma ScheduleIsEconomic(schedule: seq<Point>, raw: seq<RawPoint>, kind: Side,
                           roundPrice: real -> real, roundVolume: real -> real)
    requires Rounding(roundPrice) && Rounding(roundVolume) && OneWay(raw, kind)
    requires ScheduleOf(schedule, raw, kind, roundPrice, roundVolume)
    ensures Economic(schedule, kind) && StartsEmpty(schedule, kind)
  {
    hide Rounding, OneWay, Envelope;
    var points: seq<Point> :| Envelope(points, raw, roundPrice, roundVolume) && schedule == WithZeroVolume(points, kind);
    EnvelopeEconomic(points, raw, kind, roundPrice, roundVolume);
  }

  lemma EnvelopeEconomic(points: seq<Point>, raw: seq<RawPoint>, kind: Side,
                         roundPrice: real -> real, roundVolume: real -> real)
    requires Rounding(roundPrice) && Rounding(roundVolume) && OneWay(raw, kind)
    requires Envelope(points, raw, roundPrice, roundVolume)
    ensures Economic(points, kind)
  {
    hide Rounding, OneWay, Above;
    forall a, b | 0 <= a <= b < |points|
      ensures points[a].price <= points[b].price && Ordered(kind, points[a].volume, points[b].volume)
    {
      if a < b { EnvelopeOrdered(points, raw, kind, roundPrice, roundVolume, a, b); }
    }
    forall i | 0 <= i < |points| ensures points[i].volume >= 0.0 {
      assert ComesFrom(points[i], raw, roundPrice, roundVolume);
    }
  }

  // ------------------------------------------------------ sampling a curve

  const POINT_COUNT: nat := 240
  const MS_PER_HOUR: real := 3600000.0

  function SampleCount(knots: nat): (n: nat)
    requires knots >= 2
    ensures POINT_COUNT <= n <= 480
  {
    var fine := if (knots - 1) * 24 < 480 then (knots - 1) * 24 else 480;
    if fine < POINT_COUNT then POINT_COUNT else fine
  }

  function Ratio(index: nat, count: nat): real {
    index as real / (if count <= 2 then 1.0 else (count - 1) as real)
  }

  function SafeTau(tau: Num): real {
    if tau.Finite? && tau.value > 1.0 then tau.value else 1.0
  }

  function Hourly(qty: real, tau: real): real
    requires tau != 0.0
  {
    qty * MS_PER_HOUR / tau
  }

  function SampleQty(knots: seq<Knot>, index: nat): real
    requires |knots| >= 2
  {
    Times(knots[|knots| - 1].qty, Ratio(index, SampleCount(|knots|)))
  }

  function Sample(knots: seq<Knot>, root: real -> real, tau: Num, index: nat): RawPoint
    requires RoundsUp(root) && |knots| >= 2
  {
    var qty := SampleQty(knots, index);
    RawPoint(Finite(Spline(knots, root, qty)), Finite(Hourly(qty, SafeTau(tau))))
  }

  /** What is sampled from a curve before cleaning: nothing below two knots. */
  function Samples(knots: seq<Knot>, root: real -> real, tau: Num): (r: seq<RawPoint>)
    requires RoundsUp(root)
    ensures |r| == if |knots| < 2 then 0 else SampleCount(|knots|)
    ensures forall i :: 0 <= i < |r| ==> r[i] == Sample(knots, root, tau, i)
  {
    if |knots| < 2 then []
    else seq(SampleCount(|knots|), i requires 0 <= i < SampleCount(|knots|) => Sample(knots, root, tau, i))
  }

  method SampleCurve(knots: seq<Knot>, tangents: seq<real>, root: real -> real, tau: Num)
    returns (points: seq<RawPoint>)
    requires RoundsUp(root) && |knots| >= 2 && tangents == KnotTangents(knots, root)
    ensures points == Samples(knots, root, tau)
  {
    hide Spline, KnotTangents, RoundsUp, SplineAt, SampleCount;
    var safeTau := if tau.Finite? && tau.value > 1.0 then tau.value else 1.0;
    var sampleCount := SampleCount(|knots|);
    var maxQty := knots[|knots| - 1].qty;
    points := [];
    for index := 0 to sampleCount
      invariant |points| == index
      invariant forall i :: 0 <= i < index ==> points[i] == Sample(knots, root, tau, i)
    {
      var qty := Times(maxQty, Ratio(index, sampleCount));
      var price := EvaluateMonotoneQtySpline(knots, tangents, Finite(qty));
      SplineIs(knots, root, qty);
      points := points + [RawPoint(price, Finite(Hourly(qty, safeTau)))];
    }
  }

  /**
    The schedule of a venue curve.  The gateway also stops when the last quantity is not
    positive; knots more than 1e-9 apart cannot end there.
   */
  method BuildSpeedScheduleFromSmoothedQtyCurve(qtys: seq<Num>, prices: seq<Num>, kind: Side, tau: Num,
      root: real -> real, roundPrice: real -> real, roundVolume: real -> real) returns (schedule: seq<Point>)
    requires RoundsUp(root)
    ensures var knots := KnotsOf(qtys, prices, Min(|qtys|, |prices|));
            ScheduleOf(schedule, Samples(knots, root, tau), kind, roundPrice, roundVolume)
  {
    hide Spline, KnotTangents, RoundsUp, KnotsOf, ScheduleOf, SplineAt;
    var knots := ExtractQtyPriceKnots(qtys, prices);
    if |knots| < 2 {
      EmptySchedule(kind, roundPrice, roundVolume);
      return [];
    }
    var tangents := BuildMonotoneTangents(Qtys(knots), Prices(knots), root);
    TangentsOfKnots(knots, root);
    var points := SampleCurve(knots, tangents, root, tau);
    schedule := SanitizeSchedule(points, kind, roundPrice, roundVolume);
  }

  lemma EmptySchedule(kind: Side, roundPrice: real -> real, roundVolume: real -> real)
    ensures ScheduleOf([], [], kind, roundPrice, roundVolume)
  {
    assert Envelope([], [], roundPrice, roundVolume);
  }

  lemma TangentsOfKnots(knots: seq<Knot>, root: real -> real)
    requires RoundsUp(root)
    ensures KnotTangents(knots, root) == Tangents(Qtys(knots), Prices(knots), root)
  {
  }

  lemma SplineIs(knots: seq<Knot>, root: real -> real, q: real)
    requires RoundsUp(root) && |knots| >= 1
    ensures Spline(knots, root, q) == SplineAt(knots, KnotTangents(knots, root), q)
  {
  }

  lemma QuotientsOrdered(a: real, b: real, c: real)
    requires a <= b && c > 0.0
    ensures a / c <= b / c
  {
    DivMul(a, c);
    DivMul(b, c);
    DivBounds(a, c, a / c, b / c);
  }

  lemma SamplesAdvance(knots: seq<Knot>, tau: Num, i: nat, j: nat)
    requires |knots| >= 2 && WellSpaced(knots) && i <= j
    ensures SampleQty(knots, i) <= SampleQty(knots, j)
    ensures Hourly(SampleQty(knots, i), SafeTau(tau)) <= Hourly(SampleQty(knots, j), SafeTau(tau))
  {
    var count := SampleCount(|knots|);
    QuotientsOrdered(i as real, j as real, (count - 1) as real);
    ScaleLe(Ratio(i, count), Ratio(j, count), knots[|knots| - 1].qty);
    var q, r := SampleQty(knots, i), SampleQty(knots, j);
    assert q <= r;
    hide SampleQty;
    QuotientsOrdered(q * MS_PER_HOUR, r * MS_PER_HOUR, SafeTau(tau));
  }

  /** Sampling starts at no volume and the first price, and ends at the whole quantity and the last price. */
  lemma SamplesSpanTheCurve(knots: seq<Knot>, root: real -> real, tau: Num)
    requires RoundsUp(root) && |knots| >= 2 && WellSpaced(knots)
    ensures var raw, last := Samples(knots, root, tau), knots[|knots| - 1];
            && raw[0] == RawPoint(Finite(knots[0].price), Finite(0.0))
            && raw[|raw| - 1] == RawPoint(Finite(last.price), Finite(Hourly(last.qty, SafeTau(tau))))
  {
    hide RoundsUp, Hourly, Spline, SampleQty, WellSpaced, SampleCount;
    SampleQtyEnds(knots);
    SplineOutside(knots, root, SampleQty(knots, 0));
    SplineOutside(knots, root, knots[|knots| - 1].qty);
    HourlyZero(SampleQty(knots, 0), SafeTau(tau));
  }

  lemma QuotientEnds(c: real)
    requires c > 0.0
    ensures c / c == 1.0
  {
  }

  lemma SampleQtyEnds(knots: seq<Knot>)
    requires |knots| >= 2
    ensures SampleQty(knots, 0) == 0.0
    ensures SampleQty(knots, SampleCount(|knots|) - 1) == knots[|knots| - 1].qty
  {
    var count := SampleCount(|knots|);
    assert Ratio(0, count) == 0.0;
    QuotientEnds((count - 1) as real);
    hide Times, Ratio, SampleCount;
    TimesUnits(knots[|knots| - 1].qty, Ratio(0, count));
    TimesUnits(knots[|knots| - 1].qty, Ratio(count - 1, count));
  }

  lemma SplineOutside(knots: seq<Knot>, root: real -> real, q: real)
    requires RoundsUp(root) && |knots| >= 2 && WellSpaced(knots)
    ensures q <= 0.0 ==> Spline(knots, root, q) == knots[0].price
    ensures q >= knots[|knots| - 1].qty ==> Spline(knots, root, q) == knots[|knots| - 1].price
  {
    hide KnotTangents, RoundsUp;
  }

  lemma EvenlySpread(total: real, i: nat, m: nat)
    requires m > 0
    ensures Times(total, i as real / m as real) * m as real == total * i as real
  {
    var r := i as real / m as real;
    DivMul(i as real, m as real);
    assert Times(total, r) * m as real == total * (r * m as real);
  }

  lemma HourlyMeaning(qty: real, tau: real)
    requires tau != 0.0
    ensures Hourly(qty, tau) * tau == 3600000.0 * qty
  {
    DivMul(qty * 3600000.0, tau);
  }

  /**
    Every sample in numbers: with `m + 1` samples the i-th is taken at i/m of the whole
    quantity; its price is the curve's there, and its volume is that quantity every tau
    milliseconds, per hour of 3600000.  A tau that is not finite or below 1 counts as 1.
   */
  lemma SampleMeaning(knots: seq<Knot>, root: real -> real, tau: Num, i: nat) returns (q: real)
    requires RoundsUp(root) && |knots| >= 2 && i < |Samples(knots, root, tau)|
    ensures var raw, k := Samples(knots, root, tau), 24 * (|knots| - 1);
            && |raw| == (if k <= 240 then 240 else if k <= 480 then k else 480)
            && q * (|raw| - 1) as real == knots[|knots| - 1].qty * i as real
            && raw[i].price == Finite(Spline(knots, root, q))
            && raw[i].volume.Finite?
            && (tau.NonFinite? || tau.value < 1.0 ==> raw[i].volume.value == 3600000.0 * q)
            && (tau.Finite? && tau.value >= 1.0 ==> raw[i].volume.value * tau.value == 3600000.0 * q)
  {
    hide Spline, RoundsUp, Hourly, Times, Ratio, SampleCount, SafeTau;
    CountMeaning(|knots|);
    SampleParts(knots, root, tau, i);
    q := SampleQty(knots, i);
    hide Samples, SampleQty;
    VolumeMeaning(q, tau);
    var m, m' := (SampleCount(|knots|) - 1) as real, (|Samples(knots, root, tau)| - 1) as real;
    assert m == m';
    SameProduct(q, m, m');
  }

  lemma SameProduct(q: real, m: real, n: real)
    requires m == n
    ensures q * m == q * n
  {
  }

  lemma VolumeMeaning(q: real, tau: Num)
    ensures tau.NonFinite? || tau.value < 1.0 ==> Hourly(q, SafeTau(tau)) == 3600000.0 * q
    ensures tau.Finite? && tau.value >= 1.0 ==> Hourly(q, SafeTau(tau)) * tau.value == 3600000.0 * q
  {
    HourlyMeaning(q, SafeTau(tau));
    hide Hourly;
  }

  lemma SampleParts(knots: seq<Knot>, root: real -> real, tau: Num, i: nat)
    requires RoundsUp(root) && |knots| >= 2 && i < |Samples(knots, root, tau)|
    ensures |Samples(knots, root, tau)| == SampleCount(|knots|)
    ensures SampleQty(knots, i) * (SampleCount(|knots|) - 1) as real == knots[|knots| - 1].qty * i as real
    ensures Samples(knots, root, tau)[i]
         == RawPoint(Finite(Spline(knots, root, SampleQty(knots, i))),
                     Finite(Hourly(SampleQty(knots, i), SafeTau(tau))))
  {
    hide Spline, RoundsUp, Hourly, SampleQty, SampleCount, SafeTau;
    QtyMeaning(knots, i);
    assert Samples(knots, root, tau)[i] == Sample(knots, root, tau, i);
    hide Samples;
  }

  lemma QtyMeaning(knots: seq<Knot>, i: nat)
    requires |knots| >= 2
    ensures SampleQty(knots, i) * (SampleCount(|knots|) - 1) as real == knots[|knots| - 1].qty * i as real
  {
    var count := SampleCount(|knots|);
    EvenlySpread(knots[|knots| - 1].qty, i, count - 1);
    RatioIs(i, count);
    hide Times, Ratio, SampleCount;
  }

  lemma CountMeaning(knots: nat)
    requires knots >= 2
    ensures var k := 24 * (knots - 1); SampleCount(knots) == if k <= 240 then 240 else if k <= 480 then k else 480
  {
  }

  lemma RatioIs(i: nat, count: nat)
    requires count > 2
    ensures Ratio(i, count) == i as real / (count - 1) as real
  {
  }

  lemma HourlyZero(qty: real, tau: real)
    requires qty == 0.0 && tau != 0.0
    ensures Hourly(qty, tau) == 0.0
  {
  }

  /** Rising prices on the ask side, falling prices on the bid side. */
  ghost predicate RightWay(knots: seq<Knot>, kind: Side) {
    if kind.Ask? then Rising(knots) else Falling(knots)
  }

  lemma SamplesOneWay(knots: seq<Knot>, root: real -> real, tau: Num, kind: Side)
    requires RoundsUp(root) && WellSpaced(knots) && RightWay(knots, kind)
    ensures OneWay(Samples(knots, root, tau), kind)
  {
    hide Spline, RoundsUp, WellSpaced, Rising, Falling, SampleQty, Hourly;
    var raw := Samples(knots, root, tau);
    forall i, j | 0 <= i <= j < |raw|
      ensures raw[i].volume.value <= raw[j].volume.value
      ensures Ordered(kind, raw[i].price.value, raw[j].price.value)
    {
      SamplesAdvance(knots, tau, i, j);
      SplineMonotone(knots, root, SampleQty(knots, i), SampleQty(knots, j));
    }
  }

  /**
    From raw venue samples to schedule: when the knots kept run the side's way, so does
    the schedule, and it begins from no volume.
   */
  lemma VenueScheduleIsEconomic(qtys: seq<Num>, prices: seq<Num>, kind: Side, tau: Num, root: real -> real,
                                roundPrice: real -> real, roundVolume: real -> real, schedule: seq<Point>)
    requires RoundsUp(root) && Rounding(roundPrice) && Rounding(roundVolume)
    requires RightWay(KnotsOf(qtys, prices, Min(|qtys|, |prices|)), kind)
    requires ScheduleOf(schedule, Samples(KnotsOf(qtys, prices, Min(|qtys|, |prices|)), root, tau),
                        kind, roundPrice, roundVolume)
    ensures Economic(schedule, kind) && StartsEmpty(schedule, kind)
  {
    hide RoundsUp, Rounding, ScheduleOf, RightWay, OneWay, Economic, StartsEmpty;
    var n := Min(|qtys|, |prices|);
    KnotsAreWellSpaced(qtys, prices, n);
    var knots := KnotsOf(qtys, prices, n);
    SamplesOneWay(knots, root, tau, kind);
    ScheduleIsEconomic(schedule, Samples(knots, root, tau), kind, roundPrice, roundVolume);
  }
}
