/**
  The monotone quantity/price spline of a venue curve: knot extraction, the
  slope-limited tangent pass and the cubic Hermite evaluator.

  Numbers are exact reals.  `Math.sqrt` is any function meeting `RoundsUp`.
 */
module LiquiditySpline {
  import opened RealFacts
  import opened Wrappers

  datatype Knot = Knot(qty: real, price: real)

  const SAME_QTY: real := 0.000000001
  const FLAT_SLOPE: real := 0.000000000001

  function Abs(x: real): real {
    if x < 0.0 then -x else x
  }

  function Min(a: nat, b: nat): nat {
    if a < b then a else b
  }

  // ---------------------------------------------------------------- knots

  /** One raw sample folded into the knots gathered so far. */
  function AddSample(knots: seq<Knot>, qty: Num, price: Num): seq<Knot> {
    if qty.NonFinite? || qty.value < 0.0 || price.NonFinite? || price.value <= 0.0 then knots
    else if knots == [] then [Knot(qty.value, price.value)]
    else
      var last := |knots| - 1;
      if Abs(qty.value - knots[last].qty) <= SAME_QTY then
        knots[last := Knot(knots[last].qty, price.value)]
      else if qty.value < knots[last].qty then knots
      else knots + [Knot(qty.value, price.value)]
  }

  function KnotsOf(qtys: seq<Num>, prices: seq<Num>, n: nat): seq<Knot>
    requires n <= |qtys| && n <= |prices|
  {
    if n == 0 then [] else AddSample(KnotsOf(qtys, prices, n - 1), qtys[n - 1], prices[n - 1])
  }

  /**
    A sample by its effect, the tolerance written out: one that is not finite, of negative
    quantity or of no positive price does nothing; further on it is a new knot; within 1e-9 it
    corrects the last knot's price; and further back it is ignored.
   */
  lemma SampleEffect(knots: seq<Knot>, qty: Num, price: Num)
    ensures var next := AddSample(knots, qty, price);
            if qty == NonFinite || price == NonFinite then next == knots
            else
              var q, p := qty.value, price.value;
              if q < 0.0 || p <= 0.0 then next == knots
              else if knots == [] then next == [Knot(q, p)]
              else
                var gap := q - knots[|knots| - 1].qty;
                if gap > 0.000000001 then next == knots + [Knot(q, p)]
                else if gap < -0.000000001 then next == knots
                else
                  |next| == |knots| && next[..|knots| - 1] == knots[..|knots| - 1]
                  && next[|knots| - 1] == Knot(knots[|knots| - 1].qty, p)
  {
  }

  /** Of two usable samples of the same quantity, the later alone would have done. */
  lemma LaterPriceWins(knots: seq<Knot>, qty: Num, first: Num, second: Num)
    requires first.Finite? && first.value > 0.0 && second.Finite? && second.value > 0.0
    ensures AddSample(AddSample(knots, qty, first), qty, second) == AddSample(knots, qty, second)
  {
    if qty.Finite? && qty.value >= 0.0 && knots != [] {
      var last := |knots| - 1;
      var once := AddSample(knots, qty, first);
      if Abs(qty.value - knots[last].qty) > SAME_QTY && qty.value >= knots[last].qty {
        assert once == knots + [Knot(qty.value, first.value)];
        assert once[|once| - 1 := Knot(qty.value, second.value)] == knots + [Knot(qty.value, second.value)];
      }
    }
  }

  /** Usable knots: non-negative quantities more than 1e-9 apart, positive prices. */
  ghost predicate WellSpaced(knots: seq<Knot>) {
    && (forall i :: 0 <= i < |knots| ==> knots[i].qty >= 0.0 && knots[i].price > 0.0)
    && (forall i, j :: 0 <= i < j < |knots| ==> knots[j].qty - knots[i].qty > SAME_QTY)
  }

  lemma {:induction false} KnotsAreWellSpaced(qtys: seq<Num>, prices: seq<Num>, n: nat)
    requires n <= |qtys| && n <= |prices|
    ensures WellSpaced(KnotsOf(qtys, prices, n))
  {
    if n > 0 {
      KnotsAreWellSpaced(qtys, prices, n - 1);
      var knots := KnotsOf(qtys, prices, n - 1);
      if knots != [] {
        var last := |knots| - 1;
        assert forall i :: 0 <= i < last ==> knots[last].qty - knots[i].qty > SAME_QTY;
      }
    }
  }

  /** Extraction repairs nothing that is already clean: knots read back as samples are themselves. */
  lemma {:induction false} CleanSamplesAreKept(knots: seq<Knot>, n: nat)
    requires WellSpaced(knots) && n <= |knots|
    ensures var qtys := seq(|knots|, i requires 0 <= i < |knots| => Finite(knots[i].qty));
            var prices := seq(|knots|, i requires 0 <= i < |knots| => Finite(knots[i].price));
            KnotsOf(qtys, prices, n) == knots[..n]
  {
    if n > 0 {
      CleanSamplesAreKept(knots, n - 1);
      assert knots[..n] == knots[..n - 1] + [knots[n - 1]];
    }
  }

  method ExtractQtyPriceKnots(qtys: seq<Num>, prices: seq<Num>) returns (knots: seq<Knot>)
    ensures knots == KnotsOf(qtys, prices, Min(|qtys|, |prices|))
    ensures WellSpaced(knots)
  {
    var size := Min(|qtys|, |prices|);
    knots := [];
    var i := 0;
    while i < size
      invariant 0 <= i <= size
      invariant knots == KnotsOf(qtys, prices, i)
    {
      var qty, price := qtys[i], prices[i];
      i := i + 1;
      if qty.NonFinite? || qty.value < 0.0 || price.NonFinite? || price.value <= 0.0 {
        continue;
      }
      if |knots| > 0 {
        var previous := knots[|knots| - 1];
        if Abs(qty.value - previous.qty) <= SAME_QTY {
          knots := knots[|knots| - 1 := previous.(price := price.value)];
          continue;
        }
        if qty.value < previous.qty {
          continue;
        }
      }
      knots := knots + [Knot(qty.value, price.value)];
    }
    KnotsAreWellSpaced(qtys, prices, size);
  }

  // ------------------------------------------------------------- tangents

  /**
    What the tangent pass needs of a square root above 9: positive, and never too small.
   */
  ghost predicate RoundsUp(root: real -> real) {
    forall n: real :: n > 9.0 ==> Covers(root(n), n)
  }

  predicate Covers(r: real, n: real) {
    r > 0.0 && r * r >= n
  }

  lemma IdentityRoundsUp()
    ensures RoundsUp((n: real) => n)
  {
    var root := (n: real) => n;
    forall n: real | n > 9.0 ensures Covers(root(n), n) {
      ScaleLe(1.0, n, n);
    }
  }

  function Slope(x: seq<real>, y: seq<real>, i: nat): real
    requires i + 1 < |x| && i + 1 < |y|
  {
    var span := x[i + 1] - x[i];
    if span > 0.0 then (y[i + 1] - y[i]) / span else 0.0
  }

  function Slopes(x: seq<real>, y: seq<real>): (d: seq<real>)
    requires Min(|x|, |y|) >= 2
    ensures |d| == Min(|x|, |y|) - 1
  {
    seq(Min(|x|, |y|) - 1, i requires 0 <= i < Min(|x|, |y|) - 1 => Slope(x, y, i))
  }

  /** The unlimited three-point tangent at knot `i`. */
  function ThreePoint(d: seq<real>, i: nat): real
    requires |d| >= 1 && i <= |d|
  {
    if i == 0 then d[0]
    else if i == |d| then d[|d| - 1]
    else if d[i - 1] * d[i] <= 0.0 then 0.0
    else (d[i - 1] + d[i]) / 2.0
  }

  function ThreePoints(d: seq<real>): (t: seq<real>)
    requires |d| >= 1
    ensures |t| == |d| + 1
  {
    seq(|d| + 1, i requires 0 <= i <= |d| => ThreePoint(d, i))
  }

  /** A tangent relative to the slope of an interval. */
  function Ratio(m: real, d: real): real
    requires d != 0.0
  {
    m / d
  }

  function Norm(left: real, right: real): real {
    left * left + right * right
  }

  function PullBack(ratio: real, d: real, r: real): real
    requires r != 0.0
  {
    3.0 / r * ratio * d
  }

  /**
    The new tangents of one interval: flattened, left alone, or pulled back to the
    circle of radius 3 around the origin of (left/slope, right/slope).
   */
  function LimitPair(m: real, n: real, d: real, root: real -> real): (real, real)
    requires RoundsUp(root)
  {
    if Abs(d) <= FLAT_SLOPE then (0.0, 0.0)
    else
      var left, right := Ratio(m, d), Ratio(n, d);
      var norm := Norm(left, right);
      if norm <= 9.0 then (m, n)
      else
        var r := root(norm);
        assert Covers(r, norm);
        (PullBack(left, d, r), PullBack(right, d, r))
  }

  function LimitStep(t: seq<real>, d: seq<real>, i: nat, root: real -> real): (r: seq<real>)
    requires RoundsUp(root) && i < |d| && |t| == |d| + 1
    ensures |r| == |t|
  {
    var pair := LimitPair(t[i], t[i + 1], d[i], root);
    t[i := pair.0][i + 1 := pair.1]
  }

  function Limited(t: seq<real>, d: seq<real>, k: nat, root: real -> real): (r: seq<real>)
    requires RoundsUp(root) && k <= |d| && |t| == |d| + 1
    ensures |r| == |t|
  {
    if k == 0 then t else LimitStep(Limited(t, d, k - 1, root), d, k - 1, root)
  }

  function Tangents(x: seq<real>, y: seq<real>, root: real -> real): (t: seq<real>)
    requires RoundsUp(root)
    ensures |t| == if Min(|x|, |y|) < 2 then 0 else Min(|x|, |y|)
  {
    if Min(|x|, |y|) < 2 then []
    else
      var d := Slopes(x, y);
      Limited(ThreePoints(d), d, |d|, root)
  }

  /** The tangent never points against the interval's slope. */
  predicate SameSide(m: real, d: real) {
    (d > 0.0 ==> m >= 0.0) && (d < 0.0 ==> m <= 0.0) && (d == 0.0 ==> m == 0.0)
  }

  /** The tangent lies between 0 and three times the interval's slope. */
  predicate InCone(m: real, d: real) {
    if d >= 0.0 then 0.0 <= m <= 3.0 * d else 3.0 * d <= m <= 0.0
  }

  ghost predicate AllSameSide(t: seq<real>, d: seq<real>) {
    && |t| == |d| + 1
    && forall i :: 0 <= i < |d| ==> SameSide(t[i], d[i]) && SameSide(t[i + 1], d[i])
  }

  ghost predicate ConesUpTo(t: seq<real>, d: seq<real>, k: nat) {
    && |t| == |d| + 1
    && k <= |d|
    && forall i :: 0 <= i < k ==> InCone(t[i], d[i]) && InCone(t[i + 1], d[i])
  }

  /** `n` is `m` pulled towards zero, so it stays on every side and in every cone `m` was in. */
  predicate Shrunk(n: real, m: real) {
    if m >= 0.0 then 0.0 <= n <= m else m <= n <= 0.0
  }

  lemma PullBackShrinks(m: real, c: real)
    requires 0.0 <= c <= 1.0
    ensures Shrunk(c * m, m)
  {
    if m >= 0.0 { ScaleLe(c, 1.0, m); ProductPositive(c, m); }
    else { ScaleLe(c, 1.0, -m); ProductPositive(c, -m); assert c * -m == -(c * m); }
  }

  /** A tangent whose ratio to the slope lies in [0, 3] is in the cone. */
  lemma RatioInCone(a: real, d: real)
    requires 0.0 <= a <= 3.0
    ensures InCone(a * d, d)
  {
    if d >= 0.0 { ScaleLe(a, 3.0, d); ProductPositive(a, d); }
    else { ScaleLe(a, 3.0, -d); ProductPositive(a, -d); assert a * -d == -(a * d); }
  }

  lemma RatioNonNegative(m: real, d: real)
    requires d != 0.0 && SameSide(m, d)
    ensures Ratio(m, d) >= 0.0
  {
    if d < 0.0 { assert m / d == -m / -d; }
  }

  /** One side of the pull-back: the ratio `a`, scaled by 3/r, drops below 3. */
  lemma PulledRatio(a: real, norm: real, r: real)
    requires a >= 0.0 && a * a <= norm && norm > 9.0 && r > 0.0 && r * r >= norm
    ensures 0.0 <= 3.0 / r <= 1.0 && 0.0 <= 3.0 / r * a <= 3.0
  {
    RootLe(3.0, r);
    RootLe(a, r);
    DivBounds(3.0, r, 0.0, 1.0);
    ProductPositive(3.0 / r, a);
    ScaleLe(a, r, 3.0 / r);
    DivMul(3.0, r);
  }

  lemma PulledBack(m: real, d: real, a: real, c: real)
    requires a * d == m && 0.0 <= c <= 1.0 && 0.0 <= c * a <= 3.0
    ensures Shrunk(c * a * d, m) && InCone(c * a * d, d)
  {
    PullBackShrinks(m, c);
    RatioInCone(c * a, d);
    calc { c * a * d; c * (a * d); c * m; }
  }

  lemma PulledSide(m: real, d: real, norm: real, r: real)
    requires d != 0.0 && SameSide(m, d)
    requires norm > 9.0 && Covers(r, norm)
    requires Ratio(m, d) * Ratio(m, d) <= norm
    ensures var n := PullBack(Ratio(m, d), d, r); Shrunk(n, m) && InCone(n, d)
  {
    var ratio := Ratio(m, d);
    RatioNonNegative(m, d);
    PulledRatio(ratio, norm, r);
    DivMul(m, d);
    PulledBack(m, d, ratio, 3.0 / r);
  }

  lemma KeptSide(m: real, d: real)
    requires d != 0.0 && SameSide(m, d)
    requires Ratio(m, d) * Ratio(m, d) <= 9.0
    ensures InCone(m, d)
  {
    RatioNonNegative(m, d);
    RootLe(Ratio(m, d), 3.0);
    DivMul(m, d);
    RatioInCone(Ratio(m, d), d);
  }

  lemma SquaresBelowNorm(a: real, b: real)
    ensures a * a <= Norm(a, b) && b * b <= Norm(a, b)
  {
    SquareNonNegative(a);
    SquareNonNegative(b);
  }

  /** One interval's step: both tangents shrink, and both land in the interval's cone. */
  lemma LimitPairMeets(m: real, n: real, d: real, root: real -> real)
    requires RoundsUp(root) && SameSide(m, d) && SameSide(n, d)
    ensures var (p, q) := LimitPair(m, n, d, root);
            Shrunk(p, m) && Shrunk(q, n) && InCone(p, d) && InCone(q, d)
  {
    if Abs(d) > FLAT_SLOPE {
      var left, right := Ratio(m, d), Ratio(n, d);
      var norm := Norm(left, right);
      SquaresBelowNorm(left, right);
      if norm <= 9.0 {
        KeptSide(m, d);
        KeptSide(n, d);
      } else {
        assert Covers(root(norm), norm);
        PulledSide(m, d, norm, root(norm));
        PulledSide(n, d, norm, root(norm));
      }
    }
  }

  /** One step puts its own interval into the cone and evicts no neighbour. */
  lemma LimitStepKeeps(t: seq<real>, d: seq<real>, i: nat, root: real -> real)
    requires RoundsUp(root) && AllSameSide(t, d) && i < |d| && ConesUpTo(t, d, i)
    ensures AllSameSide(LimitStep(t, d, i, root), d)
    ensures ConesUpTo(LimitStep(t, d, i, root), d, i + 1)
  {
    LimitPairMeets(t[i], t[i + 1], d[i], root);
  }

  lemma {:induction false} LimitedKeeps(t: seq<real>, d: seq<real>, k: nat, root: real -> real)
    requires RoundsUp(root) && AllSameSide(t, d) && k <= |d|
    ensures AllSameSide(Limited(t, d, k, root), d)
    ensures ConesUpTo(Limited(t, d, k, root), d, k)
  {
    if k > 0 {
      LimitedKeeps(t, d, k - 1, root);
      hide AllSameSide, ConesUpTo, LimitStep, RoundsUp;
      LimitStepKeeps(Limited(t, d, k - 1, root), d, k - 1, root);
    }
  }

  lemma ThreePointSameSide(d: seq<real>, i: nat)
    requires |d| >= 1 && i <= |d|
    ensures i > 0 ==> SameSide(ThreePoint(d, i), d[i - 1])
    ensures i < |d| ==> SameSide(ThreePoint(d, i), d[i])
  {
    if 0 < i < |d| {
      var a, b := d[i - 1], d[i];
      if a >= 0.0 && b <= 0.0 { ProductPositive(a, -b); assert a * -b == -(a * b); }
      if a <= 0.0 && b >= 0.0 { ProductPositive(-a, b); assert -a * b == -(a * b); }
    }
  }

  lemma ThreePointsSameSide(d: seq<real>)
    requires |d| >= 1
    ensures AllSameSide(ThreePoints(d), d)
  {
    forall i | 0 <= i <= |d|
      ensures i > 0 ==> SameSide(ThreePoints(d)[i], d[i - 1])
      ensures i < |d| ==> SameSide(ThreePoints(d)[i], d[i])
    {
      ThreePointSameSide(d, i);
    }
  }

  /**
    For every list of knots, monotone or not, every interval ends up with both tangents
    between 0 and three times its own slope, although neighbours share tangents.
   */
  lemma TangentsInCone(x: seq<real>, y: seq<real>, root: real -> real)
    requires RoundsUp(root) && Min(|x|, |y|) >= 2
    ensures ConesUpTo(Tangents(x, y, root), Slopes(x, y), |Slopes(x, y)|)
  {
    var d := Slopes(x, y);
    ThreePointsSameSide(d);
    LimitedKeeps(ThreePoints(d), d, |d|, root);
  }

  method ComputeSlopes(x: seq<real>, y: seq<real>) returns (delta: array<real>)
    requires Min(|x|, |y|) >= 2
    ensures fresh(delta) && delta[..] == Slopes(x, y)
  {
    var n := Min(|x|, |y|) - 1;
    delta := new real[n](_ => 0.0);
    for i := 0 to n
      invariant forall j :: 0 <= j < i ==> delta[j] == Slope(x, y, j)
    {
      var span := x[i + 1] - x[i];
      delta[i] := if span > 0.0 then (y[i + 1] - y[i]) / span else 0.0;
    }
  }

  method InitialTangents(delta: array<real>) returns (tangents: array<real>)
    requires delta.Length >= 1
    ensures fresh(tangents) && tangents[..] == ThreePoints(delta[..])
  {
    var count := delta.Length + 1;
    tangents := new real[count](_ => 0.0);
    tangents[0] := delta[0];
    tangents[count - 1] := delta[count - 2];
    for i := 1 to count - 1
      invariant tangents[0] == delta[0] && tangents[count - 1] == delta[count - 2]
      invariant forall j :: 0 < j < i ==> tangents[j] == ThreePoint(delta[..], j)
    {
      var left, right := delta[i - 1], delta[i];
      tangents[i] := if left * right <= 0.0 then 0.0 else (left + right) / 2.0;
    }
  }

  /** The limiting pass, rewriting the tangents in place. */
  method LimitTangents(tangents: array<real>, delta: array<real>, root: real -> real)
    requires RoundsUp(root) && tangents != delta && tangents.Length == delta.Length + 1
    modifies tangents
    ensures tangents[..] == Limited(old(tangents[..]), delta[..], delta.Length, root)
  {
    ghost var start := tangents[..];
    for i := 0 to delta.Length
      invariant delta[..] == old(delta[..])
      invariant tangents[..] == Limited(start, delta[..], i, root)
    {
      var slope := delta[i];
      ghost var pair := LimitPair(tangents[i], tangents[i + 1], slope, root);
      if Abs(slope) <= FLAT_SLOPE {
        tangents[i] := 0.0;
        tangents[i + 1] := 0.0;
        continue;
      }
      var left, right := Ratio(tangents[i], slope), Ratio(tangents[i + 1], slope);
      var norm := Norm(left, right);
      if norm <= 9.0 {
        assert pair == (tangents[i], tangents[i + 1]);
        continue;
      }
      var r := root(norm);
      assert Covers(r, norm);
      tangents[i] := PullBack(left, slope, r);
      tangents[i + 1] := PullBack(right, slope, r);
    }
  }

  method BuildMonotoneTangents(x: seq<real>, y: seq<real>, root: real -> real) returns (t: seq<real>)
    requires RoundsUp(root)
    ensures t == Tangents(x, y, root)
  {
    if Min(|x|, |y|) < 2 {
      return [];
    }
    var delta := ComputeSlopes(x, y);
    var tangents := InitialTangents(delta);
    LimitTangents(tangents, delta, root);
    t := tangents[..];
  }
}
