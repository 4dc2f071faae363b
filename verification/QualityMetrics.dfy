/**
  Distribution statistics for the quality report: mean and interpolated percentiles.
  Numbers are exact reals.
 */
module QualityMetrics {
  import opened Ordering
  import opened RealFacts

  datatype Stats = Stats(mean: real, median: real, p95: real, p99: real, count: nat)

  const UINT32: nat := 0x1_0000_0000

  predicate Le(a: real, b: real) { a <= b }

  function Ceiling(x: real): int {
    if x.Floor as real == x then x.Floor else x.Floor + 1
  }

  function Blend(a: real, b: real, f: real): real {
    Times(a, 1.0 - f) + Times(b, f)
  }

  /** The value at a fractional index, between its two neighbours. */
  function ValueAt(sorted: seq<real>, idx: real): real
    requires 0.0 <= idx <= (|sorted| - 1) as real
  {
    var lo, hi := idx.Floor, Ceiling(idx);
    if lo == hi || hi >= |sorted| then sorted[lo]
    else Blend(sorted[lo], sorted[hi], idx - lo as real)
  }

  lemma IndexInRange(p: real, n: nat)
    requires 0.0 <= p <= 1.0
    ensures 0.0 <= Times(p, n as real) <= n as real
  {
    ScaleLe(p, 1.0, n as real);
    ProductPositive(p, n as real);
  }

  lemma IndicesOrdered(p: real, q: real, n: nat)
    requires 0.0 <= p <= q <= 1.0
    ensures 0.0 <= Times(p, n as real) <= Times(q, n as real) <= n as real
  {
    IndexInRange(p, n);
    IndexInRange(q, n);
    ScaleLe(p, q, n as real);
  }

  function Percentile(sorted: seq<real>, p: real): real
    requires 0.0 <= p <= 1.0
  {
    if sorted == [] then 0.0
    else if |sorted| == 1 then sorted[0]
    else
      IndexInRange(p, |sorted| - 1);
      ValueAt(sorted, Times(p, (|sorted| - 1) as real))
  }

  function Sum(s: seq<real>): real {
    if s == [] then 0.0 else Sum(s[..|s| - 1]) + s[|s| - 1]
  }

  function StatsOf(values: seq<real>): Stats {
    if values == [] then Stats(0.0, 0.0, 0.0, 0.0, 0)
    else
      var sorted := Sort(values, Le);
      Stats(Sum(values) / |values| as real, Percentile(sorted, 0.50), Percentile(sorted, 0.95),
            Percentile(sorted, 0.99), |values| % UINT32)
  }

  method ComputeStats(values: seq<real>) returns (stats: Stats)
    ensures stats == StatsOf(values)
  {
    hide Percentile;
    if |values| == 0 {
      return Stats(0.0, 0.0, 0.0, 0.0, 0);
    }
    var sum := 0.0;
    for i := 0 to |values|
      invariant sum == Sum(values[..i])
    {
      assert values[..i + 1][..i] == values[..i];
      sum := sum + values[i];
    }
    assert values[..|values|] == values;
    var sorted := Sort(values, Le);
    stats := Stats(sum / |values| as real, Percentile(sorted, 0.50), Percentile(sorted, 0.95),
      Percentile(sorted, 0.99), |values| % UINT32);
  }

  // ---------------------------------------------------------- percentiles

  lemma BlendBetween(a: real, b: real, f: real)
    requires a <= b && 0.0 <= f <= 1.0
    ensures a <= Blend(a, b, f) <= b
  {
    hide Times;
    BlendIs(a, b, f);
    TimesBetween(b - a, f);
  }

  lemma BlendOrdered(a: real, b: real, f: real, g: real)
    requires a <= b && f <= g
    ensures Blend(a, b, f) <= Blend(a, b, g)
  {
    hide Times;
    BlendIs(a, b, f);
    BlendIs(a, b, g);
    TimesOrdered(b - a, f, g);
  }

  lemma BlendIs(a: real, b: real, f: real)
    ensures Blend(a, b, f) == a + Times(b - a, f)
  {
  }

  lemma TimesBetween(w: real, f: real)
    requires w >= 0.0 && 0.0 <= f <= 1.0
    ensures 0.0 <= Times(w, f) <= w
  {
    ProductPositive(w, f);
    ScaleLe(f, 1.0, w);
  }

  lemma TimesOrdered(w: real, f: real, g: real)
    requires w >= 0.0 && f <= g
    ensures Times(w, f) <= Times(w, g)
  {
    ScaleLe(f, g, w);
  }

  lemma ValueBetweenNeighbours(sorted: seq<real>, x: real)
    requires Sorted(sorted, Le) && 0.0 <= x <= (|sorted| - 1) as real
    ensures sorted[x.Floor] <= ValueAt(sorted, x)
    ensures ValueAt(sorted, x) <= sorted[if Ceiling(x) < |sorted| then Ceiling(x) else x.Floor]
  {
    hide Blend;
    var lo, hi := x.Floor, Ceiling(x);
    if lo < hi < |sorted| {
      assert Le(sorted[lo], sorted[hi]);
      BlendBetween(sorted[lo], sorted[hi], x - lo as real);
    }
  }

  lemma ValueOrdered(sorted: seq<real>, x: real, y: real)
    requires Sorted(sorted, Le) && 0.0 <= x <= y <= (|sorted| - 1) as real
    ensures ValueAt(sorted, x) <= ValueAt(sorted, y)
  {
    hide Blend;
    ValueBetweenNeighbours(sorted, x);
    ValueBetweenNeighbours(sorted, y);
    if x.Floor == y.Floor {
      var lo, hi := x.Floor, Ceiling(y);
      if lo < hi < |sorted| {
        assert Le(sorted[lo], sorted[hi]);
        BlendBetween(sorted[lo], sorted[hi], y - lo as real);
        if Ceiling(x) == hi { BlendOrdered(sorted[lo], sorted[hi], x - lo as real, y - lo as real); }
      }
    } else {
      var hi := if Ceiling(x) < |sorted| then Ceiling(x) else x.Floor;
      assert hi <= y.Floor;
      if hi < y.Floor { assert Le(sorted[hi], sorted[y.Floor]); }
    }
  }

  /** Percentiles never decrease with p, and run from the minimum to the maximum. */
  lemma PercentileMonotone(sorted: seq<real>, p: real, q: real)
    requires Sorted(sorted, Le) && sorted != [] && 0.0 <= p <= q <= 1.0
    ensures sorted[0] <= Percentile(sorted, p) <= Percentile(sorted, q) <= sorted[|sorted| - 1]
  {
    var n := |sorted| - 1;
    if n > 0 {
      var x, y := Times(p, n as real), Times(q, n as real);
      IndicesOrdered(p, q, n);
      hide Times, ValueAt;
      ValueOrdered(sorted, x, y);
      ValueBetweenNeighbours(sorted, x);
      ValueBetweenNeighbours(sorted, y);
      FirstAndLast(sorted, x.Floor);
      FirstAndLast(sorted, if Ceiling(y) < |sorted| then Ceiling(y) else y.Floor);
    }
  }

  lemma FirstAndLast(sorted: seq<real>, i: nat)
    requires Sorted(sorted, Le) && i < |sorted|
    ensures sorted[0] <= sorted[i] <= sorted[|sorted| - 1]
  {
    if i > 0 { assert Le(sorted[0], sorted[i]); }
    if i < |sorted| - 1 { assert Le(sorted[i], sorted[|sorted| - 1]); }
  }

  /** At p = k/(n-1) the percentile is the k-th smallest value itself. */
  lemma PercentileAtRank(sorted: seq<real>, k: nat, p: real)
    requires k < |sorted| && |sorted| > 1 && 0.0 <= p <= 1.0
    requires Times(p, (|sorted| - 1) as real) == k as real
    ensures Percentile(sorted, p) == sorted[k]
  {
  }

  // ------------------------------------------------------ order and multiset

  lemma LeIsTotal()
    ensures TotalPreorder(Le)
  {
  }

  lemma {:induction false} SumAppend(a: seq<real>, b: seq<real>)
    ensures Sum(a + b) == Sum(a) + Sum(b)
  {
    if b == [] {
      assert a + b == a;
    } else {
      var init := b[..|b| - 1];
      SumAppend(a, init);
      assert (a + b)[..|a + b| - 1] == a + init;
    }
  }

  /** Leaving one entry out of a list lowers its sum by that entry. */
  lemma SumSplit(a: seq<real>, b: seq<real>, c: seq<real>)
    requires |b| == 1
    ensures Sum(a + (b + c)) == Sum(a + c) + b[0]
  {
    SumOne(b);
    hide Sum;
    SumAppend(a, b + c);
    SumAppend(b, c);
    SumAppend(a, c);
  }

  lemma SumWithout(s: seq<real>, k: nat)
    requires k < |s|
    ensures Sum(s) == Sum(Without(s, k)) + s[k]
  {
    hide Sum;
    Regrouped(s, k);
    SumSplit(s[..k], [s[k]], s[k + 1..]);
  }

  lemma Regrouped(s: seq<real>, k: nat)
    requires k < |s|
    ensures s == s[..k] + ([s[k]] + s[k + 1..])
    ensures Without(s, k) == s[..k] + s[k + 1..]
  {
  }

  lemma SumOne(s: seq<real>)
    requires |s| == 1
    ensures Sum(s) == s[0]
  {
    assert s[..0] == [];
  }

  lemma {:induction false} SumOfMultiset(a: seq<real>, b: seq<real>)
    requires multiset(a) == multiset(b)
    ensures Sum(a) == Sum(b) && |a| == |b|
    decreases |a|
  {
    assert |multiset(a)| == |a| && |multiset(b)| == |b|;
    if a != [] {
      var last := |a| - 1;
      assert a[last] in multiset(b);
      var k :| 0 <= k < |b| && b[k] == a[last];
      assert a == a[..last] + [a[last]];
      WithoutMultiset(b, k);
      hide Without;
      SumOfMultiset(a[..last], Without(b, k));
      SumWithout(b, k);
    }
  }

  /** The statistics depend only on which values there are, not on their order. */
  lemma StatsOfMultiset(a: seq<real>, b: seq<real>)
    requires multiset(a) == multiset(b)
    ensures StatsOf(a) == StatsOf(b)
  {
    LeIsTotal();
    SumOfMultiset(a, b);
    hide Percentile, Sum, TotalPreorder;
    SortedRowsSame(a, b, Le);
  }

  lemma {:induction false} SumBetween(s: seq<real>, lo: real, hi: real)
    requires forall i :: 0 <= i < |s| ==> lo <= s[i] <= hi
    ensures Times(|s| as real, lo) <= Sum(s) <= Times(|s| as real, hi)
  {
    hide Times;
    if s == [] {
      TimesZero(|s| as real, lo);
      TimesZero(|s| as real, hi);
    } else {
      SumBetween(s[..|s| - 1], lo, hi);
      assert |s| as real == (|s| - 1) as real + 1.0;
      TimesDistributes(lo, (|s| - 1) as real, 1.0);
      TimesDistributes(hi, (|s| - 1) as real, 1.0);
      TimesUnits(lo, 1.0);
      TimesUnits(hi, 1.0);
    }
  }

  lemma MeanBetween(s: seq<real>, lo: real, hi: real)
    requires s != [] && forall i :: 0 <= i < |s| ==> lo <= s[i] <= hi
    ensures lo <= Sum(s) / |s| as real <= hi
  {
    hide Sum;
    SumBetween(s, lo, hi);
    DivBounds(Sum(s), |s| as real, lo, hi);
  }

  lemma SortEnds(values: seq<real>)
    requires values != []
    ensures var sorted := Sort(values, Le);
            && Sorted(sorted, Le)
            && sorted[0] in values && sorted[|sorted| - 1] in values
            && forall i :: 0 <= i < |values| ==> sorted[0] <= values[i] <= sorted[|sorted| - 1]
  {
    LeIsTotal();
    SortSorts(values, Le);
    hide TotalPreorder, Sort;
    var sorted := Sort(values, Le);
    assert sorted[0] in multiset(sorted) && sorted[|sorted| - 1] in multiset(sorted);
    assert sorted[0] in multiset(values) && sorted[|sorted| - 1] in multiset(values);
    forall k | 0 <= k < |values| ensures sorted[0] <= values[k] <= sorted[|sorted| - 1] {
      assert values[k] in multiset(values);
      assert values[k] in multiset(sorted);
      var i :| 0 <= i < |sorted| && sorted[i] == values[k];
      FirstAndLast(sorted, i);
    }
  }

  /** Minimum, median, p95, p99 and maximum come in that order, with the mean in between. */
  lemma StatsOrdered(values: seq<real>)
    requires values != []
    ensures var s, sorted := StatsOf(values), Sort(values, Le);
            var lo, hi := sorted[0], sorted[|sorted| - 1];
            && lo <= s.median <= s.p95 <= s.p99 <= hi
            && lo <= s.mean <= hi
            && lo in values && hi in values
            && forall i :: 0 <= i < |values| ==> lo <= values[i] <= hi
  {
    SortEnds(values);
    var sorted := Sort(values, Le);
    hide Percentile, Sum, Sort;
    PercentileMonotone(sorted, 0.50, 0.95);
    PercentileMonotone(sorted, 0.95, 0.99);
    MeanBetween(values, sorted[0], sorted[|sorted| - 1]);
  }

  // ----------------------------------------------------- the statistics

  /** The value at a position between ranks: `f` of the way from rank `k` to the next. */
  predicate AtPosition(value: real, sorted: seq<real>, position: real) {
    var k := position.Floor;
    0 <= k < |sorted|
    && if position == k as real then value == sorted[k]
       else k + 1 < |sorted| && value - sorted[k] == (position - k as real) * (sorted[k + 1] - sorted[k])
  }

  lemma BlendPosition(a: real, b: real, f: real)
    ensures Blend(a, b, f) - a == f * (b - a)
  {
  }

  lemma PercentilePosition(sorted: seq<real>, p: real, position: real)
    requires |sorted| >= 1 && 0.0 <= p <= 1.0 && position == p * (|sorted| - 1) as real
    ensures AtPosition(Percentile(sorted, p), sorted, position)
  {
    if |sorted| == 1 {
      assert position == 0.0;
    } else {
      IndexInRange(p, |sorted| - 1);
      assert Times(p, (|sorted| - 1) as real) == position;
      var k := position.Floor;
      hide Times;
      if position != k as real {
        BlendPosition(sorted[k], sorted[k + 1], position - k as real);
        hide Blend;
      }
    }
  }

  /**
    The statistics in numbers.  For the values in ascending order, the median is read halfway
    along the ranks, the others at 95 and 99 per cent of the way, in proportion between two
    ranks; the mean times the number of values is their sum.
   */
  lemma StatsMeaning(values: seq<real>, sorted: seq<real>)
    requires values != [] && multiset(sorted) == multiset(values)
    requires forall i, j :: 0 <= i < j < |sorted| ==> sorted[i] <= sorted[j]
    ensures var s, last := StatsOf(values), (|values| - 1) as real;
            && AtPosition(s.median, sorted, 0.5 * last)
            && AtPosition(s.p95, sorted, 0.95 * last)
            && AtPosition(s.p99, sorted, 0.99 * last)
            && s.mean * |values| as real == Sum(values)
            && s.count == |values| % 0x1_0000_0000
  {
    hide Sort, Percentile, AtPosition, Sum, StatsOf;
    SortedIsSort(values, sorted);
    StatsParts(values);
    var last := (|values| - 1) as real;
    PercentilePosition(sorted, 0.50, 0.5 * last);
    PercentilePosition(sorted, 0.95, 0.95 * last);
    PercentilePosition(sorted, 0.99, 0.99 * last);
  }

  lemma SortedIsSort(values: seq<real>, sorted: seq<real>)
    requires multiset(sorted) == multiset(values)
    requires forall i, j :: 0 <= i < j < |sorted| ==> sorted[i] <= sorted[j]
    ensures sorted == Sort(values, Le) && |sorted| == |values|
  {
    assert |multiset(sorted)| == |sorted| && |multiset(values)| == |values|;
    LeIsTotal();
    SortedRowsSame(values, values, Le);
    assert SortOf(sorted, values, Le);
    hide TotalPreorder, Sort, SortOf;
  }

  lemma StatsParts(values: seq<real>)
    requires values != []
    ensures var s, sorted := StatsOf(values), Sort(values, Le);
            && s.median == Percentile(sorted, 0.50) && s.p95 == Percentile(sorted, 0.95)
            && s.p99 == Percentile(sorted, 0.99) && s.count == |values| % 0x1_0000_0000
            && s.mean * |values| as real == Sum(values)
  {
    hide Sort, Percentile, Sum;
    DivMul(Sum(values), |values| as real);
  }

  lemma NoValues()
    ensures StatsOf([]) == Stats(0.0, 0.0, 0.0, 0.0, 0)
  {
  }

  /** The sum, value by value. */
  lemma SumOfTwo(a: seq<real>, x: real)
    ensures Sum([]) == 0.0 && Sum(a + [x]) == Sum(a) + x
  {
    assert (a + [x])[..|a|] == a;
  }
}
