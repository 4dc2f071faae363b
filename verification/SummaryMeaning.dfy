/**
  What a session's summary says about its entries, field by field, in terms of the entries'
  own columns: totals, averages, the deviation, the largest fall.
 */
module SummaryMeaning {
  import opened RealFacts
  import opened JournalSummary

  function Total(xs: seq<real>): real {
    if xs == [] then 0.0 else Total(xs[..|xs| - 1]) + xs[|xs| - 1]
  }

  function TotalCount(xs: seq<nat>): nat {
    if xs == [] then 0 else TotalCount(xs[..|xs| - 1]) + xs[|xs| - 1]
  }

  /** The entries' figures, column by column. */
  datatype Columns = Columns(
    pnl: seq<real>, isValue: seq<real>, executedQty: seq<real>, requestedQty: seq<real>,
    notional: seq<real>, weightedSum: seq<real>, weight: seq<real>, okSolveTime: seq<real>, fills: seq<nat>)

  function Column(es: seq<Entry>, f: Execution -> real): (c: seq<real>)
    ensures |c| == |es| && forall i :: 0 <= i < |es| ==> c[i] == f(es[i].execution)
  {
    seq(|es|, i requires 0 <= i < |es| => f(es[i].execution))
  }

  /** Each entry's figures are its row of the columns; a failed batch has no solve time. */
  ghost predicate RowsAre(c: Columns, es: seq<Entry>) {
    && |c.pnl| == |c.isValue| == |c.executedQty| == |c.requestedQty| == |c.notional| == |es|
    && |c.weightedSum| == |c.weight| == |c.okSolveTime| == |c.fills| == |es|
    && forall i :: 0 <= i < |es| ==>
         var e := es[i].execution;
         && c.pnl[i] == e.pnl && c.isValue[i] == e.isValue && c.fills[i] == e.fillsApplied
         && c.executedQty[i] == e.executedQty && c.requestedQty[i] == e.requestedQty
         && c.notional[i] == e.executedNotional && c.weightedSum[i] == e.isWeightedSum && c.weight[i] == e.isWeight
         && c.okSolveTime[i] == if e.ok then e.solveTimeMs as real else 0.0
  }

  function OkPositions(es: seq<Entry>): set<nat> {
    set i: nat | i < |es| && es[i].execution.ok
  }

  ghost predicate CountsMean(s: Summary, c: Columns, es: seq<Entry>, totalBatches: nat) {
    && s.totalBatches == totalBatches
    && s.processedBatches == |OkPositions(es)| % 4294967296
    && s.failedBatches == (|es| - |OkPositions(es)|) % 4294967296
    && s.totalFillEvents == TotalCount(c.fills) % 4294967296
  }

  /** `m` is the mean of the squared distances from `centre`. */
  ghost predicate IsMeanSquare(m: real, xs: seq<real>, centre: real) {
    m * |xs| as real == Total(seq(|xs|, i requires 0 <= i < |xs| => (xs[i] - centre) * (xs[i] - centre)))
  }

  ghost predicate PnlMeans(s: Summary, pnl: seq<real>, root: real -> real) {
    && s.totalPnl == Total(pnl)
    && s.avgPnl * |pnl| as real == Total(pnl)
    && (exists m: real :: IsMeanSquare(m, pnl, s.avgPnl) && s.stdPnl == root(m))
    && (s.stdPnl > 0.0 ==> s.sharpe * s.stdPnl == s.avgPnl)
    && (s.stdPnl <= 0.0 ==> s.sharpe == 0.0)
  }

  /** The fall of the running result from after `i` batches to after `j`. */
  function FallOf(pnl: seq<real>, i: nat, j: nat): real
    requires i <= |pnl| && j <= |pnl|
  {
    Total(pnl[..i]) - Total(pnl[..j])
  }

  ghost predicate IsLargestFall(d: real, pnl: seq<real>) {
    && (forall i, j :: 0 <= i <= j <= |pnl| ==> FallOf(pnl, i, j) <= d)
    && (exists i, j :: 0 <= i <= j <= |pnl| && FallOf(pnl, i, j) == d)
  }

  ghost predicate ShortfallMeans(s: Summary, c: Columns, rule: string) {
    if rule != "simple_mean" && Total(c.weight) > 0.0
    then s.avgIs * Total(c.weight) == Total(c.weightedSum)
    else s.avgIs * |c.isValue| as real == Total(c.isValue)
  }

  ghost predicate VolumesMean(s: Summary, c: Columns) {
    && (s.noRequestedVolume <==> |c.requestedQty| > 0 && Total(c.requestedQty) <= 0.0)
    && (if Total(c.requestedQty) > 0.0
        then s.avgFillRate * Total(c.requestedQty) == 100.0 * Total(c.executedQty)
        else s.avgFillRate == 0.0)
    && (if Total(c.executedQty) > 0.0
        then s.avgVwap * Total(c.executedQty) == Total(c.notional)
        else s.avgVwap == 0.0)
  }

  ghost predicate SolveTimeMeans(s: Summary, c: Columns) {
    if s.processedBatches > 0
    then s.avgSolveTimeMs * s.processedBatches as real == Total(c.okSolveTime)
    else s.avgSolveTimeMs == 0.0
  }

  ghost predicate LabelsMean(s: Summary, rule: string, source: string) {
    && s.avgisRule == (if rule == "" then "volume_weighted" else rule)
    && s.decisionPriceSource == (if source == "" then "marketdata_mid_with_clearprice_fallback" else source)
  }

  /** Every field of the summary, from the columns. */
  ghost predicate SummaryRight(s: Summary, c: Columns, es: seq<Entry>, totalBatches: nat,
                               rule: string, source: string, root: real -> real)
  {
    && CountsMean(s, c, es, totalBatches)
    && (es != [] ==> PnlMeans(s, c.pnl, root) && ShortfallMeans(s, c, rule))
    && (es == [] ==> s.totalPnl == s.avgPnl == s.avgIs == s.stdPnl == s.sharpe == 0.0)
    && IsLargestFall(s.maxDrawdown, c.pnl)
    && VolumesMean(s, c)
    && SolveTimeMeans(s, c)
    && LabelsMean(s, rule, source)
  }

  /** The summary of any entries is right about their columns. */
  ghost predicate SummaryMeans(s: Summary, es: seq<Entry>, totalBatches: nat,
                               rule: string, source: string, root: real -> real)
  {
    forall c :: RowsAre(c, es) ==> SummaryRight(s, c, es, totalBatches, rule, source, root)
  }

  // -------------------------------------------------------------- columns

  lemma {:induction false} TotalIsSum(xs: seq<real>, es: seq<Entry>, f: Execution -> real)
    requires |xs| == |es| && forall i :: 0 <= i < |es| ==> xs[i] == f(es[i].execution)
    ensures Total(xs) == Sum(es, f)
  {
    if es != [] { TotalIsSum(xs[..|xs| - 1], es[..|es| - 1], f); }
  }

  lemma {:induction false} TotalIsCount(xs: seq<nat>, es: seq<Entry>, f: Execution -> nat)
    requires |xs| == |es| && forall i :: 0 <= i < |es| ==> xs[i] == f(es[i].execution)
    ensures TotalCount(xs) == Count(es, f)
  {
    if es != [] { TotalIsCount(xs[..|xs| - 1], es[..|es| - 1], f); }
  }

  lemma {:induction false} OksCounted(es: seq<Entry>)
    ensures |OkPositions(es)| == Count(es, Ok)
  {
    if es == [] {
      assert OkPositions(es) == {};
    } else {
      var init := es[..|es| - 1];
      OksCounted(init);
      var last: set<nat> := if es[|es| - 1].execution.ok then {|es| - 1} else {};
      assert OkPositions(es) == OkPositions(init) + last;
    }
  }

  /** The columns' totals are the sums the pass accumulates. */
  ghost predicate TotalsAreSums(c: Columns, es: seq<Entry>) {
    && Total(c.pnl) == Sum(es, Pnl) && Total(c.isValue) == Sum(es, IsValue)
    && Total(c.executedQty) == Sum(es, ExecutedQty) && Total(c.requestedQty) == Sum(es, RequestedQty)
    && Total(c.notional) == Sum(es, ExecutedNotional) && Total(c.weightedSum) == Sum(es, WeightedSum)
    && Total(c.weight) == Sum(es, Weight) && Total(c.okSolveTime) == Sum(es, OkSolveTime)
    && TotalCount(c.fills) == Count(es, Fills)
  }

  lemma ColumnTotals(c: Columns, es: seq<Entry>)
    requires RowsAre(c, es)
    ensures TotalsAreSums(c, es)
  {
    hide Total, TotalCount, Sum, Count;
    TotalIsSum(c.pnl, es, Pnl);
    TotalIsSum(c.isValue, es, IsValue);
    TotalIsSum(c.executedQty, es, ExecutedQty);
    TotalIsSum(c.requestedQty, es, RequestedQty);
    TotalIsSum(c.notional, es, ExecutedNotional);
    TotalIsSum(c.weightedSum, es, WeightedSum);
    TotalIsSum(c.weight, es, Weight);
    TotalIsSum(c.okSolveTime, es, OkSolveTime);
    TotalIsCount(c.fills, es, Fills);
  }

  // --------------------------------------------------------------- fields

  lemma MeanTimes(total: real, n: nat)
    requires n > 0
    ensures MeanOf(total, n) * n as real == total
  {
    DivMul(total, n as real);
  }

  lemma RatioTimes(a: real, b: real)
    ensures b > 0.0 ==> Ratio(a, b) * b == a
    ensures b > 0.0 ==> Ratio(a, b) * 100.0 * b == 100.0 * a
    ensures b <= 0.0 ==> Ratio(a, b) == 0.0
  {
    if b > 0.0 {
      DivMul(a, b);
      var q := Ratio(a, b);
      assert q * 100.0 * b == 100.0 * (q * b);
    }
  }

  lemma {:induction false} SquaresTotal(pnl: seq<real>, squares: seq<real>, es: seq<Entry>, centre: real)
    requires |pnl| == |squares| == |es| && forall i :: 0 <= i < |es| ==> pnl[i] == es[i].execution.pnl
    requires forall i :: 0 <= i < |es| ==> squares[i] == (pnl[i] - centre) * (pnl[i] - centre)
    ensures Total(squares) == SquaredDeviation(es, centre)
  {
    if es != [] {
      var n := |es| - 1;
      SquaresTotal(pnl[..n], squares[..n], es[..n], centre);
      assert squares[n] == Square(es[n].execution.pnl - centre);
    }
  }

  lemma MeanSquare(pnl: seq<real>, es: seq<Entry>, centre: real)
    requires |pnl| == |es| > 0 && forall i :: 0 <= i < |es| ==> pnl[i] == es[i].execution.pnl
    ensures IsMeanSquare(MeanOf(SquaredDeviation(es, centre), |es|), pnl, centre)
  {
    var squares := seq(|pnl|, i requires 0 <= i < |pnl| => (pnl[i] - centre) * (pnl[i] - centre));
    SquaresTotal(pnl, squares, es, centre);
    MeanTimes(SquaredDeviation(es, centre), |es|);
  }

  lemma FallsAgree(pnl: seq<real>, es: seq<Entry>, i: nat)
    requires |pnl| == |es| && (forall k :: 0 <= k < |es| ==> pnl[k] == es[k].execution.pnl) && i <= |es|
    ensures Total(pnl[..i]) == Cumulative(es, i)
  {
    TotalIsSum(pnl[..i], es[..i], Pnl);
  }

  lemma LargestFall(pnl: seq<real>, es: seq<Entry>)
    requires |pnl| == |es| && forall k :: 0 <= k < |es| ==> pnl[k] == es[k].execution.pnl
    ensures IsLargestFall(Drawdown(es), pnl)
  {
    DrawdownIsMaximum(es);
    forall i, j | 0 <= i <= j <= |es| ensures FallOf(pnl, i, j) == Fall(es, i, j) {
      FallsAgree(pnl, es, i);
      FallsAgree(pnl, es, j);
    }
    hide Fall, FallOf, Drawdown;
    var a, b :| 0 <= a <= b <= |es| && Fall(es, a, b) == Drawdown(es);
    assert FallOf(pnl, a, b) == Drawdown(es);
  }

  lemma CountsField(s: Summary, c: Columns, es: seq<Entry>, totalBatches: nat, rule: string, source: string,
                    root: real -> real)
    requires s == Summarize(es, totalBatches, rule, source, root) && TotalsAreSums(c, es)
    ensures CountsMean(s, c, es, totalBatches)
  {
    OksCounted(es);
    EveryBatchCounted(es);
    hide Count, Sum, Total, TotalCount, Drawdown, SquaredDeviation;
  }

  lemma PnlField(s: Summary, c: Columns, es: seq<Entry>, totalBatches: nat, rule: string, source: string,
                 root: real -> real)
    requires s == Summarize(es, totalBatches, rule, source, root) && RowsAre(c, es) && TotalsAreSums(c, es)
    requires es != []
    ensures PnlMeans(s, c.pnl, root)
  {
    hide Count, Sum, Total, TotalCount, Drawdown, SquaredDeviation;
    MeanTimes(Sum(es, Pnl), |es|);
    MeanSquare(c.pnl, es, s.avgPnl);
    RatioTimes(s.avgPnl, s.stdPnl);
    hide IsMeanSquare, MeanOf, Ratio;
  }

  lemma ShortfallField(s: Summary, c: Columns, es: seq<Entry>, totalBatches: nat, rule: string, source: string,
                       root: real -> real)
    requires s == Summarize(es, totalBatches, rule, source, root) && RowsAre(c, es) && TotalsAreSums(c, es)
    requires es != []
    ensures ShortfallMeans(s, c, rule)
  {
    hide Count, Sum, Total, TotalCount, Drawdown, SquaredDeviation;
    MeanTimes(Sum(es, IsValue), |es|);
    if Sum(es, Weight) > 0.0 { DivMul(Sum(es, WeightedSum), Sum(es, Weight)); }
  }

  lemma VolumeFields(s: Summary, c: Columns, es: seq<Entry>, totalBatches: nat, rule: string, source: string,
                     root: real -> real)
    requires s == Summarize(es, totalBatches, rule, source, root) && RowsAre(c, es) && TotalsAreSums(c, es)
    ensures VolumesMean(s, c)
  {
    RatioTimes(Sum(es, ExecutedQty), Sum(es, RequestedQty));
    RatioTimes(Sum(es, ExecutedNotional), Sum(es, ExecutedQty));
    if es == [] { NothingRequested(es); }
    hide Count, Sum, Total, TotalCount, Drawdown, SquaredDeviation, Ratio;
  }

  lemma NothingRequested(es: seq<Entry>)
    requires es == []
    ensures Sum(es, RequestedQty) == 0.0
  {
  }

  lemma SolveTimeField(s: Summary, c: Columns, es: seq<Entry>, totalBatches: nat, rule: string, source: string,
                       root: real -> real)
    requires s == Summarize(es, totalBatches, rule, source, root) && TotalsAreSums(c, es)
    ensures SolveTimeMeans(s, c)
  {
    hide Count, Sum, Total, TotalCount, Drawdown, SquaredDeviation;
    if s.processedBatches > 0 { MeanTimes(Sum(es, OkSolveTime), s.processedBatches); }
  }

  /** Every summary is right about the columns of its entries. */
  lemma SummariesMean(es: seq<Entry>, totalBatches: nat, rule: string, source: string, root: real -> real)
    ensures SummaryMeans(Summarize(es, totalBatches, rule, source, root), es, totalBatches, rule, source, root)
  {
    var s := Summarize(es, totalBatches, rule, source, root);
    forall c | RowsAre(c, es) ensures SummaryRight(s, c, es, totalBatches, rule, source, root) {
      ColumnTotals(c, es);
      CountsField(s, c, es, totalBatches, rule, source, root);
      if es != [] {
        PnlField(s, c, es, totalBatches, rule, source, root);
        ShortfallField(s, c, es, totalBatches, rule, source, root);
      }
      LargestFall(c.pnl, es);
      VolumeFields(s, c, es, totalBatches, rule, source, root);
      SolveTimeField(s, c, es, totalBatches, rule, source, root);
      hide CountsMean, PnlMeans, ShortfallMeans, IsLargestFall, VolumesMean, SolveTimeMeans;
      hide Sum, Count, Drawdown, SquaredDeviation, TotalsAreSums, RowsAre, AverageIs;
    }
  }

  /** Every list of entries has its columns. */
  lemma ColumnsExist(es: seq<Entry>) returns (c: Columns)
    ensures RowsAre(c, es)
  {
    c := Columns(Column(es, Pnl), Column(es, IsValue), Column(es, ExecutedQty), Column(es, RequestedQty),
      Column(es, ExecutedNotional), Column(es, WeightedSum), Column(es, Weight), Column(es, OkSolveTime),
      seq(|es|, i requires 0 <= i < |es| => es[i].execution.fillsApplied));
  }
}
