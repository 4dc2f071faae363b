/**
  The summary of a replay session: one pass over the journal's entries, and what each of its
  fields is in terms of the entries' own columns.

  Amounts are exact reals; the square root of the deviation is a parameter.
  32-bit counters wrap around.
 */
module JournalSummary {
  import opened RealFacts

  datatype Execution = Execution(
    ok: bool, pnl: real, isValue: real, fillsApplied: nat, solveTimeMs: nat,
    executedQty: real, requestedQty: real, executedNotional: real, isWeightedSum: real, isWeight: real)

  datatype Entry = Entry(batchId: string, log: string, execution: Execution)

  const UINT32: nat := 0x1_0000_0000

  function Sum(es: seq<Entry>, f: Execution -> real): real {
    if es == [] then 0.0 else Sum(es[..|es| - 1], f) + f(es[|es| - 1].execution)
  }

  function Count(es: seq<Entry>, f: Execution -> nat): nat {
    if es == [] then 0 else Count(es[..|es| - 1], f) + f(es[|es| - 1].execution)
  }

  function Pnl(e: Execution): real { e.pnl }
  function IsValue(e: Execution): real { e.isValue }
  function OkSolveTime(e: Execution): real { if e.ok then e.solveTimeMs as real else 0.0 }
  function ExecutedQty(e: Execution): real { e.executedQty }
  function RequestedQty(e: Execution): real { e.requestedQty }
  function ExecutedNotional(e: Execution): real { e.executedNotional }
  function WeightedSum(e: Execution): real { e.isWeightedSum }
  function Weight(e: Execution): real { e.isWeight }
  function Ok(e: Execution): nat { if e.ok then 1 else 0 }
  function Failed(e: Execution): nat { if e.ok then 0 else 1 }
  function Fills(e: Execution): nat { e.fillsApplied }

  /** Cumulative result after the first `k` batches. */
  function Cumulative(es: seq<Entry>, k: nat): real
    requires k <= |es|
  {
    Sum(es[..k], Pnl)
  }

  function MaxR(a: real, b: real): real { if a < b then b else a }

  /** The largest cumulative result so far, counting the start. */
  function Peak(es: seq<Entry>): real {
    if es == [] then 0.0 else MaxR(Peak(es[..|es| - 1]), Sum(es, Pnl))
  }

  function Drawdown(es: seq<Entry>): real {
    if es == [] then 0.0 else MaxR(Drawdown(es[..|es| - 1]), Peak(es) - Sum(es, Pnl))
  }

  lemma CumulativePrefix(es: seq<Entry>, k: nat)
    requires |es| > 0 && k <= |es|
    ensures k < |es| ==> Cumulative(es[..|es| - 1], k) == Cumulative(es, k)
    ensures k == |es| ==> Cumulative(es, k) == Sum(es, Pnl)
  {
    hide Sum;
    if k < |es| { assert es[..|es| - 1][..k] == es[..k]; } else { assert es[..k] == es; }
  }

  lemma {:induction false} PeakIsMaximum(es: seq<Entry>)
    ensures forall i :: 0 <= i <= |es| ==> Cumulative(es, i) <= Peak(es)
    ensures exists i :: 0 <= i <= |es| && Cumulative(es, i) == Peak(es)
  {
    if es == [] {
      assert Cumulative(es, 0) == 0.0;
    } else {
      var init := es[..|es| - 1];
      PeakIsMaximum(init);
      forall i | 0 <= i <= |es|
        ensures i < |es| ==> Cumulative(init, i) == Cumulative(es, i)
        ensures i == |es| ==> Cumulative(es, i) == Sum(es, Pnl)
      {
        CumulativePrefix(es, i);
      }
      hide Cumulative, Sum;
      var j :| 0 <= j <= |init| && Cumulative(init, j) == Peak(init);
      assert Cumulative(es, if Peak(es) == Peak(init) then j else |es|) == Peak(es);
    }
  }

  /** A fall of the cumulative result from an earlier to a later point. */
  function Fall(es: seq<Entry>, i: nat, j: nat): real
    requires i <= j <= |es|
  {
    Cumulative(es, i) - Cumulative(es, j)
  }

  /** One pass finds the largest fall from any earlier cumulative result to any later one. */
  lemma {:induction false} DrawdownIsMaximum(es: seq<Entry>)
    ensures forall i, j :: 0 <= i <= j <= |es| ==> Fall(es, i, j) <= Drawdown(es)
    ensures exists i, j :: 0 <= i <= j <= |es| && Fall(es, i, j) == Drawdown(es)
  {
    if es == [] {
      assert Fall(es, 0, 0) == Drawdown(es);
    } else {
      var init := es[..|es| - 1];
      DrawdownIsMaximum(init);
      FallsToEnd(es);
      forall i, j | 0 <= i <= j <= |init| ensures Fall(init, i, j) == Fall(es, i, j) {
        CumulativePrefix(es, i);
        CumulativePrefix(es, j);
      }
      var a, b :| 0 <= a <= b <= |init| && Fall(init, a, b) == Drawdown(init);
      var p :| 0 <= p <= |es| && Fall(es, p, |es|) == Peak(es) - Sum(es, Pnl);
      hide Fall, Sum, Peak;
      assert Fall(es, a, b) == Drawdown(init);
    }
  }

  lemma FallsToEnd(es: seq<Entry>)
    requires es != []
    ensures forall i :: 0 <= i <= |es| ==> Fall(es, i, |es|) <= Peak(es) - Sum(es, Pnl)
    ensures exists i :: 0 <= i <= |es| && Fall(es, i, |es|) == Peak(es) - Sum(es, Pnl)
  {
    PeakIsMaximum(es);
    CumulativePrefix(es, |es|);
    hide Cumulative, Peak, Sum;
    var i :| 0 <= i <= |es| && Cumulative(es, i) == Peak(es);
    assert Fall(es, i, |es|) == Peak(es) - Sum(es, Pnl);
  }

  lemma {:induction false} EveryBatchCounted(es: seq<Entry>)
    ensures Count(es, Ok) + Count(es, Failed) == |es|
  {
    if es != [] { EveryBatchCounted(es[..|es| - 1]); }
  }

  function SquaredDeviation(es: seq<Entry>, mean: real): real {
    if es == [] then 0.0
    else
      var d := es[|es| - 1].execution.pnl - mean;
      SquaredDeviation(es[..|es| - 1], mean) + Square(d)
  }

  function SquaredPnl(e: Execution): real { Square(e.pnl) }

  /** The two-pass deviation around any centre, from the plain sums. */
  lemma {:induction false} DeviationFromSums(es: seq<Entry>, m: real)
    ensures SquaredDeviation(es, m)
         == Sum(es, SquaredPnl) - 2.0 * Times(m, Sum(es, Pnl)) + Times(|es| as real, Square(m))
  {
    hide Times, Square;
    if es == [] {
      TimesUnits(m, 0.0);
      TimesUnits(Square(m), 0.0);
    } else {
      var init, x := es[..|es| - 1], es[|es| - 1].execution.pnl;
      DeviationFromSums(init, m);
      SquareOfDifference(x, m);
      TimesDistributes(m, Sum(init, Pnl), x);
      TimesDistributes(Square(m), |init| as real, 1.0);
      TimesUnits(Square(m), 1.0);
      assert |es| as real == |init| as real + 1.0;
    }
  }

  /** The variance's numerator is never negative, and vanishes only when every result is the centre. */
  lemma {:induction false} DeviationSign(es: seq<Entry>, m: real)
    ensures SquaredDeviation(es, m) >= 0.0
    ensures SquaredDeviation(es, m) == 0.0 <==> forall i :: 0 <= i < |es| ==> es[i].execution.pnl == m
  {
    if es != [] {
      var init, d := es[..|es| - 1], es[|es| - 1].execution.pnl - m;
      DeviationSign(init, m);
      SquareSign(d);
      hide Square;
      assert forall i :: 0 <= i < |init| ==> init[i] == es[i];
    }
  }

  datatype Summary = Summary(
    totalBatches: nat, processedBatches: nat, failedBatches: nat, totalFillEvents: nat,
    totalPnl: real, avgPnl: real, avgIs: real, stdPnl: real, sharpe: real, avgFillRate: real,
    avgSolveTimeMs: real, maxDrawdown: real, avgVwap: real, noRequestedVolume: bool,
    avgisRule: string, decisionPriceSource: string)

  function RuleOf(rule: string): string { if rule == "" then "volume_weighted" else rule }

  function SourceOf(source: string): string {
    if source == "" then "marketdata_mid_with_clearprice_fallback" else source
  }

  function Ratio(a: real, b: real): real { if b > 0.0 then a / b else 0.0 }

  function MeanOf(total: real, n: nat): real
    requires n > 0
  {
    total / n as real
  }

  function AverageIs(es: seq<Entry>, rule: string): real
    requires es != []
  {
    if rule != "simple_mean" && Sum(es, Weight) > 0.0 then Sum(es, WeightedSum) / Sum(es, Weight)
    else MeanOf(Sum(es, IsValue), |es|)
  }

  /** The summary of a list of entries. */
  function Summarize(es: seq<Entry>, totalBatches: nat, rule: string, source: string, root: real -> real): Summary {
    var some := es != [];
    var mean := if some then MeanOf(Sum(es, Pnl), |es|) else 0.0;
    var std := if some then root(MeanOf(SquaredDeviation(es, mean), |es|)) else 0.0;
    Summary(
      totalBatches, Count(es, Ok) % UINT32, Count(es, Failed) % UINT32, Count(es, Fills) % UINT32,
      if some then Sum(es, Pnl) else 0.0, mean,
      if some then AverageIs(es, RuleOf(rule)) else 0.0,
      std, Ratio(mean, std),
      if some then Ratio(Sum(es, ExecutedQty), Sum(es, RequestedQty)) * 100.0 else 0.0,
      if Count(es, Ok) % UINT32 > 0 then MeanOf(Sum(es, OkSolveTime), Count(es, Ok) % UINT32) else 0.0,
      Drawdown(es), Ratio(Sum(es, ExecutedNotional), Sum(es, ExecutedQty)),
      some && Sum(es, RequestedQty) <= 0.0, RuleOf(rule), SourceOf(source))
  }

  /** What is asked of a square root: not negative, and zero at zero only. */
  ghost predicate RootLike(root: real -> real) {
    forall x :: x >= 0.0 ==> root(x) >= 0.0 && (root(x) == 0.0 <==> x == 0.0)
  }

  /**
    The standard deviation of a summary is zero exactly when every batch earned the average,
    and the Sharpe ratio has the sign of the average unless that is so.
   */
  lemma SharpeMeaning(es: seq<Entry>, totalBatches: nat, rule: string, source: string, root: real -> real)
    requires RootLike(root) && es != []
    ensures var s := Summarize(es, totalBatches, rule, source, root);
            && s.stdPnl >= 0.0
            && (s.stdPnl == 0.0 <==> forall i :: 0 <= i < |es| ==> es[i].execution.pnl == s.avgPnl)
            && (s.sharpe > 0.0 <==> s.stdPnl > 0.0 && s.avgPnl > 0.0)
            && (s.sharpe < 0.0 <==> s.stdPnl > 0.0 && s.avgPnl < 0.0)
  {
    var s := Summarize(es, totalBatches, rule, source, root);
    var deviation := SquaredDeviation(es, s.avgPnl);
    DeviationSign(es, s.avgPnl);
    hide SquaredDeviation, Sum, Count, Drawdown, AverageIs;
    MeanSign(deviation, |es|);
    QuotientSign(s.avgPnl, s.stdPnl);
  }

  lemma MeanSign(total: real, n: nat)
    requires n > 0 && total >= 0.0
    ensures MeanOf(total, n) >= 0.0 && (MeanOf(total, n) == 0.0 <==> total == 0.0)
  {
    DivMul(total, n as real);
    var q := total / n as real;
    if q < 0.0 { StrictScale(q, 0.0, n as real); }
  }

  lemma QuotientSign(a: real, b: real)
    requires b >= 0.0
    ensures Ratio(a, b) > 0.0 <==> b > 0.0 && a > 0.0
    ensures Ratio(a, b) < 0.0 <==> b > 0.0 && a < 0.0
  {
    if b > 0.0 {
      var q := a / b;
      DivMul(a, b);
      if q > 0.0 { StrictScale(0.0, q, b); }
      if q < 0.0 { StrictScale(q, 0.0, b); }
    }
  }

  /** Such roots exist. */
  lemma RootLikeExists()
    ensures exists root: real -> real :: RootLike(root)
  {
    var root := (x: real) => x;
    assert RootLike(root);
  }

  /** The running accumulators of the one pass. */
  datatype Totals = Totals(
    processed: nat, failed: nat, fills: nat, pnl: real, isValue: real, solveTime: real,
    executedQty: real, requestedQty: real, executedNotional: real, weightedSum: real, weight: real,
    cumulative: real, peak: real, drawdown: real, pnls: seq<real>)

  const NO_TOTALS: Totals :=
    Totals(0, 0, 0, 0.0, 0.0, 0.0, 0.0, 0.0, 0.0, 0.0, 0.0, 0.0, 0.0, 0.0, [])

  function AddTo(t: Totals, e: Execution): Totals {
    var cumulative := t.cumulative + e.pnl;
    var peak := MaxR(t.peak, cumulative);
    Totals(
      if e.ok then (t.processed + 1) % UINT32 else t.processed,
      if e.ok then t.failed else (t.failed + 1) % UINT32,
      (t.fills + e.fillsApplied) % UINT32,
      t.pnl + e.pnl, t.isValue + e.isValue,
      if e.ok then t.solveTime + e.solveTimeMs as real else t.solveTime,
      t.executedQty + e.executedQty, t.requestedQty + e.requestedQty,
      t.executedNotional + e.executedNotional, t.weightedSum + e.isWeightedSum, t.weight + e.isWeight,
      cumulative, peak, MaxR(t.drawdown, peak - cumulative), t.pnls + [e.pnl])
  }

  function TotalsOf(es: seq<Entry>): Totals {
    if es == [] then NO_TOTALS else AddTo(TotalsOf(es[..|es| - 1]), es[|es| - 1].execution)
  }

  lemma TotalsStep(es: seq<Entry>, i: nat)
    requires i < |es|
    ensures TotalsOf(es[..i + 1]) == AddTo(TotalsOf(es[..i]), es[i].execution)
  {
    assert es[..i + 1][..i] == es[..i];
  }

  ghost predicate CountsRight(t: Totals, es: seq<Entry>) {
    && t.processed == Count(es, Ok) % UINT32 && t.failed == Count(es, Failed) % UINT32
    && t.fills == Count(es, Fills) % UINT32
  }

  ghost predicate SumsRight(t: Totals, es: seq<Entry>) {
    && t.pnl == Sum(es, Pnl) && t.isValue == Sum(es, IsValue) && t.solveTime == Sum(es, OkSolveTime)
    && t.executedQty == Sum(es, ExecutedQty) && t.requestedQty == Sum(es, RequestedQty)
    && t.executedNotional == Sum(es, ExecutedNotional)
    && t.weightedSum == Sum(es, WeightedSum) && t.weight == Sum(es, Weight)
  }

  ghost predicate PeaksRight(t: Totals, es: seq<Entry>) {
    t.cumulative == Sum(es, Pnl) && t.peak == Peak(es) && t.drawdown == Drawdown(es)
  }

  ghost predicate PnlsRight(t: Totals, es: seq<Entry>) {
    |t.pnls| == |es| && forall i :: 0 <= i < |es| ==> t.pnls[i] == es[i].execution.pnl
  }

  /** The accumulators are the counts, sums and the drawdown of the entries passed. */
  ghost predicate TotalsRight(t: Totals, es: seq<Entry>) {
    CountsRight(t, es) && SumsRight(t, es) && PeaksRight(t, es) && PnlsRight(t, es)
  }

  lemma CountStep(t: Totals, es: seq<Entry>, e: Entry)
    requires CountsRight(t, es)
    ensures CountsRight(AddTo(t, e.execution), es + [e])
  {
    CountSnoc(es, e, Ok);
    CountSnoc(es, e, Failed);
    CountSnoc(es, e, Fills);
    WrapAdd(Count(es, Ok), 1);
    WrapAdd(Count(es, Failed), 1);
    WrapAdd(Count(es, Fills), e.execution.fillsApplied);
    hide Count, MaxR;
  }

  lemma CountSnoc(es: seq<Entry>, e: Entry, f: Execution -> nat)
    ensures Count(es + [e], f) == Count(es, f) + f(e.execution)
  {
    assert (es + [e])[..|es|] == es;
  }

  /** Wrapping as one goes is wrapping at the end. */
  lemma WrapAdd(a: nat, b: nat)
    ensures (a % UINT32 + b) % UINT32 == (a + b) % UINT32
  {
  }

  lemma SumSnoc(es: seq<Entry>, e: Entry, f: Execution -> real)
    ensures Sum(es + [e], f) == Sum(es, f) + f(e.execution)
  {
    assert (es + [e])[..|es|] == es;
  }

  lemma SumStep(t: Totals, es: seq<Entry>, e: Entry)
    requires SumsRight(t, es)
    ensures SumsRight(AddTo(t, e.execution), es + [e])
  {
    SumSnoc(es, e, Pnl);
    SumSnoc(es, e, IsValue);
    SumSnoc(es, e, OkSolveTime);
    SumSnoc(es, e, ExecutedQty);
    SumSnoc(es, e, RequestedQty);
    SumSnoc(es, e, ExecutedNotional);
    SumSnoc(es, e, WeightedSum);
    SumSnoc(es, e, Weight);
    hide Sum, MaxR;
  }

  lemma PeakStep(t: Totals, es: seq<Entry>, e: Entry)
    requires PeaksRight(t, es)
    ensures PeaksRight(AddTo(t, e.execution), es + [e])
  {
    SumSnoc(es, e, Pnl);
    assert (es + [e])[..|es|] == es;
    hide Sum, MaxR;
  }

  lemma PnlStep(t: Totals, es: seq<Entry>, e: Entry)
    requires PnlsRight(t, es)
    ensures PnlsRight(AddTo(t, e.execution), es + [e])
  {
    hide MaxR;
  }

  lemma TotalsSnoc(es: seq<Entry>, e: Entry)
    ensures TotalsOf(es + [e]) == AddTo(TotalsOf(es), e.execution)
  {
    hide AddTo;
    assert (es + [e])[..|es|] == es;
  }

  lemma NoTotals(es: seq<Entry>)
    requires es == []
    ensures TotalsRight(TotalsOf(es), es)
  {
  }

  lemma {:induction false} TotalsMeaning(es: seq<Entry>)
    ensures TotalsRight(TotalsOf(es), es)
  {
    if es == [] {
      NoTotals(es);
    } else {
      var init, last := es[..|es| - 1], es[|es| - 1];
      TotalsMeaning(init);
      hide AddTo, TotalsOf, CountsRight, SumsRight, PeaksRight, PnlsRight;
      var t := TotalsOf(init);
      CountStep(t, init, last);
      SumStep(t, init, last);
      PeakStep(t, init, last);
      PnlStep(t, init, last);
      TotalsSnoc(init, last);
      assert es == init + [last];
    }
  }

  lemma DeviationStep(es: seq<Entry>, i: nat, mean: real)
    requires i < |es|
    ensures SquaredDeviation(es[..i + 1], mean)
         == SquaredDeviation(es[..i], mean) + Square(es[i].execution.pnl - mean)
  {
    assert es[..i + 1][..i] == es[..i];
  }

  lemma NoDeviation(es: seq<Entry>)
    requires es == []
    ensures forall m :: SquaredDeviation(es, m) == 0.0
  {
  }
}
