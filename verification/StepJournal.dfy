/**
  The in-memory step journal of a replay session: an order list and an entry map changed
  together, truncation and redo, and the one-pass summary.
 */
module StepJournal {
  import opened RealFacts
  import opened Wrappers

  import opened JournalSummary
  import opened SummaryMeaning

  // ------------------------------------------------- entries as one list

  /** A journal's content: its entries in first-seen order, one per batch. */
  ghost predicate Distinct(es: seq<Entry>) {
    && (forall i, j :: 0 <= i < j < |es| ==> es[i].batchId != es[j].batchId)
    && (forall i :: 0 <= i < |es| ==> es[i].batchId != "")
  }

  function IndexOf(es: seq<Entry>, id: string): (i: nat)
    ensures i <= |es| && (i < |es| ==> es[i].batchId == id)
    ensures forall k :: 0 <= k < i ==> es[k].batchId != id
  {
    if es == [] || es[0].batchId == id then 0 else 1 + IndexOf(es[1..], id)
  }

  /** Replace in place, or append. */
  function Upserted(es: seq<Entry>, e: Entry): seq<Entry> {
    if e.batchId == "" then es
    else
      var i := IndexOf(es, e.batchId);
      if i < |es| then es[i := e] else es + [e]
  }

  function UpsertedAll(es: seq<Entry>, more: seq<Entry>): seq<Entry>
    decreases |more|
  {
    if more == [] then es else UpsertedAll(Upserted(es, more[0]), more[1..])
  }

  function Truncated(es: seq<Entry>, id: string): seq<Entry> {
    es[..IndexOf(es, id)]
  }

  function Ids(es: seq<Entry>): (ids: seq<string>)
    ensures |ids| == |es| && forall i :: 0 <= i < |es| ==> ids[i] == es[i].batchId
  {
    seq(|es|, i requires 0 <= i < |es| => es[i].batchId)
  }

  lemma IndexByIds(es: seq<Entry>, id: string, i: nat)
    requires i <= |es| && (forall k :: 0 <= k < i ==> Ids(es)[k] != id) && (i < |es| ==> Ids(es)[i] == id)
    ensures IndexOf(es, id) == i
  {
    assert forall k :: 0 <= k < |es| ==> Ids(es)[k] == es[k].batchId;
  }

  lemma UpsertKeeps(es: seq<Entry>, e: Entry)
    requires Distinct(es)
    ensures Distinct(Upserted(es, e))
    ensures Ids(es) <= Ids(Upserted(es, e)) && |Upserted(es, e)| <= |es| + 1
    ensures e.batchId != "" ==> e in Upserted(es, e)
  {
    if e.batchId != "" {
      var i, r := IndexOf(es, e.batchId), Upserted(es, e);
      assert r[i] == e;
    }
  }

  /** Upserting unseen batches in order appends them. */
  lemma {:induction false} UpsertUnseen(es: seq<Entry>, more: seq<Entry>)
    requires Distinct(es + more)
    ensures UpsertedAll(es, more) == es + more
    decreases |more|
  {
    if more == [] {
      assert es + more == es;
    } else {
      var all := es + more;
      forall k | 0 <= k < |es| ensures es[k].batchId != more[0].batchId {
        assert all[k] == es[k] && all[|es|] == more[0];
      }
      assert all[|es|].batchId != "";
      assert Upserted(es, more[0]) == es + [more[0]];
      assert es + [more[0]] + more[1..] == all;
      UpsertUnseen(es + [more[0]], more[1..]);
    }
  }

  /**
    Truncating from a batch and playing the dropped batches again, with results old or new,
    puts every batch back into its place; with the old results the journal is as before.
   */
  lemma TruncateRedo(es: seq<Entry>, id: string, redo: seq<Entry>)
    requires Distinct(es) && Ids(redo) == Ids(es[IndexOf(es, id)..])
    ensures var r := UpsertedAll(Truncated(es, id), redo);
            && Ids(r) == Ids(es)
            && r == es[..IndexOf(es, id)] + redo
            && (redo == es[IndexOf(es, id)..] ==> r == es)
  {
    hide IndexOf, Distinct, UpsertedAll, Ids;
    var i := IndexOf(es, id);
    SameIds(es, i, redo);
    UpsertUnseen(es[..i], redo);
    assert es == es[..i] + es[i..];
  }

  /** A list whose tail is replaced by entries of the same batches. */
  lemma SameIds(es: seq<Entry>, i: nat, redo: seq<Entry>)
    requires i <= |es| && Ids(redo) == Ids(es[i..])
    ensures Ids(es[..i] + redo) == Ids(es)
    ensures Distinct(es) ==> Distinct(es[..i] + redo)
  {
    var all := es[..i] + redo;
    assert |redo| == |Ids(redo)| == |es| - i;
    forall k | 0 <= k < |all| ensures all[k].batchId == es[k].batchId {
      if k >= i { assert Ids(redo)[k - i] == Ids(es[i..])[k - i]; }
    }
  }

  datatype Operation = Upsert(entry: Entry) | TruncateFrom(id: string)

  function Applied(es: seq<Entry>, op: Operation): seq<Entry> {
    match op
    case Upsert(e) => Upserted(es, e)
    case TruncateFrom(id) => Truncated(es, id)
  }

  function Run(es: seq<Entry>, ops: seq<Operation>): seq<Entry>
    decreases |ops|
  {
    if ops == [] then es else Run(Applied(es, ops[0]), ops[1..])
  }

  lemma CutReaches(es: seq<Entry>, id: string, i: nat)
    requires i < |es|
    ensures IndexOf(es, id) <= i ==> id in Ids(es)[..i + 1]
  {
    var cut := IndexOf(es, id);
    if cut <= i { assert Ids(es)[..i + 1][cut] == id; }
  }

  /**
    Over every run: one entry per batch, and a batch that no truncation reached keeps its
    position for good, however often it is upserted.
   */
  lemma {:induction false} RunKeepsPositions(es: seq<Entry>, ops: seq<Operation>, i: nat)
    requires Distinct(es) && i < |es|
    requires forall k :: 0 <= k < |ops| && ops[k].TruncateFrom? ==> ops[k].id !in Ids(es)[..i + 1]
    ensures Distinct(Run(es, ops))
    ensures i < |Run(es, ops)| && Ids(Run(es, ops))[..i + 1] == Ids(es)[..i + 1]
    decreases |ops|
  {
    if ops != [] {
      var next := Applied(es, ops[0]);
      if ops[0].Upsert? {
        UpsertKeeps(es, ops[0].entry);
      } else {
        CutReaches(es, ops[0].id, i);
      }
      assert Ids(next)[..i + 1] == Ids(es)[..i + 1];
      RunKeepsPositions(next, ops[1..], i);
    }
  }

  // ---------------------------------------------------------- the journal

  function Listed(order: seq<string>, entries: map<string, Entry>): (es: seq<Entry>)
    requires forall i :: 0 <= i < |order| ==> order[i] in entries
    ensures |es| == |order| && forall i :: 0 <= i < |es| ==> es[i] == entries[order[i]]
  {
    seq(|order|, i requires 0 <= i < |order| => entries[order[i]])
  }

  lemma ListedSnoc(order: seq<string>, entries: map<string, Entry>, id: string, e: Entry)
    requires forall i :: 0 <= i < |order| ==> order[i] in entries && order[i] != id
    ensures Listed(order + [id], entries[id := e]) == Listed(order, entries) + [e]
  {
  }

  class Journal {
    var order: seq<string>
    var entries: map<string, Entry>

    ghost predicate Valid()
      reads this
    {
      && (forall i, j :: 0 <= i < j < |order| ==> order[i] != order[j])
      && (forall i :: 0 <= i < |order| ==> order[i] in entries)
      && (forall id :: id in entries ==> id in order && id != "" && entries[id].batchId == id)
    }

    /** The journal's content as one list. */
    ghost function Entries(): (es: seq<Entry>)
      requires Valid()
      reads this
      ensures Distinct(es) && Ids(es) == order
    {
      Listed(order, entries)
    }

    constructor ()
      ensures Valid() && Entries() == []
    {
      order, entries := [], map[];
    }

    method Contains(id: string) returns (found: bool)
      requires Valid()
      ensures found <==> id in Ids(Entries())
    {
      found := id in entries;
    }

    method Find(id: string) returns (r: Option<Entry>)
      requires Valid()
      ensures r.Some? <==> id in Ids(Entries())
      ensures r.Some? ==> r.value in Entries() && r.value.batchId == id
    {
      if id in entries {
        ghost var i :| 0 <= i < |order| && order[i] == id;
        assert Entries()[i] == entries[id];
        r := Some(entries[id]);
      } else {
        r := None;
      }
    }

    method NextBatchSeq() returns (n: nat)
      requires Valid()
      ensures n == |Entries()| % UINT32
    {
      n := |order| % UINT32;
    }

    method Upsert(e: Entry)
      requires Valid()
      modifies this
      ensures Valid() && Entries() == Upserted(old(Entries()), e)
    {
      if e.batchId == "" {
        return;
      }
      hide IndexOf, Distinct;
      if e.batchId !in entries {
        IndexByIds(Entries(), e.batchId, |order|);
        Append(e);
      } else {
        ghost var i :| 0 <= i < |order| && order[i] == e.batchId;
        IndexByIds(Entries(), e.batchId, i);
        Replace(e, i);
      }
    }

    method Append(e: Entry)
      requires Valid() && e.batchId != "" && e.batchId !in entries
      modifies this
      ensures Valid() && Entries() == old(Entries()) + [e]
    {
      hide Distinct, Listed;
      ListedSnoc(order, entries, e.batchId, e);
      order := order + [e.batchId];
      entries := entries[e.batchId := e];
      assert order[..|order| - 1] == old(order) && order[|order| - 1] == e.batchId;
    }

    method Replace(e: Entry, ghost i: nat)
      requires Valid() && i < |order| && order[i] == e.batchId
      modifies this
      ensures Valid() && Entries() == old(Entries())[i := e]
    {
      entries := entries[e.batchId := e];
    }

    method TruncateFromBatch(id: string) returns (found: bool)
      requires Valid()
      modifies this
      ensures Valid() && Entries() == Truncated(old(Entries()), id)
      ensures found <==> id in old(Ids(Entries()))
    {
      ghost var before := Entries();
      var i := 0;
      while i < |order| && order[i] != id
        invariant 0 <= i <= |order|
        invariant forall k :: 0 <= k < i ==> order[k] != id
      {
        i := i + 1;
      }
      IndexByIds(before, id, i);
      hide IndexOf, Distinct;
      if i == |order| {
        assert before[..|before|] == before;
        return false;
      }
      DropFrom(i);
      return true;
    }

    /** Erasing every id from position `i` on, in both containers. */
    method DropFrom(i: nat)
      requires Valid() && i < |order|
      modifies this
      ensures Valid() && Entries() == old(Entries())[..i]
    {
      var dropped := set k | i <= k < |order| :: order[k];
      assert forall k :: 0 <= k < i ==> order[k] !in dropped;
      entries := entries - dropped;
      order := order[..i];
    }

    method OrderedEntries() returns (out: seq<Entry>)
      requires Valid()
      ensures out == Entries()
    {
      out := [];
      for i := 0 to |order|
        invariant out == Entries()[..i]
      {
        if order[i] in entries {
          assert Entries()[i] == entries[order[i]];
          out := out + [entries[order[i]]];
        }
      }
    }

    method Variance(pnls: seq<real>, mean: real, ghost es: seq<Entry>) returns (variance: real)
      requires |pnls| == |es| > 0 && forall i :: 0 <= i < |es| ==> pnls[i] == es[i].execution.pnl
      ensures variance == MeanOf(SquaredDeviation(es, mean), |es|)
    {
      hide SquaredDeviation, Square;
      NoDeviation(es[..0]);
      variance := 0.0;
      for i := 0 to |pnls|
        invariant variance == SquaredDeviation(es[..i], mean)
      {
        DeviationStep(es, i, mean);
        var diff := pnls[i] - mean;
        variance := variance + Square(diff);
      }
      assert es[..|es|] == es;
      variance := MeanOf(variance, |pnls|);
    }

    /** Spread and Sharpe ratio of the collected results around their mean. */
    method Spread(pnls: seq<real>, mean: real, root: real -> real, ghost es: seq<Entry>)
      returns (std: real, sharpe: real)
      requires |pnls| == |es| > 0 && forall i :: 0 <= i < |es| ==> pnls[i] == es[i].execution.pnl
      ensures std == root(MeanOf(SquaredDeviation(es, mean), |es|)) && sharpe == Ratio(mean, std)
    {
      hide SquaredDeviation, MeanOf;
      var variance := Variance(pnls, mean, es);
      std := root(variance);
      sharpe := 0.0;
      if std > 0.0 {
        sharpe := mean / std;
      }
    }

    /** Implementation shortfall under the session's rule. */
    method Shortfall(t: Totals, rule: string, ghost es: seq<Entry>) returns (avgIs: real)
      requires es != [] && |t.pnls| == |es| && SumsRight(t, es)
      ensures avgIs == AverageIs(es, rule)
    {
      hide Sum, MeanOf;
      if rule == "simple_mean" {
        avgIs := MeanOf(t.isValue, |t.pnls|);
      } else {
        avgIs := if t.weight > 0.0 then t.weightedSum / t.weight else MeanOf(t.isValue, |t.pnls|);
      }
    }

    method BuildSummary(totalBatches: nat, rule: string, source: string, root: real -> real) returns (s: Summary)
      requires Valid()
      ensures SummaryMeans(s, Entries(), totalBatches, rule, source, root)
      ensures s == Summarize(Entries(), totalBatches, rule, source, root)
    {
      hide TotalsOf, AddTo, Sum, Count, Drawdown, SquaredDeviation, MeanOf, Distinct, SummaryMeans, AverageIs;
      hide Listed;
      var t := Accumulate();
      TotalsMeaning(Entries());
      var avgPnl, avgIs, std, sharpe, fillRate, noRequested := 0.0, 0.0, 0.0, 0.0, 0.0, false;
      if t.pnls != [] {
        avgPnl := MeanOf(t.pnl, |t.pnls|);
        avgIs := Shortfall(t, RuleOf(rule), Entries());
        fillRate := if t.requestedQty > 0.0 then t.executedQty / t.requestedQty * 100.0 else 0.0;
        noRequested := t.requestedQty <= 0.0;
        std, sharpe := Spread(t.pnls, avgPnl, root, Entries());
      }
      var avgSolve := if t.processed > 0 then MeanOf(t.solveTime, t.processed) else 0.0;
      var vwap := if t.executedQty > 0.0 then t.executedNotional / t.executedQty else 0.0;
      hide Valid, RuleOf, SourceOf, Peak;
      s := Summary(totalBatches, t.processed, t.failed, t.fills, if t.pnls != [] then t.pnl else 0.0, avgPnl,
        avgIs, std, sharpe, fillRate, avgSolve, t.drawdown, vwap, noRequested, RuleOf(rule), SourceOf(source));
      SummariesMean(Entries(), totalBatches, rule, source, root);
    }

    /** The one pass over the order list. */
    method Accumulate() returns (t: Totals)
      requires Valid()
      ensures t == TotalsOf(Entries())
    {
      ghost var es := Entries();
      hide AddTo, Distinct;
      t := NO_TOTALS;
      for i := 0 to |order|
        invariant t == TotalsOf(es[..i])
      {
        if order[i] !in entries {
          continue;
        }
        assert es[i] == entries[order[i]];
        TotalsStep(es, i);
        t := AddTo(t, entries[order[i]].execution);
      }
      assert es[..|es|] == es;
    }
  }
}
