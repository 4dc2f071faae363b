/**
  Comparing two replay sessions: the batch-order fingerprint, the compatibility
  verdict, and the metric deltas.  How instruments are read out of a strategy
  document is the parameter `instruments`.
 */
module CompareSessions {
  import opened Ordering

  datatype LogRef = LogRef(batchSeq: nat, originalBatchId: string)

  datatype Session = Session(dateFrom: int, dateTo: int, strategy: string, refs: seq<LogRef>)

  predicate RefLe(a: LogRef, b: LogRef) {
    a.batchSeq < b.batchSeq || (a.batchSeq == b.batchSeq && TextLe(a.originalBatchId, b.originalBatchId))
  }

  function BatchId(r: LogRef): string { r.originalBatchId }

  method ExtractBatchOrder(refs: seq<LogRef>) returns (order: seq<string>)
    ensures order == BatchOrder(refs)
  {
    var sorted := Sort(refs, RefLe);
    order := [];
    for i := 0 to |sorted|
      invariant order == Map(sorted, BatchId)[..i]
    {
      order := order + [sorted[i].originalBatchId];
    }
  }

  function BatchOrder(refs: seq<LogRef>): seq<string> {
    Map(Sort(refs, RefLe), BatchId)
  }

  lemma RefOrder()
    ensures TotalPreorder(RefLe)
  {
    forall a, b ensures RefLe(a, b) || RefLe(b, a) { TextLeTotal(a.originalBatchId, b.originalBatchId); }
    forall a, b, c | RefLe(a, b) && RefLe(b, c) ensures RefLe(a, c) {
      if a.batchSeq == b.batchSeq == c.batchSeq {
        TextLeTransitive(a.originalBatchId, b.originalBatchId, c.originalBatchId);
      }
    }
  }

  /**
    The fingerprint depends only on which rows there are: any correct sort, stable or not,
    of any arrangement of the rows gives it.
   */
  lemma OrderIsFingerprint(refs: seq<LogRef>, shuffled: seq<LogRef>, r: seq<LogRef>)
    requires multiset(refs) == multiset(shuffled) && SortOf(r, shuffled, RefLe)
    ensures Map(r, BatchId) == BatchOrder(refs)
  {
    RefOrder();
    hide TotalPreorder;
    SortSorts(refs, RefLe);
    forall x, y | x in r && y in r && RefLe(x, y) && RefLe(y, x) ensures BatchId(x) == BatchId(y) {
      TextLeAntisymmetric(x.originalBatchId, y.originalBatchId);
    }
    SortsAgree(r, Sort(refs, RefLe), RefLe, BatchId);
  }

  /** The fingerprint lists the ids of all rows by ascending sequence number, ties in byte order. */
  lemma BatchOrderMeaning(refs: seq<LogRef>) returns (rows: seq<LogRef>)
    ensures multiset(rows) == multiset(refs) && |BatchOrder(refs)| == |rows|
    ensures forall i :: 0 <= i < |rows| ==> BatchOrder(refs)[i] == rows[i].originalBatchId
    ensures forall i, j :: 0 <= i < j < |rows| ==>
              && rows[i].batchSeq <= rows[j].batchSeq
              && (rows[i].batchSeq == rows[j].batchSeq ==>
                    InByteOrder(rows[i].originalBatchId, rows[j].originalBatchId))
  {
    RefOrder();
    rows := Sort(refs, RefLe);
    SortSorts(refs, RefLe);
    hide Sort, TotalPreorder;
    forall i, j | 0 <= i < j < |rows|
      ensures rows[i].batchSeq <= rows[j].batchSeq
      ensures rows[i].batchSeq == rows[j].batchSeq ==>
                InByteOrder(rows[i].originalBatchId, rows[j].originalBatchId)
    {
      assert RefLe(rows[i], rows[j]);
      TextLeIsByteOrder(rows[i].originalBatchId, rows[j].originalBatchId);
    }
  }

  datatype Verdict = Compatible | DifferentDates | DifferentInstruments | DifferentBatchOrder

  function Compare(a: Session, b: Session, instruments: string -> set<string>): Verdict {
    if a.dateFrom != b.dateFrom || a.dateTo != b.dateTo then DifferentDates
    else if instruments(a.strategy) != instruments(b.strategy) then DifferentInstruments
    else if BatchOrder(a.refs) != BatchOrder(b.refs) then DifferentBatchOrder
    else Compatible
  }

  /** Each verdict by what it says of the sessions; the first difference is the one named. */
  lemma CompareMeaning(a: Session, b: Session, instruments: string -> set<string>)
    ensures var verdict := Compare(a, b, instruments);
            var dates := a.dateFrom == b.dateFrom && a.dateTo == b.dateTo;
            var symbols := instruments(a.strategy) == instruments(b.strategy);
            var order := BatchOrder(a.refs) == BatchOrder(b.refs);
            && (verdict == Compatible <==> dates && symbols && order)
            && (verdict == DifferentDates <==> !dates)
            && (verdict == DifferentInstruments <==> dates && !symbols)
            && (verdict == DifferentBatchOrder <==> dates && symbols && !order)
  {
    hide BatchOrder;
  }

  /** The same session data with its log rows in another order. */
  ghost predicate SameRows(a: Session, b: Session) {
    a.(refs := []) == b.(refs := []) && multiset(a.refs) == multiset(b.refs)
  }

  /** Compatibility is an equivalence, and no reordering of either log changes the verdict. */
  lemma CompatibilityIsEquivalence(a: Session, b: Session, c: Session, a': Session, b': Session,
                                   instruments: string -> set<string>)
    requires SameRows(a, a') && SameRows(b, b')
    ensures Compare(a, a', instruments) == Compatible
    ensures Compare(b, a, instruments) == Compare(a, b, instruments) == Compare(a', b', instruments)
    ensures Compare(a, b, instruments) == Compatible ==>
              Compare(b, c, instruments) == Compare(a, c, instruments)
  {
    hide BatchOrder;
    ShuffledLog(a.refs, a'.refs);
    ShuffledLog(b.refs, b'.refs);
  }

  lemma ShuffledLog(refs: seq<LogRef>, shuffled: seq<LogRef>)
    requires multiset(refs) == multiset(shuffled)
    ensures BatchOrder(shuffled) == BatchOrder(refs)
  {
    RefOrder();
    hide TotalPreorder, SortOf;
    SortSorts(shuffled, RefLe);
    OrderIsFingerprint(refs, shuffled, Sort(shuffled, RefLe));
  }

  datatype MetricDelta = MetricDelta(sessionA: real, sessionB: real, delta: real)

  function MakeDelta(sessionA: real, sessionB: real): MetricDelta {
    MetricDelta(sessionA, sessionB, sessionB - sessionA)
  }

  /** Deltas change sign when the sessions are swapped, and add up along a chain of sessions. */
  lemma DeltasChain(a: real, b: real, c: real)
    ensures MakeDelta(a, b).sessionA == a && MakeDelta(a, b).sessionB == b && a + MakeDelta(a, b).delta == b
    ensures MakeDelta(b, a).delta == -MakeDelta(a, b).delta
    ensures MakeDelta(a, c).delta == MakeDelta(a, b).delta + MakeDelta(b, c).delta
    ensures MakeDelta(a, b).delta == 0.0 <==> MakeDelta(a, b).sessionA == MakeDelta(a, b).sessionB
  {
  }

  /** Giving every batch a new sequence number. */
  function RenumberBy(f: nat -> nat): LogRef -> LogRef {
    (r: LogRef) => LogRef(f(r.batchSeq), r.originalBatchId)
  }

  ghost predicate StrictlyIncreasing(f: nat -> nat) {
    forall m, n :: m < n ==> f(m) < f(n)
  }

  /** Renumbering a log without reordering its batches goes unnoticed: only ids are compared. */
  lemma SequenceNumbersIgnored(refs: seq<LogRef>, f: nat -> nat)
    requires StrictlyIncreasing(f)
    ensures BatchOrder(Map(refs, RenumberBy(f))) == BatchOrder(refs)
  {
    var g := RenumberBy(f);
    forall a, b ensures RefLe(g(a), g(b)) == RefLe(a, b) {
      if a.batchSeq < b.batchSeq { assert f(a.batchSeq) < f(b.batchSeq); }
      if b.batchSeq < a.batchSeq { assert f(b.batchSeq) < f(a.batchSeq); }
    }
    SortCommutes(refs, RefLe, g);
    assert forall i :: 0 <= i < |refs| ==> BatchId(g(Sort(refs, RefLe)[i])) == BatchId(Sort(refs, RefLe)[i]);
  }
}
