/**
  The historical batch loader: chunked reads of three row streams, sorting, grouping into
  hash maps and joining, and the preflight that counts batches from the same chunks.

  Remaining columns of a row are one opaque text.  The backing store serves slices of a
  fixed row list per stream; counters are unbounded.
 */
module HistoricalLoader {
  import opened Ordering
  import opened Wrappers

  datatype BatchRow = BatchRow(batchId: string, eventTimeMs: int, rest: string)
  datatype FillRow = FillRow(batchId: string, eventTimeMs: int, orderId: string, rest: string)
  datatype SnapshotRow = SnapshotRow(venueId: string, symbol: string, eventTimeMs: int, rest: string)

  datatype Store = Store(batches: seq<BatchRow>, fills: seq<FillRow>, snapshots: seq<SnapshotRow>)

  datatype Config = Config(fromMs: int, toMs: int, chunkSize: int)

  datatype HistoricalBatch = HistoricalBatch(
    batchResult: BatchRow, fills: seq<FillRow>, snapshots: seq<SnapshotRow>)

  function BatchTime(r: BatchRow): int { r.eventTimeMs }

  function FillTime(r: FillRow): int { r.eventTimeMs }

  function SnapshotTime(r: SnapshotRow): int { r.eventTimeMs }

  // --------------------------------------------------------- chunked reads

  function InRange<Row>(rows: seq<Row>, time: Row -> int, fromMs: int, toMs: int): seq<Row> {
    if rows == [] then []
    else
      (if fromMs <= time(rows[0]) <= toMs then [rows[0]] else []) + InRange(rows[1..], time, fromMs, toMs)
  }

  function Min(a: int, b: int): int { if a < b then a else b }

  /** What the store answers: at most `limit` rows from `offset` on. */
  function LoadChunk<Row>(rows: seq<Row>, offset: nat, limit: int): (chunk: seq<Row>)
    requires offset <= |rows| && limit > 0
    ensures |chunk| == Min(limit, |rows| - offset)
  {
    rows[offset..offset + Min(limit, |rows| - offset)]
  }

  lemma ChunkExtends<Row>(rows: seq<Row>, offset: nat, limit: int)
    requires offset <= |rows| && limit > 0
    ensures rows[..offset] + LoadChunk(rows, offset, limit)
         == rows[..offset + |LoadChunk(rows, offset, limit)|]
  {
  }

  /** Reads needed for `n` rows: one per full chunk, and one that comes back short. */
  function Reads(n: nat, chunkSize: int): nat {
    if chunkSize <= 0 then 0 else n / chunkSize + 1
  }

  lemma ChunkCount(n: nat, k: nat, chunk: nat, got: nat)
    requires chunk > 0 && n == k * chunk + got && got < chunk
    ensures n / chunk == k
  {
    var q, r := n / chunk, n % chunk;
    assert n == q * chunk + r && r < chunk;
    QuotientUnique(q, r, k, got, chunk);
  }

  lemma OneRoundMore(k: nat, chunk: nat)
    ensures (k + 1) * chunk == k * chunk + chunk
  {
  }

  lemma QuotientUnique(q: int, r: nat, k: int, g: nat, c: nat)
    requires q * c + r == k * c + g && r < c && g < c
    ensures q == k
  {
    if q > k { OneMore(q, k, c); }
    if q < k { OneMore(k, q, c); }
  }

  lemma OneMore(q: int, k: int, c: nat)
    requires q > k
    ensures q * c >= k * c + c
  {
    var d := q - k - 1;
    assert d * c >= 0;
    assert q * c == (k + 1 + d) * c == k * c + c + d * c;
  }

  function All<Row>(rows: seq<Row>, time: Row -> int, config: Config): seq<Row> {
    if config.chunkSize <= 0 then [] else InRange(rows, time, config.fromMs, config.toMs)
  }

  // --------------------------------------------------------------- orders

  predicate BatchLe(a: BatchRow, b: BatchRow) {
    a.eventTimeMs < b.eventTimeMs || (a.eventTimeMs == b.eventTimeMs && TextLe(a.batchId, b.batchId))
  }

  predicate FillLe(a: FillRow, b: FillRow) {
    || a.eventTimeMs < b.eventTimeMs
    || (&& a.eventTimeMs == b.eventTimeMs
        && if a.batchId != b.batchId then TextLe(a.batchId, b.batchId) else TextLe(a.orderId, b.orderId))
  }

  predicate SnapshotLe(a: SnapshotRow, b: SnapshotRow) {
    || a.eventTimeMs < b.eventTimeMs
    || (&& a.eventTimeMs == b.eventTimeMs
        && if a.venueId != b.venueId then TextLe(a.venueId, b.venueId) else TextLe(a.symbol, b.symbol))
  }

  /** A strict text comparison, chained with a second one on equality, is a total preorder. */
  lemma PairTransitive(a: string, b: string, c: string, x: string, y: string, z: string)
    requires if a != b then TextLe(a, b) else TextLe(x, y)
    requires if b != c then TextLe(b, c) else TextLe(y, z)
    ensures if a != c then TextLe(a, c) else TextLe(x, z)
  {
    if a != b && b != c {
      if a == c { TextLeAntisymmetric(a, b); } else { TextLeTransitive(a, b, c); }
    } else if a == b && b == c {
      TextLeTransitive(x, y, z);
    }
  }

  lemma OrdersAreTotal()
    ensures TotalPreorder(BatchLe) && TotalPreorder(FillLe) && TotalPreorder(SnapshotLe)
  {
    BatchOrder();
    FillOrder();
    SnapshotOrder();
  }

  lemma BatchOrder()
    ensures TotalPreorder(BatchLe)
  {
    forall a, b ensures BatchLe(a, b) || BatchLe(b, a) { TextLeTotal(a.batchId, b.batchId); }
    forall a, b, c | BatchLe(a, b) && BatchLe(b, c) ensures BatchLe(a, c) {
      if a.eventTimeMs == b.eventTimeMs == c.eventTimeMs { TextLeTransitive(a.batchId, b.batchId, c.batchId); }
    }
  }

  lemma FillOrder()
    ensures TotalPreorder(FillLe)
  {
    forall a, b ensures FillLe(a, b) || FillLe(b, a) {
      TextLeTotal(a.batchId, b.batchId);
      TextLeTotal(a.orderId, b.orderId);
    }
    forall a, b, c | FillLe(a, b) && FillLe(b, c) ensures FillLe(a, c) {
      if a.eventTimeMs == b.eventTimeMs == c.eventTimeMs {
        PairTransitive(a.batchId, b.batchId, c.batchId, a.orderId, b.orderId, c.orderId);
      }
    }
  }

  lemma SnapshotOrder()
    ensures TotalPreorder(SnapshotLe)
  {
    forall a, b ensures SnapshotLe(a, b) || SnapshotLe(b, a) {
      TextLeTotal(a.venueId, b.venueId);
      TextLeTotal(a.symbol, b.symbol);
    }
    forall a, b, c | SnapshotLe(a, b) && SnapshotLe(b, c) ensures SnapshotLe(a, c) {
      if a.eventTimeMs == b.eventTimeMs == c.eventTimeMs {
        PairTransitive(a.venueId, b.venueId, c.venueId, a.symbol, b.symbol, c.symbol);
      }
    }
  }

  // ------------------------------------------------------------- the join

  function FillsOf(fills: seq<FillRow>, id: string): seq<FillRow> {
    if fills == [] then []
    else
      var last := fills[|fills| - 1];
      FillsOf(fills[..|fills| - 1], id) + if last.batchId == id then [last] else []
  }

  function SnapshotsAt(snapshots: seq<SnapshotRow>, t: int): seq<SnapshotRow> {
    if snapshots == [] then []
    else
      var last := snapshots[|snapshots| - 1];
      SnapshotsAt(snapshots[..|snapshots| - 1], t) + if last.eventTimeMs == t then [last] else []
  }

  /** The simple join: every batch with the fills of its id and the snapshots of its time. */
  function Join(batches: seq<BatchRow>, fills: seq<FillRow>, snapshots: seq<SnapshotRow>)
    : (r: seq<HistoricalBatch>)
    ensures |r| == |batches|
  {
    seq(|batches|, i requires 0 <= i < |batches| =>
      HistoricalBatch(batches[i], FillsOf(fills, batches[i].batchId), SnapshotsAt(snapshots, batches[i].eventTimeMs)))
  }

  /**
    Rows sorted and joined, with no chunks anywhere.  The library's sort is not stable, so
    any correctly sorted arrangement of each stream may be the one that is joined.
   */
  ghost predicate Loads(r: seq<HistoricalBatch>, store: Store, config: Config) {
    if config.fromMs > config.toMs then r == []
    else
      exists b, f, s :: Arranged(b, f, s, store, config) && r == Join(b, f, s)
  }

  ghost predicate Arranged(b: seq<BatchRow>, f: seq<FillRow>, s: seq<SnapshotRow>, store: Store, config: Config) {
    && SortOf(b, All(store.batches, BatchTime, config), BatchLe)
    && SortOf(f, All(store.fills, FillTime, config), FillLe)
    && SortOf(s, All(store.snapshots, SnapshotTime, config), SnapshotLe)
  }

  function FillTotal(r: seq<HistoricalBatch>): nat {
    if r == [] then 0 else FillTotal(r[..|r| - 1]) + |r[|r| - 1].fills|
  }

  function SnapshotTotal(r: seq<HistoricalBatch>): nat {
    if r == [] then 0 else SnapshotTotal(r[..|r| - 1]) + |r[|r| - 1].snapshots|
  }

  function TotalReads(store: Store, config: Config): nat {
    if config.fromMs > config.toMs then 0
    else
      Reads(|InRange(store.batches, BatchTime, config.fromMs, config.toMs)|, config.chunkSize)
      + Reads(|InRange(store.fills, FillTime, config.fromMs, config.toMs)|, config.chunkSize)
      + Reads(|InRange(store.snapshots, SnapshotTime, config.fromMs, config.toMs)|, config.chunkSize)
  }

  class Loader {
    const store: Option<Store>
    var batchesLoaded: nat
    var fillsLoaded: nat
    var snapshotsLoaded: nat
    var chunksRead: nat
    var lastBatchId: string

    constructor (store: Option<Store>)
      ensures this.store == store
      ensures batchesLoaded == fillsLoaded == snapshotsLoaded == chunksRead == 0 && lastBatchId == ""
    {
      this.store := store;
      batchesLoaded, fillsLoaded, snapshotsLoaded, chunksRead, lastBatchId := 0, 0, 0, 0, "";
    }

    method LoadAllChunked<Row>(rows: seq<Row>, time: Row -> int, config: Config) returns (all: seq<Row>)
      modifies this`chunksRead
      ensures all == All(rows, time, config)
      ensures chunksRead == old(chunksRead)
                + Reads(|InRange(rows, time, config.fromMs, config.toMs)|, config.chunkSize)
    {
      all := [];
      if config.chunkSize <= 0 {
        return;
      }
      var available := InRange(rows, time, config.fromMs, config.toMs);
      hide LoadChunk, InRange;
      var offset := 0;
      ghost var rounds := 0;
      while true
        invariant offset == rounds * config.chunkSize && offset <= |available|
        invariant all == available[..offset]
        invariant chunksRead == old(chunksRead) + rounds
        decreases |available| - offset
      {
        var chunk := LoadChunk(available, offset, config.chunkSize);
        ChunkExtends(available, offset, config.chunkSize);
        chunksRead := chunksRead + 1;
        var got := |chunk|;
        all := all + chunk;
        if got < config.chunkSize {
          ChunkCount(|available|, rounds, config.chunkSize, got);
          break;
        }
        OneRoundMore(rounds, config.chunkSize);
        offset := offset + got;
        rounds := rounds + 1;
      }
    }

    method LoadStreams(rows: Store, config: Config)
      returns (batches: seq<BatchRow>, fills: seq<FillRow>, snapshots: seq<SnapshotRow>)
      requires config.fromMs <= config.toMs
      modifies this`chunksRead
      ensures batches == All(rows.batches, BatchTime, config) && fills == All(rows.fills, FillTime, config)
      ensures snapshots == All(rows.snapshots, SnapshotTime, config)
      ensures chunksRead == old(chunksRead) + TotalReads(rows, config)
    {
      hide All, InRange, Reads;
      batches := LoadAllChunked(rows.batches, BatchTime, config);
      fills := LoadAllChunked(rows.fills, FillTime, config);
      snapshots := LoadAllChunked(rows.snapshots, SnapshotTime, config);
    }

    method Run(config: Config) returns (result: seq<HistoricalBatch>)
      modifies this
      ensures if store.None? then result == [] else Loads(result, store.value, config)
      ensures chunksRead == old(chunksRead) + if store.None? then 0 else TotalReads(store.value, config)
      ensures batchesLoaded == old(batchesLoaded) + |result|
      ensures fillsLoaded == old(fillsLoaded) + FillTotal(result)
      ensures snapshotsLoaded == old(snapshotsLoaded) + SnapshotTotal(result)
      ensures lastBatchId == if result == [] then old(lastBatchId) else result[|result| - 1].batchResult.batchId
    {
      result := [];
      if store.None? || config.fromMs > config.toMs {
        return;
      }
      var batches, fills, snapshots := LoadStreams(store.value, config);
      hide All, TotalReads, Loads, FillTotal, SnapshotTotal;
      var fillsTotal, snapshotsTotal;
      result, fillsTotal, snapshotsTotal := SortAndJoin(batches, fills, snapshots, store.value, config);
      batchesLoaded := batchesLoaded + |result|;
      fillsLoaded := fillsLoaded + fillsTotal;
      snapshotsLoaded := snapshotsLoaded + snapshotsTotal;
      if result != [] {
        lastBatchId := result[|result| - 1].batchResult.batchId;
      }
    }
  }

  /** All that callers may know of the library's sort. */
  method LibrarySort<T(!new)>(rows: seq<T>, le: (T, T) -> bool) returns (r: seq<T>)
    requires TotalPreorder(le)
    ensures SortOf(r, rows, le)
  {
    SortSorts(rows, le);
    r := Sort(rows, le);
  }

  method SortAndJoin(batches: seq<BatchRow>, fills: seq<FillRow>, snapshots: seq<SnapshotRow>,
                     ghost store: Store, config: Config)
    returns (result: seq<HistoricalBatch>, fillsTotal: nat, snapshotsTotal: nat)
    requires config.fromMs <= config.toMs
    requires batches == All(store.batches, BatchTime, config) && fills == All(store.fills, FillTime, config)
    requires snapshots == All(store.snapshots, SnapshotTime, config)
    ensures Loads(result, store, config)
    ensures fillsTotal == FillTotal(result) && snapshotsTotal == SnapshotTotal(result)
  {
    OrdersAreTotal();
    hide All, SortOf, Join, TotalPreorder, FillTotal, SnapshotTotal;
    var b := LibrarySort(batches, BatchLe);
    var f := LibrarySort(fills, FillLe);
    var s := LibrarySort(snapshots, SnapshotLe);
    hide BatchLe, FillLe, SnapshotLe;
    assert Arranged(b, f, s, store, config);
    result, fillsTotal, snapshotsTotal := JoinRows(b, f, s);
  }

  method JoinRows(batches: seq<BatchRow>, fills: seq<FillRow>, snapshots: seq<SnapshotRow>)
    returns (result: seq<HistoricalBatch>, fillsTotal: nat, snapshotsTotal: nat)
    ensures result == Join(batches, fills, snapshots)
    ensures fillsTotal == FillTotal(result) && snapshotsTotal == SnapshotTotal(result)
  {
    var fillsByBatch := GroupFills(fills);
    var snapshotsByTime := GroupSnapshots(snapshots);
    hide FillsOf, SnapshotsAt, FillTotal, SnapshotTotal;
    TotalsOfNone();
    result, fillsTotal, snapshotsTotal := [], 0, 0;
    for i := 0 to |batches|
      invariant result == Join(batches, fills, snapshots)[..i]
      invariant fillsTotal == FillTotal(result) && snapshotsTotal == SnapshotTotal(result)
    {
      var br := batches[i];
      var hb := HistoricalBatch(br, [], []);
      if br.batchId in fillsByBatch {
        hb := hb.(fills := fillsByBatch[br.batchId]);
        fillsTotal := fillsTotal + |hb.fills|;
      }
      if br.eventTimeMs in snapshotsByTime {
        hb := hb.(snapshots := snapshotsByTime[br.eventTimeMs]);
        snapshotsTotal := snapshotsTotal + |hb.snapshots|;
      }
      TotalsSnoc(result, hb);
      result := result + [hb];
    }
  }

  lemma TotalsOfNone()
    ensures FillTotal([]) == 0 && SnapshotTotal([]) == 0
  {
  }

  lemma TotalsSnoc(r: seq<HistoricalBatch>, hb: HistoricalBatch)
    ensures FillTotal(r + [hb]) == FillTotal(r) + |hb.fills|
    ensures SnapshotTotal(r + [hb]) == SnapshotTotal(r) + |hb.snapshots|
  {
    assert (r + [hb])[..|r|] == r;
  }

  method GroupFills(fills: seq<FillRow>) returns (m: map<string, seq<FillRow>>)
    ensures forall id :: FillsOf(fills, id) == if id in m then m[id] else []
  {
    m := map[];
    for i := 0 to |fills|
      invariant forall id :: FillsOf(fills[..i], id) == if id in m then m[id] else []
    {
      var fill := fills[i];
      assert fills[..i + 1][..i] == fills[..i];
      m := m[fill.batchId := (if fill.batchId in m then m[fill.batchId] else []) + [fill]];
    }
    assert fills[..|fills|] == fills;
  }

  method GroupSnapshots(snapshots: seq<SnapshotRow>) returns (m: map<int, seq<SnapshotRow>>)
    ensures forall t :: SnapshotsAt(snapshots, t) == if t in m then m[t] else []
  {
    m := map[];
    for i := 0 to |snapshots|
      invariant forall t :: SnapshotsAt(snapshots[..i], t) == if t in m then m[t] else []
    {
      var snap := snapshots[i];
      assert snapshots[..i + 1][..i] == snapshots[..i];
      m := m[snap.eventTimeMs := (if snap.eventTimeMs in m then m[snap.eventTimeMs] else []) + [snap]];
    }
    assert snapshots[..|snapshots|] == snapshots;
  }

  // ------------------------------------------------------------ theorems

  /** The chunk size never shows in the result. */
  lemma ChunkSizeIrrelevant(store: Store, config: Config, other: int, r: seq<HistoricalBatch>)
    requires config.chunkSize > 0 && other > 0
    ensures Loads(r, store, config) <==> Loads(r, store, config.(chunkSize := other))
  {
    hide SortOf, Join, InRange;
    forall b, f, s
      ensures Arranged(b, f, s, store, config) <==> Arranged(b, f, s, store, config.(chunkSize := other))
    {
    }
  }

  lemma {:induction false} InRangeMultiset<Row>(rows: seq<Row>, time: Row -> int, fromMs: int, toMs: int, x: Row)
    ensures multiset(InRange(rows, time, fromMs, toMs))[x]
         == if fromMs <= time(x) <= toMs then multiset(rows)[x] else 0
  {
    if rows != [] {
      InRangeMultiset(rows[1..], time, fromMs, toMs, x);
      assert rows == [rows[0]] + rows[1..];
    }
  }

  lemma SameRowsSameRange<Row(!new)>(a: seq<Row>, b: seq<Row>, time: Row -> int, config: Config)
    requires multiset(a) == multiset(b)
    ensures multiset(All(a, time, config)) == multiset(All(b, time, config))
  {
    if config.chunkSize > 0 {
      var x, y := InRange(a, time, config.fromMs, config.toMs), InRange(b, time, config.fromMs, config.toMs);
      forall r: Row ensures multiset(x)[r] == multiset(y)[r] {
        InRangeMultiset(a, time, config.fromMs, config.toMs, r);
        InRangeMultiset(b, time, config.fromMs, config.toMs, r);
      }
      assert multiset(x) == multiset(y);
    }
  }

  /** No two different rows in range tie in the comparison. */
  ghost predicate DistinctKeys(store: Store, config: Config) {
    && NoTies(All(store.batches, BatchTime, config), BatchLe)
    && NoTies(All(store.fills, FillTime, config), FillLe)
    && NoTies(All(store.snapshots, SnapshotTime, config), SnapshotLe)
  }

  /** The same rows, in whatever order each store keeps them. */
  ghost predicate SameRows(a: Store, b: Store) {
    && multiset(a.batches) == multiset(b.batches) && multiset(a.fills) == multiset(b.fills)
    && multiset(a.snapshots) == multiset(b.snapshots)
  }

  /** With distinct sort keys neither the storage order nor the sort used ever shows. */
  lemma StorageOrderIrrelevant(a: Store, b: Store, config: Config, r: seq<HistoricalBatch>, q: seq<HistoricalBatch>)
    requires SameRows(a, b) && DistinctKeys(a, config)
    requires Loads(r, a, config) && Loads(q, b, config)
    ensures r == q
  {
    OrdersAreTotal();
    hide BatchLe, FillLe, SnapshotLe, TotalPreorder, NoTies, All, SortOf, Join;
    if config.fromMs <= config.toMs {
      SameRowsSameRange(a.batches, b.batches, BatchTime, config);
      SameRowsSameRange(a.fills, b.fills, FillTime, config);
      SameRowsSameRange(a.snapshots, b.snapshots, SnapshotTime, config);
      var x, f, s :| Arranged(x, f, s, a, config) && r == Join(x, f, s);
      var y, g, t :| Arranged(y, g, t, b, config) && q == Join(y, g, t);
      SameSort(x, y, All(a.batches, BatchTime, config), All(b.batches, BatchTime, config), BatchLe);
      SameSort(f, g, All(a.fills, FillTime, config), All(b.fills, FillTime, config), FillLe);
      SameSort(s, t, All(a.snapshots, SnapshotTime, config), All(b.snapshots, SnapshotTime, config), SnapshotLe);
    }
  }

  lemma SameSort<T(!new)>(x: seq<T>, y: seq<T>, a: seq<T>, b: seq<T>, le: (T, T) -> bool)
    requires TotalPreorder(le) && multiset(a) == multiset(b) && NoTies(a, le)
    requires SortOf(x, a, le) && SortOf(y, b, le)
    ensures x == y
  {
    hide TotalPreorder;
    SortedRowsSame(a, a, le);
    SortedRowsSame(a, b, le);
  }

  function BatchKey(r: BatchRow): (int, string) { (r.eventTimeMs, r.batchId) }

  /** Even when rows tie, any correct sort yields batches with the same times and ids in the same order. */
  lemma BatchKeysFixed(rows: seq<BatchRow>, r: seq<BatchRow>)
    requires SortOf(r, rows, BatchLe)
    ensures Map(r, BatchKey) == Map(Sort(rows, BatchLe), BatchKey)
  {
    BatchOrder();
    SortSorts(rows, BatchLe);
    forall x, y | x in r && y in r && BatchLe(x, y) && BatchLe(y, x) ensures BatchKey(x) == BatchKey(y) {
      TextLeAntisymmetric(x.batchId, y.batchId);
    }
    SortsAgree(r, Sort(rows, BatchLe), BatchLe, BatchKey);
  }

  lemma {:induction false} FillCount(fills: seq<FillRow>, id: string, x: FillRow)
    ensures multiset(FillsOf(fills, id))[x] == if x.batchId == id then multiset(fills)[x] else 0
  {
    if fills != [] {
      var init, last := fills[..|fills| - 1], fills[|fills| - 1];
      FillCount(init, id, x);
      assert fills == init + [last];
    }
  }

  lemma {:induction false} SnapshotCount(snapshots: seq<SnapshotRow>, t: int, x: SnapshotRow)
    ensures multiset(SnapshotsAt(snapshots, t))[x] == if x.eventTimeMs == t then multiset(snapshots)[x] else 0
  {
    if snapshots != [] {
      var init, last := snapshots[..|snapshots| - 1], snapshots[|snapshots| - 1];
      SnapshotCount(init, t, x);
      assert snapshots == init + [last];
    }
  }

  /** The same fills and snapshots reach a batch however tied rows were arranged. */
  lemma SameMatches(f: seq<FillRow>, g: seq<FillRow>, s: seq<SnapshotRow>, t: seq<SnapshotRow>, id: string, time: int)
    requires multiset(f) == multiset(g) && multiset(s) == multiset(t)
    ensures multiset(FillsOf(f, id)) == multiset(FillsOf(g, id))
    ensures multiset(SnapshotsAt(s, time)) == multiset(SnapshotsAt(t, time))
  {
    forall x: FillRow ensures multiset(FillsOf(f, id))[x] == multiset(FillsOf(g, id))[x] {
      FillCount(f, id, x);
      FillCount(g, id, x);
    }
    forall x: SnapshotRow ensures multiset(SnapshotsAt(s, time))[x] == multiset(SnapshotsAt(t, time))[x] {
      SnapshotCount(s, time, x);
      SnapshotCount(t, time, x);
    }
    assert multiset(FillsOf(f, id)) == multiset(FillsOf(g, id));
    assert multiset(SnapshotsAt(s, time)) == multiset(SnapshotsAt(t, time));
  }

  /** Two batches with the same time, id, fills and snapshots, tied rows in any order. */
  ghost predicate Agree(a: HistoricalBatch, b: HistoricalBatch) {
    && BatchKey(a.batchResult) == BatchKey(b.batchResult)
    && multiset(a.fills) == multiset(b.fills) && multiset(a.snapshots) == multiset(b.snapshots)
  }

  ghost predicate AllAgree(r: seq<HistoricalBatch>, q: seq<HistoricalBatch>) {
    |r| == |q| && forall i :: 0 <= i < |r| ==> Agree(r[i], q[i])
  }

  /** Even when rows tie, every load of the same rows gives the same batches, matches and counters. */
  lemma LoadsAgree(a: Store, b: Store, config: Config, r: seq<HistoricalBatch>, q: seq<HistoricalBatch>)
    requires SameRows(a, b) && Loads(r, a, config) && Loads(q, b, config)
    ensures AllAgree(r, q)
    ensures FillTotal(r) == FillTotal(q) && SnapshotTotal(r) == SnapshotTotal(q)
  {
    hide BatchLe, FillLe, SnapshotLe, All, FillsOf, SnapshotsAt, FillTotal, SnapshotTotal;
    if config.fromMs <= config.toMs {
      SameRowsSameRange(a.batches, b.batches, BatchTime, config);
      SameRowsSameRange(a.fills, b.fills, FillTime, config);
      SameRowsSameRange(a.snapshots, b.snapshots, SnapshotTime, config);
      var x, f, s :| Arranged(x, f, s, a, config) && r == Join(x, f, s);
      var y, g, t :| Arranged(y, g, t, b, config) && q == Join(y, g, t);
      JoinsAgree(x, f, s, y, g, t, All(a.batches, BatchTime, config), All(b.batches, BatchTime, config));
    }
    TotalsAgree(r, q);
  }

  lemma JoinsAgree(x: seq<BatchRow>, f: seq<FillRow>, s: seq<SnapshotRow>,
                   y: seq<BatchRow>, g: seq<FillRow>, t: seq<SnapshotRow>, a: seq<BatchRow>, b: seq<BatchRow>)
    requires multiset(a) == multiset(b) && SortOf(x, a, BatchLe) && SortOf(y, b, BatchLe)
    requires multiset(f) == multiset(g) && multiset(s) == multiset(t)
    ensures AllAgree(Join(x, f, s), Join(y, g, t))
  {
    hide BatchLe, FillsOf, SnapshotsAt;
    BatchKeysFixed(b, x);
    BatchKeysFixed(b, y);
    hide SortOf;
    var r, q := Join(x, f, s), Join(y, g, t);
    assert |Map(x, BatchKey)| == |x| && |Map(y, BatchKey)| == |y|;
    forall i | 0 <= i < |r| ensures Agree(r[i], q[i]) {
      assert Map(x, BatchKey)[i] == BatchKey(x[i]) && Map(y, BatchKey)[i] == BatchKey(y[i]);
      SameMatches(f, g, s, t, x[i].batchId, x[i].eventTimeMs);
    }
  }

  lemma {:induction false} TotalsAgree(r: seq<HistoricalBatch>, q: seq<HistoricalBatch>)
    requires AllAgree(r, q)
    ensures FillTotal(r) == FillTotal(q) && SnapshotTotal(r) == SnapshotTotal(q)
  {
    if r != [] {
      var i := |r| - 1;
      TotalsAgree(r[..i], q[..i]);
      assert Agree(r[i], q[i]);
      assert |multiset(r[i].fills)| == |r[i].fills| && |multiset(q[i].fills)| == |q[i].fills|;
      assert |multiset(r[i].snapshots)| == |r[i].snapshots| && |multiset(q[i].snapshots)| == |q[i].snapshots|;
    }
  }

  // ---------------------------------------------- what a load consists of

  function Rows(r: seq<HistoricalBatch>): (rows: seq<BatchRow>)
    ensures |rows| == |r| && forall i :: 0 <= i < |r| ==> rows[i] == r[i].batchResult
  {
    seq(|r|, i requires 0 <= i < |r| => r[i].batchResult)
  }

  /** Chunks of no rows, or an empty range, load nothing. */
  lemma NothingLoaded(r: seq<HistoricalBatch>, store: Store, config: Config)
    requires Loads(r, store, config) && (config.chunkSize <= 0 || config.fromMs > config.toMs)
    ensures r == []
  {
    if config.fromMs <= config.toMs { LoadsAllRows(store, config, r); }
  }

  /** The batches come in time order, and at one time in the byte order of their ids. */
  lemma LoadedInTimeOrder(r: seq<HistoricalBatch>, store: Store, config: Config, i: nat, j: nat)
    requires Loads(r, store, config) && i < j < |r|
    ensures var a, b := r[i].batchResult, r[j].batchResult;
            && a.eventTimeMs <= b.eventTimeMs
            && (a.eventTimeMs == b.eventTimeMs ==> InByteOrder(a.batchId, b.batchId))
  {
    hide All, FillLe, SnapshotLe, FillsOf, SnapshotsAt;
    var b: seq<BatchRow>, f, s :| Arranged(b, f, s, store, config) && r == Join(b, f, s);
    assert BatchLe(b[i], b[j]);
    TextLeIsByteOrder(b[i].batchId, b[j].batchId);
  }

  /** They are exactly the stored batches whose time is in the range, each as often as stored. */
  lemma LoadedRows(r: seq<HistoricalBatch>, store: Store, config: Config, x: BatchRow)
    requires Loads(r, store, config) && config.chunkSize > 0
    ensures multiset(Rows(r))[x]
         == if config.fromMs <= x.eventTimeMs <= config.toMs then multiset(store.batches)[x] else 0
  {
    hide BatchLe, FillLe, SnapshotLe, FillsOf, SnapshotsAt, Sorted;
    InRangeMultiset(store.batches, BatchTime, config.fromMs, config.toMs, x);
    if config.fromMs <= config.toMs {
      var b: seq<BatchRow>, f, s :| Arranged(b, f, s, store, config) && r == Join(b, f, s);
      assert Rows(r) == b;
    }
  }

  /** A batch holds exactly the stored fills of its id in the range. */
  lemma LoadedFills(r: seq<HistoricalBatch>, store: Store, config: Config, i: nat, x: FillRow)
    requires Loads(r, store, config) && i < |r|
    ensures multiset(r[i].fills)[x]
         == if x.batchId == r[i].batchResult.batchId && config.fromMs <= x.eventTimeMs <= config.toMs
            then multiset(store.fills)[x] else 0
  {
    if config.chunkSize <= 0 || config.fromMs > config.toMs { NothingLoaded(r, store, config); }
    hide BatchLe, FillLe, SnapshotLe, FillsOf, SnapshotsAt, Sorted;
    var b: seq<BatchRow>, f, s :| Arranged(b, f, s, store, config) && r == Join(b, f, s);
    InRangeMultiset(store.fills, FillTime, config.fromMs, config.toMs, x);
    FillCount(f, b[i].batchId, x);
  }

  /** And exactly the stored snapshots of its time. */
  lemma LoadedSnapshots(r: seq<HistoricalBatch>, store: Store, config: Config, i: nat, x: SnapshotRow)
    requires Loads(r, store, config) && i < |r|
    ensures multiset(r[i].snapshots)[x]
         == if x.eventTimeMs == r[i].batchResult.eventTimeMs then multiset(store.snapshots)[x] else 0
  {
    if config.chunkSize <= 0 || config.fromMs > config.toMs { NothingLoaded(r, store, config); }
    LoadedRows(r, store, config, r[i].batchResult);
    assert Rows(r)[i] in multiset(Rows(r));
    hide BatchLe, FillLe, SnapshotLe, FillsOf, SnapshotsAt, Sorted, Rows;
    var b: seq<BatchRow>, f, s :| Arranged(b, f, s, store, config) && r == Join(b, f, s);
    InRangeMultiset(store.snapshots, SnapshotTime, config.fromMs, config.toMs, x);
    SnapshotCount(s, b[i].eventTimeMs, x);
  }

  lemma {:induction false} FillsStaySorted(fills: seq<FillRow>, id: string)
    requires Sorted(fills, FillLe)
    ensures Sorted(FillsOf(fills, id), FillLe)
    ensures forall x :: x in FillsOf(fills, id) ==> x in fills && x.batchId == id
  {
    if fills != [] {
      var init, last := fills[..|fills| - 1], fills[|fills| - 1];
      FillsStaySorted(init, id);
      hide FillLe;
      forall x | x in FillsOf(init, id) ensures FillLe(x, last) {
        var k :| 0 <= k < |init| && init[k] == x;
        assert FillLe(fills[k], fills[|fills| - 1]);
      }
    }
  }

  lemma {:induction false} SnapshotsStaySorted(snapshots: seq<SnapshotRow>, t: int)
    requires Sorted(snapshots, SnapshotLe)
    ensures Sorted(SnapshotsAt(snapshots, t), SnapshotLe)
    ensures forall x :: x in SnapshotsAt(snapshots, t) ==> x in snapshots && x.eventTimeMs == t
  {
    if snapshots != [] {
      var init, last := snapshots[..|snapshots| - 1], snapshots[|snapshots| - 1];
      SnapshotsStaySorted(init, t);
      hide SnapshotLe;
      forall x | x in SnapshotsAt(init, t) ensures SnapshotLe(x, last) {
        var k :| 0 <= k < |init| && init[k] == x;
        assert SnapshotLe(snapshots[k], snapshots[|snapshots| - 1]);
      }
    }
  }

  /** A batch's fills come in time order, and at one time in the byte order of their order ids. */
  lemma LoadedFillOrder(r: seq<HistoricalBatch>, store: Store, config: Config, i: nat, a: nat, b: nat)
    requires Loads(r, store, config) && i < |r| && a < b < |r[i].fills|
    ensures var x, y := r[i].fills[a], r[i].fills[b];
            && x.eventTimeMs <= y.eventTimeMs
            && (x.eventTimeMs == y.eventTimeMs ==> InByteOrder(x.orderId, y.orderId))
  {
    hide All, BatchLe, SnapshotLe, FillsOf, SnapshotsAt;
    var rows: seq<BatchRow>, f, s :| Arranged(rows, f, s, store, config) && r == Join(rows, f, s);
    FillsStaySorted(f, rows[i].batchId);
    var x, y := r[i].fills[a], r[i].fills[b];
    assert FillLe(x, y);
    assert x in FillsOf(f, rows[i].batchId) && y in FillsOf(f, rows[i].batchId);
    TextLeIsByteOrder(x.orderId, y.orderId);
  }

  /** Its snapshots come in the byte order of their venues, and at one venue of their symbols. */
  lemma LoadedSnapshotOrder(r: seq<HistoricalBatch>, store: Store, config: Config, i: nat, a: nat, b: nat)
    requires Loads(r, store, config) && i < |r| && a < b < |r[i].snapshots|
    ensures var x, y := r[i].snapshots[a], r[i].snapshots[b];
            if x.venueId != y.venueId then InByteOrder(x.venueId, y.venueId) else InByteOrder(x.symbol, y.symbol)
  {
    hide All, BatchLe, FillLe, FillsOf, SnapshotsAt;
    var rows: seq<BatchRow>, f, s :| Arranged(rows, f, s, store, config) && r == Join(rows, f, s);
    SnapshotsStaySorted(s, rows[i].eventTimeMs);
    var x, y := r[i].snapshots[a], r[i].snapshots[b];
    assert SnapshotLe(x, y);
    assert x in SnapshotsAt(s, rows[i].eventTimeMs) && y in SnapshotsAt(s, rows[i].eventTimeMs);
    TextLeIsByteOrder(x.venueId, y.venueId);
    TextLeIsByteOrder(x.symbol, y.symbol);
  }

  // ------------------------------------------------------------- preflight

  const PREFLIGHT_CHUNK: int := 10000
  const INT32_MAX: int := 0x7fff_ffff

  function BatchIds(rows: seq<BatchRow>): set<string> {
    set r | r in rows && r.batchId != "" :: r.batchId
  }

  /** Distinct non-empty batch ids in range, capped at the largest 32-bit integer. */
  function PreflightCount(store: Store, fromMs: int, toMs: int): int {
    Min(|BatchIds(InRange(store.batches, BatchTime, fromMs, toMs))|, INT32_MAX)
  }

  lemma NoRowsNoIds(rows: seq<BatchRow>)
    requires rows == []
    ensures BatchIds(rows) == {}
  {
  }

  lemma BatchIdsAppend(a: seq<BatchRow>, b: seq<BatchRow>)
    ensures BatchIds(a + b) == BatchIds(a) + BatchIds(b)
  {
  }

  lemma SubsetNoLarger<T>(a: set<T>, b: set<T>)
    requires a <= b
    ensures |a| <= |b|
  {
    assert b == a + (b - a);
  }

  method PreflightHistoricalBatches(store: Option<Store>, fromMs: int, toMs: int) returns (r: Option<int>)
    ensures r == match store case None => None case Some(s) => Some(PreflightCount(s, fromMs, toMs))
  {
    hide InRange, BatchIds, LoadChunk;
    if store.None? {
      return None;
    }
    var rows := InRange(store.value.batches, BatchTime, fromMs, toMs);
    var offset := 0;
    var unique: set<string> := {};
    NoRowsNoIds(rows[..0]);
    while true
      invariant offset <= |rows| && unique == BatchIds(rows[..offset])
      decreases |rows| - offset
    {
      var chunk := LoadChunk(rows, offset, PREFLIGHT_CHUNK);
      var got := |chunk|;
      ChunkExtends(rows, offset, PREFLIGHT_CHUNK);
      BatchIdsAppend(rows[..offset], chunk);
      unique := AddIds(unique, chunk);
      if got < PREFLIGHT_CHUNK {
        assert rows[..|rows|] == rows;
        break;
      }
      offset := offset + got;
      if |unique| >= INT32_MAX {
        PrefixIds(rows, offset);
        return Some(INT32_MAX);
      }
    }
    r := Some(Min(|unique|, INT32_MAX));
  }

  method AddIds(start: set<string>, chunk: seq<BatchRow>) returns (unique: set<string>)
    ensures unique == start + BatchIds(chunk)
  {
    unique := start;
    for i := 0 to |chunk|
      invariant unique == start + BatchIds(chunk[..i])
    {
      assert chunk[..i + 1] == chunk[..i] + [chunk[i]];
      BatchIdsAppend(chunk[..i], [chunk[i]]);
      if chunk[i].batchId != "" {
        unique := unique + {chunk[i].batchId};
      }
    }
    assert chunk[..|chunk|] == chunk;
  }

  lemma PrefixIds(rows: seq<BatchRow>, n: nat)
    requires n <= |rows|
    ensures |BatchIds(rows[..n])| <= |BatchIds(rows)|
  {
    assert rows == rows[..n] + rows[n..];
    BatchIdsAppend(rows[..n], rows[n..]);
    SubsetNoLarger(BatchIds(rows[..n]), BatchIds(rows));
  }

  lemma {:induction false} NoMoreIdsThanRows(rows: seq<BatchRow>)
    ensures |BatchIds(rows)| <= |rows|
  {
    if rows != [] {
      var init, last := rows[..|rows| - 1], rows[|rows| - 1];
      NoMoreIdsThanRows(init);
      assert rows == init + [last];
      BatchIdsAppend(init, [last]);
      SubsetNoLarger(BatchIds([last]), {last.batchId});
      var a, b := BatchIds(init), BatchIds([last]);
      assert |a + b| <= |a| + |b| by { assert a + b == a + (b - a); SubsetNoLarger(b - a, b); }
    }
  }

  lemma {:induction false} EmptyRange<Row>(rows: seq<Row>, time: Row -> int, fromMs: int, toMs: int)
    requires fromMs > toMs
    ensures InRange(rows, time, fromMs, toMs) == []
  {
    if rows != [] { EmptyRange(rows[1..], time, fromMs, toMs); }
  }

  /** Some row in range has a batch id. */
  predicate SomeIdInRange(rows: seq<BatchRow>) {
    exists i :: 0 <= i < |rows| && rows[i].batchId != ""
  }

  lemma IdsIffSomeId(rows: seq<BatchRow>)
    ensures |BatchIds(rows)| > 0 <==> SomeIdInRange(rows)
  {
    if SomeIdInRange(rows) {
      var i :| 0 <= i < |rows| && rows[i].batchId != "";
      assert rows[i].batchId in BatchIds(rows);
    }
    if BatchIds(rows) != {} {
      var id :| id in BatchIds(rows);
    }
  }

  /**
    The preflight never promises more batches than the loader returns for the same range,
    unless the loader is told to read in chunks of no rows while there is a batch to count.
   */
  lemma PreflightWithinLoad(store: Store, config: Config, r: seq<HistoricalBatch>)
    requires Loads(r, store, config)
    ensures PreflightCount(store, config.fromMs, config.toMs) <= |r|
       <==> (config.chunkSize > 0 || !SomeIdInRange(InRange(store.batches, BatchTime, config.fromMs, config.toMs)))
  {
    var rows := InRange(store.batches, BatchTime, config.fromMs, config.toMs);
    NoMoreIdsThanRows(rows);
    IdsIffSomeId(rows);
    if config.fromMs > config.toMs {
      EmptyRange(store.batches, BatchTime, config.fromMs, config.toMs);
    } else {
      LoadsAllRows(store, config, r);
    }
    hide BatchIds, InRange, Loads;
  }

  lemma LoadsAllRows(store: Store, config: Config, r: seq<HistoricalBatch>)
    requires config.fromMs <= config.toMs && Loads(r, store, config)
    ensures |r| == |All(store.batches, BatchTime, config)|
  {
    hide All, BatchLe, FillLe, SnapshotLe;
    var b: seq<BatchRow>, f, s :| Arranged(b, f, s, store, config) && r == Join(b, f, s);
    var all := All(store.batches, BatchTime, config);
    assert |multiset(b)| == |b| && |multiset(all)| == |all|;
  }

  /** The preflight counts the different ids of the stored batches in the range, up to 2147483647. */
  lemma PreflightMeaning(store: Store, fromMs: int, toMs: int, ids: set<string>)
    requires forall id :: id in ids <==>
               id != "" && exists k :: 0 <= k < |store.batches| && store.batches[k].batchId == id
                                       && fromMs <= store.batches[k].eventTimeMs <= toMs
    ensures PreflightCount(store, fromMs, toMs) == if |ids| < 2147483647 then |ids| else 2147483647
  {
    var rows := InRange(store.batches, BatchTime, fromMs, toMs);
    forall id ensures id in BatchIds(rows) <==> id in ids {
      if id in BatchIds(rows) {
        var r :| r in rows && r.batchId == id && id != "";
        InRangeMultiset(store.batches, BatchTime, fromMs, toMs, r);
        assert r in multiset(rows) && r in multiset(store.batches);
        var k :| 0 <= k < |store.batches| && store.batches[k] == r;
      }
      if id in ids {
        var k :| 0 <= k < |store.batches| && store.batches[k].batchId == id
                 && fromMs <= store.batches[k].eventTimeMs <= toMs;
        var r := store.batches[k];
        InRangeMultiset(store.batches, BatchTime, fromMs, toMs, r);
        assert r in multiset(store.batches) && r in multiset(rows);
        assert r in rows;
      }
    }
    assert BatchIds(rows) == ids;
  }
}
