/**
 Footer-indexed range reads of an Arrow IPC File: only the blocks that the range meets are requested,
 and their slices make up the range (`ArrowFileReadOperation` in `src/arrow.rs`).
 */
module ArrowFileRead {
  import opened Common
  import opened ArrowRange
  import Index = ArrowFileIndex

  type Record = Index.IndexedRecord

  /**
   The indexed File: what its record blocks hold, and which columns use a dictionary.  `detachedBytes`
   is what the projection of a record takes once it is detached from its block.
   */
  datatype File = File(
    schema: nat, width: nat, dictionaries: seq<Index.Block>, records: seq<Record>, batches: seq<Batch>, usesDictionary: seq<bool>,
    limits: Limits, detachedBytes: (nat, RangePlan) -> nat)

  /** The index of the file is the one that opening it gives: a record for every batch, by prefix sums. */
  predicate FileOk(f: File) {
    && BatchesOk(f.batches, f.schema, f.width) && |f.records| == |f.batches| && |f.usesDictionary| == f.width
    && forall i :: 0 <= i < |f.records| ==> f.records[i].rowCount == f.batches[i].rows && f.records[i].rowStart == RowsBefore(f.batches, i)
  }

  /** A row index by prefix sums, over records whose counts are those of their batches, is a file's index. */
  lemma IndexFits(index: Index.Index, env: Index.Env, source: seq<byte>, batches: seq<Batch>)
    requires Index.IndexOk(index, env, source) && index.Complete() && |index.records| == |batches|
    requires forall i :: 0 <= i < |batches| ==>
               env.rowCount(Index.MetadataOf(source, index.records[i].block), index.records[i].block) == Ok(batches[i].rows)
    ensures index.rows == Rows(batches)
    ensures forall i :: 0 <= i < |batches| ==> index.records[i].rowCount == batches[i].rows && index.records[i].rowStart == RowsBefore(batches, i)
  {
    forall i | 0 <= i <= |batches| ensures Index.RowsOf(index.records[..i]) == RowsBefore(batches, i) {
      SameRows(index.records, batches, i);
    }
    assert index.records[..|batches|] == index.records;
  }

  lemma {:induction false} SameRows(records: seq<Record>, batches: seq<Batch>, n: nat)
    requires n <= |records| == |batches| && forall i :: 0 <= i < |batches| ==> records[i].rowCount == batches[i].rows
    ensures Index.RowsOf(records[..n]) == RowsBefore(batches, n)
  {
    if n > 0 {
      SameRows(records, batches, n - 1);
      assert records[..n][..n - 1] == records[..n - 1];
    }
  }

  // ---------------------------------------------------------------- which blocks are needed

  datatype Required = Dictionary(index: nat) | RecordBlock(index: nat)

  predicate Hit(r: Record, from: nat, to: nat) {
    r.rowStart < to && r.rowStart + r.rowCount > from
  }

  /** The first `n` records that meet the rows, in order. */
  function Hits(records: seq<Record>, n: nat, from: nat, to: nat): (r: seq<nat>)
    requires n <= |records|
    ensures forall k :: 0 <= k < |r| ==> r[k] < n && Hit(records[r[k]], from, to)
  {
    if n == 0 then []
    else
      var before := Hits(records, n - 1, from, to);
      if Hit(records[n - 1], from, to) then before + [n - 1] else before
  }

  function SliceOf(f: File, i: nat, from: nat, to: nat, column: nat): Array
    requires i < |f.records| == |f.batches|
  {
    var r := f.records[i];
    Cut(ColumnOf(f.batches[i], column), Max(from, r.rowStart) - r.rowStart, Min(to, r.rowStart + r.rowCount) - r.rowStart)
  }

  function Slices(f: File, hits: seq<nat>, from: nat, to: nat, column: nat): Array
    requires |f.records| == |f.batches| && forall k :: 0 <= k < |hits| ==> hits[k] < |f.records|
  {
    if hits == [] then []
    else Slices(f, hits[..|hits| - 1], from, to, column) + SliceOf(f, hits[|hits| - 1], from, to, column)
  }

  /** A block contributes its overlap, and a block that is not hit has none. */
  lemma SliceIsOverlap(f: File, i: nat, from: nat, to: nat, column: nat)
    requires FileOk(f) && i < |f.records|
    ensures SliceOf(f, i, from, to, column) == Overlap(f.batches, i, column, from, to)
    ensures !Hit(f.records[i], from, to) ==> SliceOf(f, i, from, to, column) == []
  {
    hide RowsBefore, Column;
  }

  lemma HitsStep(f: File, n: nat, from: nat, to: nat, column: nat)
    requires |f.records| == |f.batches| && 0 < n <= |f.records|
    requires !Hit(f.records[n - 1], from, to) ==> SliceOf(f, n - 1, from, to, column) == []
    ensures Slices(f, Hits(f.records, n, from, to), from, to, column)
         == Slices(f, Hits(f.records, n - 1, from, to), from, to, column) + SliceOf(f, n - 1, from, to, column)
  {
    hide SliceOf;
    var before, hits := Hits(f.records, n - 1, from, to), Hits(f.records, n, from, to);
    if Hit(f.records[n - 1], from, to) {
      assert hits[..|hits| - 1] == before;
    }
  }

  /** What the first `n` records give, by their slices and by cutting the column. */
  ghost predicate Covered(f: File, n: nat, from: nat, to: nat, column: nat)
    requires n <= |f.records| == |f.batches| && from <= to
  {
    && RowsBefore(f.batches, n) <= |Column(f.batches, |f.batches|, column)|
    && Slices(f, Hits(f.records, n, from, to), from, to, column)
       == Upto(Column(f.batches, |f.batches|, column), from, to, RowsBefore(f.batches, n))
  }

  lemma NothingCovered(f: File, from: nat, to: nat, column: nat)
    requires |f.records| == |f.batches| && from <= to
    ensures Covered(f, 0, from, to, column)
  {
  }

  lemma CoveredStep(f: File, n: nat, from: nat, to: nat, column: nat)
    requires FileOk(f) && column < f.width && 0 < n <= |f.records| && from <= to && Covered(f, n - 1, from, to, column)
    ensures Covered(f, n, from, to, column)
  {
    hide Upto, Column, Overlap, Slices, Hits, SliceOf, Hit, RowsBefore, FileOk, BatchesOk;
    FileBatches(f);
    OneBatchMore(f.batches, n - 1, column, f.schema, f.width, from, to);
    SliceIsOverlap(f, n - 1, from, to, column);
    HitsStep(f, n, from, to, column);
  }

  lemma FileBatches(f: File)
    requires FileOk(f)
    ensures BatchesOk(f.batches, f.schema, f.width) && |f.records| == |f.batches|
  {
  }

  /** The blocks that are left out contribute nothing: the slices of the others are the range. */
  lemma {:induction false} HitsCoverTheRange(f: File, n: nat, from: nat, to: nat, column: nat)
    requires FileOk(f) && column < f.width && n <= |f.records| == |f.batches| && from <= to
    ensures Covered(f, n, from, to, column)
  {
    hide Covered, FileOk;
    if n == 0 {
      NothingCovered(f, from, to, column);
    } else {
      HitsCoverTheRange(f, n - 1, from, to, column);
      CoveredStep(f, n, from, to, column);
    }
  }

  // ---------------------------------------------------------------- the operation

  /** What the decoder makes of a block: the bytes it declares, and whether it decodes. */
  datatype Outcome = Outcome(declared: Result<nat>, decodes: Result<()>, capacity: nat)

  /** What the operation retains, and what the blocks fed so far declare in all. */
  datatype Usage = Usage(dictionaries: nat, records: nat, declared: nat)

  predicate InFile(f: File, r: Required) {
    if r.Dictionary? then r.index < |f.dictionaries| else r.index < |f.records| == |f.batches|
  }

  function BlockOf(f: File, r: Required): Index.Block
    requires InFile(f, r)
  {
    if r.Dictionary? then f.dictionaries[r.index] else f.records[r.index].block
  }

  /** What a block decodes to, by estimate. */
  function Estimate(f: File, r: Required, u: Usage, declared: nat): nat
    requires InFile(f, r) && declared >= u.declared
  {
    Max(BlockOf(f, r).bodyLength, declared - u.declared)
  }

  function UsageAfter(f: File, plan: RangePlan, r: Required, u: Usage, declared: nat): Usage
    requires InFile(f, r) && declared >= u.declared
  {
    if r.Dictionary? then Usage(u.dictionaries + Estimate(f, r, u, declared), u.records, declared)
    else Usage(u.dictionaries, u.records + f.detachedBytes(r.index, plan), declared)
  }

  /**
   The block can be taken: it decodes, what is live while it is decoded (the answer, two copies of
   the block, the dictionaries once more) fits the limit, and so does what is retained afterwards.
   */
  predicate Takes(f: File, plan: RangePlan, r: Required, u: Usage, ingress: nat, o: Outcome)
    requires InFile(f, r)
  {
    && o.declared.Ok? && o.declared.value >= u.declared && o.decodes.Ok?
    && 2 * u.dictionaries + u.records + Max(o.capacity, ingress) + 2 * Estimate(f, r, u, o.declared.value) <= f.limits.maxDecodedBytes
    && var after := UsageAfter(f, plan, r, u, o.declared.value);
       after.dictionaries + after.records <= f.limits.maxDecodedBytes
  }

  // ---------------------------------------------------------------- memory over a whole read

  /** What a decoder reports after each block of a read: the bytes declared so far, which never go down. */
  predicate Reports(f: File, required: seq<Required>, declared: seq<nat>) {
    && |declared| == |required| && (forall k :: 0 <= k < |required| ==> InFile(f, required[k]))
    && (forall j, k :: 0 <= j < k < |declared| ==> declared[j] <= declared[k])
  }

  /** What block `k` adds to the bytes declared. */
  function Growth(declared: seq<nat>, k: nat): int
    requires k < |declared|
  {
    var now: int, before: int := declared[k], if k == 0 then 0 else declared[k - 1];
    now - before
  }

  /** A block decodes to at least its body and to what it declares. */
  function SizeAt(f: File, required: seq<Required>, declared: seq<nat>, k: nat): int
    requires Reports(f, required, declared) && k < |required|
  {
    Max(BlockOf(f, required[k]).bodyLength, Growth(declared, k))
  }

  function DictionaryBytes(f: File, required: seq<Required>, declared: seq<nat>, n: nat): int
    requires Reports(f, required, declared) && n <= |required|
  {
    if n == 0 then 0
    else DictionaryBytes(f, required, declared, n - 1) + if required[n - 1].Dictionary? then SizeAt(f, required, declared, n - 1) else 0
  }

  function ProjectedBytes(f: File, plan: RangePlan, required: seq<Required>, n: nat): nat
    requires n <= |required|
  {
    if n == 0 then 0
    else ProjectedBytes(f, plan, required, n - 1) + if required[n - 1].RecordBlock? then f.detachedBytes(required[n - 1].index, plan) else 0
  }

  /** The account after `n` blocks. */
  function UsageAt(f: File, plan: RangePlan, required: seq<Required>, declared: seq<nat>, n: nat): (u: Usage)
    requires Reports(f, required, declared) && n <= |required|
    ensures n == 0 ==> u == Usage(0, 0, 0)
    ensures n > 0 ==> u.declared == declared[n - 1]
  {
    if n == 0 then Usage(0, 0, 0)
    else UsageAfter(f, plan, required[n - 1], UsageAt(f, plan, required, declared, n - 1), declared[n - 1])
  }

  /** The account is the sum over the blocks: dictionaries by their size, records by their detached projection. */
  lemma {:induction false} UsageIsSum(f: File, plan: RangePlan, required: seq<Required>, declared: seq<nat>, n: nat)
    requires Reports(f, required, declared) && n <= |required|
    ensures var u := UsageAt(f, plan, required, declared, n);
            u.dictionaries == DictionaryBytes(f, required, declared, n) && u.records == ProjectedBytes(f, plan, required, n)
  {
    if n > 0 {
      UsageIsSum(f, plan, required, declared, n - 1);
    }
  }

  /**
   Block `n` is taken exactly if it decodes and two things fit the limit: what is live while it is decoded
   (all dictionaries and their copies, all projections, the answer, the block and what it decodes
   to) and what is retained afterwards.
   */
  lemma TakesExactlyWhen(f: File, plan: RangePlan, required: seq<Required>, declared: seq<nat>, n: nat, ingress: nat, capacity: nat, decodes: Result<()>)
    requires Reports(f, required, declared) && n < |required|
    ensures Takes(f, plan, required[n], UsageAt(f, plan, required, declared, n), ingress, Outcome(Ok(declared[n]), decodes, capacity))
       <==> && decodes.Ok?
            && DictionaryBytes(f, required, declared, n) + DictionaryBytes(f, required, declared, n) + ProjectedBytes(f, plan, required, n)
               + Max(capacity, ingress) + SizeAt(f, required, declared, n) + SizeAt(f, required, declared, n) <= f.limits.maxDecodedBytes
            && DictionaryBytes(f, required, declared, n + 1) + ProjectedBytes(f, plan, required, n + 1) <= f.limits.maxDecodedBytes
  {
    UsageIsSum(f, plan, required, declared, n);
    UsageIsSum(f, plan, required, declared, n + 1);
    hide DictionaryBytes, ProjectedBytes;
  }

  function NeedsDictionaries(f: File, plan: RangePlan): bool
    requires plan.columnStart + plan.returnedColumns <= |f.usesDictionary|
  {
    exists c :: plan.columnStart <= c < plan.columnStart + plan.returnedColumns && f.usesDictionary[c]
  }

  function Dictionaries(n: nat): (r: seq<Required>)
    ensures |r| == n && forall k :: 0 <= k < n ==> r[k] == Dictionary(k)
  {
    seq(n, (k: nat) => Dictionary(k))
  }

  function RecordBlocks(hits: seq<nat>): (r: seq<Required>)
    ensures |r| == |hits| && forall k :: 0 <= k < |hits| ==> r[k] == RecordBlock(hits[k])
  {
    seq(|hits|, k requires 0 <= k < |hits| => RecordBlock(hits[k]))
  }

  /** The blocks of a plan: the dictionaries if a projected column uses one, then the records that are hit. */
  function RequiredBlocks(f: File, plan: RangePlan): (r: seq<Required>)
    requires FileOk(f) && plan.columnStart + plan.returnedColumns <= f.width
    ensures forall k :: 0 <= k < |r| ==> InFile(f, r[k])
  {
    if plan.returnedRows == 0 || plan.returnedColumns == 0 then []
    else
      (if NeedsDictionaries(f, plan) then Dictionaries(|f.dictionaries|) else [])
      + RecordBlocks(Hits(f.records, |f.records|, plan.rowStart, plan.rowStart + plan.returnedRows))
  }

  /** The record blocks among the first `n` required ones. */
  function RecordsAmong(required: seq<Required>, n: nat): seq<nat>
    requires n <= |required|
  {
    if n == 0 then []
    else RecordsAmong(required, n - 1) + if required[n - 1].RecordBlock? then [required[n - 1].index] else []
  }

  lemma AmongStep(f: File, required: seq<Required>, n: nat)
    requires n < |required|
    ensures RecordsAmong(required, n + 1)
         == RecordsAmong(required, n) + if required[n].RecordBlock? then [required[n].index] else []
    ensures FileOk(f) ==> |f.records| == |f.batches|
  {
  }

  lemma {:induction false} RecordsAfterDictionaries(required: seq<Required>, d: nat, n: nat, hits: seq<nat>)
    requires d <= n <= |required| && |required| == d + |hits|
    requires forall k :: 0 <= k < d ==> required[k].Dictionary?
    requires forall k :: 0 <= k < |hits| ==> required[d + k] == RecordBlock(hits[k])
    ensures RecordsAmong(required, n) == hits[..n - d]
  {
    if n > d {
      RecordsAfterDictionaries(required, d, n - 1, hits);
      assert required[n - 1] == required[d + (n - 1 - d)] == RecordBlock(hits[n - 1 - d]);
      assert hits[..n - d] == hits[..n - 1 - d] + [hits[n - 1 - d]];
    } else if n > 0 {
      NoRecordsAmong(required, n);
    }
  }

  lemma {:induction false} NoRecordsAmong(required: seq<Required>, n: nat)
    requires n <= |required| && forall k :: 0 <= k < n ==> required[k].Dictionary?
    ensures RecordsAmong(required, n) == []
  {
    if n > 0 {
      NoRecordsAmong(required, n - 1);
    }
  }

  /** All required blocks together hold exactly the records that are hit. */
  lemma RequiredAreHits(f: File, plan: RangePlan)
    requires FileOk(f) && plan.columnStart + plan.returnedColumns <= f.width
    requires plan.returnedRows > 0 && plan.returnedColumns > 0
    ensures var required := RequiredBlocks(f, plan);
            RecordsAmong(required, |required|) == Hits(f.records, |f.records|, plan.rowStart, plan.rowStart + plan.returnedRows)
  {
    assert |f.usesDictionary| == f.width;
    hide RecordsAmong, Hits, FileOk, NeedsDictionaries, Dictionaries, RecordBlocks;
    var hits := Hits(f.records, |f.records|, plan.rowStart, plan.rowStart + plan.returnedRows);
    var d := if NeedsDictionaries(f, plan) then |f.dictionaries| else 0;
    assert Dictionaries(0) == [];
    assert RequiredBlocks(f, plan) == Dictionaries(d) + RecordBlocks(hits);
    hide RequiredBlocks;
    RecordsOfConcat(d, hits);
  }

  lemma RecordsOfConcat(d: nat, hits: seq<nat>)
    ensures var required := Dictionaries(d) + RecordBlocks(hits); RecordsAmong(required, |required|) == hits
  {
    hide RecordsAmong, Dictionaries, RecordBlocks;
    RecordsAfterDictionaries(Dictionaries(d) + RecordBlocks(hits), d, d + |hits|, hits);
    assert hits[..|hits|] == hits;
  }

  /** A column that the plan returns uses a dictionary. */
  predicate ProjectsDictionary(f: File, plan: RangePlan) {
    exists c :: 0 <= c < |f.usesDictionary| && plan.columnStart <= c < plan.columnStart + plan.returnedColumns && f.usesDictionary[c]
  }

  /** One of the rows from `from` to `to` is in the record; an empty record counts if it stands between two of them. */
  predicate Holds(r: Record, from: nat, to: nat) {
    if r.rowCount == 0 then from < r.rowStart < to
    else exists row: nat :: HasRow(r, row) && from <= row < to
  }

  predicate HasRow(r: Record, row: nat) {
    r.rowStart <= row < r.rowStart + r.rowCount
  }

  /** What is required, in order: all dictionaries or none, and behind them record blocks. */
  predicate DictionariesFirst(required: seq<Required>, d: nat) {
    && d <= |required| && (forall k :: 0 <= k < d ==> required[k] == Dictionary(k))
    && (forall k :: d <= k < |required| ==> required[k].RecordBlock?)
    && (forall j, k :: d <= j < k < |required| ==> required[j].index < required[k].index)
  }

  /** The record blocks asked for are those of the rows. */
  ghost predicate RecordsFor(records: seq<Record>, required: seq<Required>, from: nat, to: nat) {
    forall i: nat :: RecordBlock(i) in required <==> i < |records| && Holds(records[i], from, to)
  }

  lemma HitHolds(r: Record, from: nat, to: nat)
    requires from < to
    ensures Hit(r, from, to) <==> Holds(r, from, to)
  {
    if Hit(r, from, to) && r.rowCount > 0 {
      var row := Max(from, r.rowStart);
      assert HasRow(r, row) && from <= row < to;
    }
  }

  lemma {:induction false} HitsAre(records: seq<Record>, n: nat, from: nat, to: nat)
    requires n <= |records|
    ensures var hits := Hits(records, n, from, to);
            && (forall j, k :: 0 <= j < k < |hits| ==> hits[j] < hits[k])
            && (forall i: nat :: i in hits <==> i < n && Hit(records[i], from, to))
  {
    if n > 0 {
      HitsAre(records, n - 1, from, to);
    }
  }

  /**
   Exactly what is needed is asked for: nothing for an empty range; otherwise every dictionary once, in
   front, if a returned column uses one, and then, once and in order, every record that holds one of the
   rows.
   */
  lemma RequiredExactly(f: File, plan: RangePlan)
    requires FileOk(f) && plan.columnStart + plan.returnedColumns <= f.width
    ensures var required, to := RequiredBlocks(f, plan), plan.rowStart + plan.returnedRows;
            if plan.returnedRows == 0 || plan.returnedColumns == 0 then required == []
            else && DictionariesFirst(required, if ProjectsDictionary(f, plan) then |f.dictionaries| else 0)
                 && RecordsFor(f.records, required, plan.rowStart, to)
  {
    hide RequiredBlocks, ProjectsDictionary, FileOk, DictionariesFirst, RecordsFor;
    if plan.returnedRows > 0 && plan.returnedColumns > 0 {
      BlocksInOrder(f, plan);
    } else {
      NothingToRead(f, plan);
    }
  }

  lemma NothingToRead(f: File, plan: RangePlan)
    requires FileOk(f) && plan.columnStart + plan.returnedColumns <= f.width && (plan.returnedRows == 0 || plan.returnedColumns == 0)
    ensures RequiredBlocks(f, plan) == []
  {
    hide FileOk;
  }

  lemma BlocksInOrder(f: File, plan: RangePlan)
    requires FileOk(f) && plan.columnStart + plan.returnedColumns <= f.width && plan.returnedRows > 0 && plan.returnedColumns > 0
    ensures DictionariesFirst(RequiredBlocks(f, plan), if ProjectsDictionary(f, plan) then |f.dictionaries| else 0)
    ensures RecordsFor(f.records, RequiredBlocks(f, plan), plan.rowStart, plan.rowStart + plan.returnedRows)
  {
    hide RequiredBlocks, ProjectsDictionary, FileOk, DictionariesFirst, RecordsFor, Hits, Dictionaries, RecordBlocks;
    RequiredAre(f, plan);
    HitsInOrder(f.records, if ProjectsDictionary(f, plan) then |f.dictionaries| else 0, plan.rowStart, plan.rowStart + plan.returnedRows);
  }

  lemma HitsInOrder(records: seq<Record>, d: nat, from: nat, to: nat)
    requires from < to
    ensures var required := Dictionaries(d) + RecordBlocks(Hits(records, |records|, from, to));
            DictionariesFirst(required, d) && RecordsFor(records, required, from, to)
  {
    var hits := Hits(records, |records|, from, to);
    HitsAre(records, |records|, from, to);
    hide Hits, Dictionaries, RecordBlocks, Hit, DictionariesFirst, RecordsFor;
    InOrder(d, hits);
    BlocksAreHits(records, d, hits, from, to);
  }

  lemma BlocksAreHits(records: seq<Record>, d: nat, hits: seq<nat>, from: nat, to: nat)
    requires from < to && forall i: nat :: i in hits <==> i < |records| && Hit(records[i], from, to)
    ensures RecordsFor(records, Dictionaries(d) + RecordBlocks(hits), from, to)
  {
    hide Dictionaries, RecordBlocks, Holds, Hit;
    forall i: nat ensures RecordBlock(i) in Dictionaries(d) + RecordBlocks(hits) <==> i < |records| && Holds(records[i], from, to) {
      BlockIsHit(d, hits, i);
      if i < |records| {
        HitHolds(records[i], from, to);
      }
    }
  }

  lemma RequiredAre(f: File, plan: RangePlan)
    requires FileOk(f) && plan.columnStart + plan.returnedColumns <= f.width && plan.returnedRows > 0 && plan.returnedColumns > 0
    ensures RequiredBlocks(f, plan)
         == Dictionaries(if ProjectsDictionary(f, plan) then |f.dictionaries| else 0)
            + RecordBlocks(Hits(f.records, |f.records|, plan.rowStart, plan.rowStart + plan.returnedRows))
  {
    WidthOf(f);
    hide FileOk;
    SameProjection(f, plan);
    hide Hits, RecordBlocks, ProjectsDictionary, NeedsDictionaries, Dictionaries;
    NoDictionaries();
  }

  lemma WidthOf(f: File)
    requires FileOk(f)
    ensures |f.usesDictionary| == f.width
  {
  }

  lemma NoDictionaries()
    ensures Dictionaries(0) == []
  {
  }

  lemma SameProjection(f: File, plan: RangePlan)
    requires plan.columnStart + plan.returnedColumns <= |f.usesDictionary|
    ensures NeedsDictionaries(f, plan) <==> ProjectsDictionary(f, plan)
  {
  }

  lemma InOrder(d: nat, hits: seq<nat>)
    requires forall j, k :: 0 <= j < k < |hits| ==> hits[j] < hits[k]
    ensures DictionariesFirst(Dictionaries(d) + RecordBlocks(hits), d)
  {
    hide Dictionaries, RecordBlocks;
    var required := Dictionaries(d) + RecordBlocks(hits);
    forall k | d <= k < |required| ensures required[k] == RecordBlock(hits[k - d]) {
    }
  }

  lemma BlockIsHit(d: nat, hits: seq<nat>, i: nat)
    ensures RecordBlock(i) in Dictionaries(d) + RecordBlocks(hits) <==> i in hits
  {
    hide Dictionaries, RecordBlocks;
    var required := Dictionaries(d) + RecordBlocks(hits);
    if i in hits {
      var k :| 0 <= k < |hits| && hits[k] == i;
      assert required[d + k] == RecordBlock(i);
    }
    if RecordBlock(i) in required {
      var k :| 0 <= k < |required| && required[k] == RecordBlock(i);
      assert k >= d && required[k] == RecordBlock(hits[k - d]);
    }
  }

  lemma SliceInside(f: File, i: nat, from: nat, to: nat, column: nat)
    requires FileOk(f) && i < |f.records| && column < f.width
    ensures |f.records| == |f.batches| && column < |f.batches[i].columns|
    ensures var r := f.records[i];
            var start, end := Max(from, r.rowStart), Min(to, r.rowStart + r.rowCount);
            && (start < end ==> end - r.rowStart <= |f.batches[i].columns[column]|)
            && SliceOf(f, i, from, to, column)
               == if start < end then f.batches[i].columns[column][start - r.rowStart..end - r.rowStart] else []
  {
    hide RowsBefore;
  }

  lemma SlicesStep(f: File, hits: seq<nat>, k: nat, from: nat, to: nat, column: nat)
    requires |f.records| == |f.batches| && k < |hits| && forall j :: 0 <= j < |hits| ==> hits[j] < |f.records|
    ensures Slices(f, hits[..k + 1], from, to, column) == Slices(f, hits[..k], from, to, column) + SliceOf(f, hits[k], from, to, column)
  {
    assert hits[..k + 1][..k] == hits[..k];
  }

  /** The parts of one column, block by block. */
  method JoinColumn(f: File, decoded: seq<nat>, from: nat, to: nat, column: nat) returns (parts: Array)
    requires FileOk(f) && column < f.width && |f.records| == |f.batches| && forall k :: 0 <= k < |decoded| ==> decoded[k] < |f.records|
    ensures parts == Slices(f, decoded, from, to, column)
  {
    hide Slices, SliceOf, FileOk;
    parts := [];
    var k := 0;
    assert decoded[..0] == [];
    NoSlices(f, from, to, column);
    while k < |decoded|
      invariant 0 <= k <= |decoded|
      invariant parts == Slices(f, decoded[..k], from, to, column)
    {
      SliceInside(f, decoded[k], from, to, column);
      SlicesStep(f, decoded, k, from, to, column);
      var record, batch := f.records[decoded[k]], f.batches[decoded[k]];
      var start, end := Max(from, record.rowStart), Min(to, record.rowStart + record.rowCount);
      if start < end {
        parts := parts + batch.columns[column][start - record.rowStart..end - record.rowStart];
      }
      k := k + 1;
    }
    assert decoded[..k] == decoded;
  }

  class ArrowFileReadOperation {
    const file: File
    const plan: RangePlan
    const required: seq<Required>
    var decoded: seq<nat>
    var decodedBytes: nat
    var retainedDictionaryBytes: nat
    var declaredBytes: nat
    var nextBlock: nat

    /** The decoded record blocks are those fed so far, and what is retained fits the limit. */
    ghost predicate Valid()
      reads this
    {
      && FileOk(file) && plan.columnStart + plan.returnedColumns <= file.width
      && plan.rowStart + plan.returnedRows <= Rows(file.batches)
      && required == RequiredBlocks(file, plan) && nextBlock <= |required| && decoded == RecordsAmong(required, nextBlock)
      && (forall k :: 0 <= k < |required| ==> InFile(file, required[k]))
      && (forall k :: 0 <= k < |decoded| ==> decoded[k] < |file.records|)
      && retainedDictionaryBytes + decodedBytes <= file.limits.maxDecodedBytes
    }

    constructor (f: File, p: RangePlan)
      requires FileOk(f) && p.columnStart + p.returnedColumns <= f.width && p.rowStart + p.returnedRows <= Rows(f.batches)
      ensures Valid() && file == f && plan == p && nextBlock == 0
    {
      file, plan, required := f, p, RequiredBlocks(f, p);
      decoded, decodedBytes, retainedDictionaryBytes, declaredBytes, nextBlock := [], 0, 0, 0, 0;
    }

    function Used(): Usage
      reads this
    {
      Usage(retainedDictionaryBytes, decodedBytes, declaredBytes)
    }

    /** `feed_owned` for an answer whose length and place were checked; `outcome` is what decoding it gives. */
    method Feed(ingress: nat, outcome: Outcome) returns (r: Result<bool>)
      requires Valid()
      modifies this`decoded, this`decodedBytes, this`retainedDictionaryBytes, this`declaredBytes, this`nextBlock
      ensures Valid()
      ensures old(nextBlock) == |required| ==> r == Err(HandleClosed)
      ensures old(nextBlock) < |required| ==>
                var block, u := required[old(nextBlock)], old(Used());
                && (r.Ok? <==> Takes(file, plan, block, u, ingress, outcome))
                && (r.Ok? ==> Used() == UsageAfter(file, plan, block, u, outcome.declared.value))
      ensures r.Ok? ==> nextBlock == old(nextBlock) + 1 && (r.value <==> nextBlock == |required|)
      ensures r.Err? ==> nextBlock == old(nextBlock) && decoded == old(decoded) && Used() == old(Used())
    {
      hide RequiredBlocks, RecordsAmong, FileOk;
      if nextBlock == |required| {
        return Err(HandleClosed);
      }
      AmongStep(file, required, nextBlock);
      var block := BlockOf(file, required[nextBlock]);
      var declared :- outcome.declared;
      if declared < declaredBytes {
        return Err(RuntimeFailure);
      }
      var forBlock := Max(block.bodyLength, declared - declaredBytes);
      if retainedDictionaryBytes + decodedBytes + Max(outcome.capacity, ingress) + 2 * forBlock + retainedDictionaryBytes
         > file.limits.maxDecodedBytes {
        return Err(ResourceLimit);
      }
      var _ :- outcome.decodes;
      match required[nextBlock] {
      case Dictionary(_) =>
        if retainedDictionaryBytes + forBlock + decodedBytes > file.limits.maxDecodedBytes {
          return Err(ResourceLimit);
        }
        retainedDictionaryBytes := retainedDictionaryBytes + forBlock;
      case RecordBlock(i) =>
        var memory := file.detachedBytes(i, plan);
        if retainedDictionaryBytes + decodedBytes + memory > file.limits.maxDecodedBytes {
          return Err(ResourceLimit);
        }
        decodedBytes := decodedBytes + memory;
        decoded := decoded + [i];
      }
      declaredBytes := declared;
      nextBlock := nextBlock + 1;
      return Ok(nextBlock == |required|);
    }

    /** `build_batch`: once all blocks are fed, the batch is the requested range. */
    method BuildBatch() returns (r: Result<Projection>)
      requires Valid() && nextBlock == |required|
      ensures r.Ok? ==> IsRangeOf(r.value, file.batches, plan, file.schema, file.width)
      ensures r.Err? <==> required != [] && 2 * decodedBytes > file.limits.maxDecodedBytes
      ensures r.Err? ==> r.error == ResourceLimit
    {
      hide RequiredBlocks, RecordsAmong, IsColumnOf, FileOk, BatchesOk, Slices;
      FileBatches(file);
      var arrays: seq<Array> := [];
      if required == [] {
        while |arrays| < plan.returnedColumns
          invariant |arrays| <= plan.returnedColumns
          invariant forall c: nat :: c < |arrays| ==>
                      IsColumnOf(arrays[c], file.batches, plan, plan.columnStart + c, file.schema, file.width)
          decreases plan.returnedColumns - |arrays|
        {
          NothingRequired(file, plan, plan.columnStart + |arrays|);
          arrays := arrays + [[]];
        }
        return Ok(Projection(arrays, plan.returned, plan.complete));
      }
      if 2 * decodedBytes > file.limits.maxDecodedBytes {
        return Err(ResourceLimit);
      }
      while |arrays| < plan.returnedColumns
        invariant |arrays| <= plan.returnedColumns
        invariant forall c: nat :: c < |arrays| ==>
                    IsColumnOf(arrays[c], file.batches, plan, plan.columnStart + c, file.schema, file.width)
        decreases plan.returnedColumns - |arrays|
      {
        var column := plan.columnStart + |arrays|;
        var parts := JoinColumn(file, decoded, plan.rowStart, plan.rowStart + plan.returnedRows, column);
        JoinedIsColumn(file, plan, column, decoded);
        arrays := arrays + [parts];
      }
      return Ok(Projection(arrays, plan.returned, plan.complete));
    }
  }

  /** A plan without blocks is empty: rows that exist are always in some block. */
  lemma NothingRequired(f: File, plan: RangePlan, column: nat)
    requires FileOk(f) && plan.columnStart + plan.returnedColumns <= f.width && plan.rowStart + plan.returnedRows <= Rows(f.batches)
    requires RequiredBlocks(f, plan) == [] && plan.columnStart <= column < plan.columnStart + plan.returnedColumns
    ensures IsColumnOf([], f.batches, plan, column, f.schema, f.width)
  {
    FileBatches(f);
    if plan.returnedRows > 0 {
      RequiredAreHits(f, plan);
      assert RecordsAmong([], 0) == [];
      NoSlices(f, plan.rowStart, plan.rowStart + plan.returnedRows, column);
      hide RequiredBlocks, RecordsAmong;
      HitsAreColumn(f, plan, column);
    } else {
      ColumnLength(f.batches, |f.batches|, column, f.schema, f.width);
      assert Column(f.batches, |f.batches|, column)[plan.rowStart..plan.rowStart] == [];
    }
  }

  lemma NoSlices(f: File, from: nat, to: nat, column: nat)
    requires |f.records| == |f.batches|
    ensures Slices(f, [], from, to, column) == []
  {
  }

  lemma JoinedIsColumn(f: File, plan: RangePlan, column: nat, decoded: seq<nat>)
    requires FileOk(f) && plan.columnStart + plan.returnedColumns <= f.width && plan.rowStart + plan.returnedRows <= Rows(f.batches)
    requires var required := RequiredBlocks(f, plan); required != [] && decoded == RecordsAmong(required, |required|)
    requires plan.columnStart <= column < plan.columnStart + plan.returnedColumns
    ensures forall k :: 0 <= k < |decoded| ==> decoded[k] < |f.records|
    ensures IsColumnOf(Slices(f, decoded, plan.rowStart, plan.rowStart + plan.returnedRows, column), f.batches, plan, column, f.schema, f.width)
  {
    FileBatches(f);
    assert plan.returnedRows > 0;
    RequiredAreHits(f, plan);
    hide RequiredBlocks, RecordsAmong;
    HitsAreColumn(f, plan, column);
  }

  lemma HitsAreColumn(f: File, plan: RangePlan, column: nat)
    requires FileOk(f) && |f.records| == |f.batches| && BatchesOk(f.batches, f.schema, f.width)
    requires plan.rowStart + plan.returnedRows <= Rows(f.batches) && column < f.width
    ensures var to := plan.rowStart + plan.returnedRows;
            IsColumnOf(Slices(f, Hits(f.records, |f.records|, plan.rowStart, to), plan.rowStart, to, column),
                       f.batches, plan, column, f.schema, f.width)
  {
    hide Hits, Slices, FileOk, Column, BatchesOk, RowsBefore;
    HitsCoverTheRange(f, |f.records|, plan.rowStart, plan.rowStart + plan.returnedRows, column);
    ColumnLength(f.batches, |f.batches|, column, f.schema, f.width);
  }
}
