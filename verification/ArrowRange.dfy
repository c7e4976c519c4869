/**
 Arrow record batches, range plans, and what a range read has to return (`plan_range` in `src/arrow.rs`).
 Cell values and schemas are represented by numbers.
 */
module ArrowRange {
  import opened Common
  import opened RangeRequests

  type Array = seq<nat>

  /** A record batch: columns of equal length; `memory` is its array-memory size. */
  datatype Batch = Batch(schema: nat, rows: nat, columns: seq<Array>, memory: nat)

  predicate BatchOk(b: Batch, schema: nat, width: nat) {
    b.schema == schema && |b.columns| == width && forall c :: 0 <= c < width ==> |b.columns[c]| == b.rows
  }

  predicate BatchesOk(batches: seq<Batch>, schema: nat, width: nat) {
    forall i :: 0 <= i < |batches| ==> BatchOk(batches[i], schema, width)
  }

  datatype Limits = Limits(maxRangeCells: nat, maxDecodedBytes: nat, usizeMax: nat)

  // ---------------------------------------------------------------- the plan

  datatype RangePlan = RangePlan(
    rowStart: nat, returnedRows: nat, columnStart: nat, returnedColumns: nat, returned: Request, complete: bool)

  function PlanRange(request: Request, totalRows: nat, totalColumns: nat, limits: Limits): Result<RangePlan> {
    var _ :- ValidateRequest(request);
    var cells :- CellCount(request);
    if cells > limits.maxRangeCells then Err(ResourceLimit)
    else if request.rowStart > limits.usizeMax || request.columnStart > limits.usizeMax then Err(InvalidRange)
    else if request.rowStart > totalRows || request.columnStart > totalColumns then Err(InvalidRange)
    else if request.rowCount > limits.usizeMax || request.columnCount > limits.usizeMax then Err(InvalidRange)
    else
      var rows := Min(request.rowCount, totalRows - request.rowStart);
      var columns := Min(request.columnCount, totalColumns - request.columnStart);
      var returned := Request(request.rowStart, rows, request.columnStart, columns);
      var _ :- ValidateRequest(returned);
      Ok(RangePlan(request.rowStart, rows, request.columnStart, columns, returned,
                   rows == request.rowCount && columns == request.columnCount))
  }

  /** A plan is refused only for the request itself, and returns all of the request that exists. */
  lemma PlanIsClipped(request: Request, totalRows: nat, totalColumns: nat, limits: Limits)
    ensures var r := PlanRange(request, totalRows, totalColumns, limits);
            && (r.Ok? <==> && request.rowStart + request.rowCount <= MAX_SAFE_INTEGER
                           && request.columnStart + request.columnCount <= MAX_SAFE_INTEGER
                           && request.rowCount * request.columnCount <= Min(U64_MAX, limits.maxRangeCells)
                           && request.rowStart <= Min(totalRows, limits.usizeMax) && request.columnStart <= Min(totalColumns, limits.usizeMax)
                           && request.rowCount <= limits.usizeMax && request.columnCount <= limits.usizeMax)
            && (r.Ok? ==> var p := r.value;
                  && p.rowStart + p.returnedRows == Min(request.RowEnd(), totalRows) && p.rowStart == request.rowStart
                  && p.columnStart + p.returnedColumns == Min(request.ColumnEnd(), totalColumns) && p.columnStart == request.columnStart
                  && p.returned == Request(p.rowStart, p.returnedRows, p.columnStart, p.returnedColumns)
                  && (p.complete <==> request.RowEnd() <= totalRows && request.ColumnEnd() <= totalColumns))
  {
  }

  // ---------------------------------------------------------------- all rows of a column

  function RowsBefore(batches: seq<Batch>, n: nat): nat
    requires n <= |batches|
  {
    if n == 0 then 0 else RowsBefore(batches, n - 1) + batches[n - 1].rows
  }

  function Rows(batches: seq<Batch>): nat {
    RowsBefore(batches, |batches|)
  }

  function MemoryOf(batches: seq<Batch>): nat {
    if batches == [] then 0 else MemoryOf(batches[..|batches| - 1]) + batches[|batches| - 1].memory
  }

  function ColumnOf(b: Batch, c: nat): Array {
    if c < |b.columns| then b.columns[c] else []
  }

  /** One column of the first `n` batches. */
  function Column(batches: seq<Batch>, n: nat, c: nat): Array
    requires n <= |batches|
  {
    if n == 0 then [] else Column(batches, n - 1, c) + ColumnOf(batches[n - 1], c)
  }

  lemma {:induction false} ColumnLength(batches: seq<Batch>, n: nat, c: nat, schema: nat, width: nat)
    requires BatchesOk(batches, schema, width) && n <= |batches| && c < width
    ensures |Column(batches, n, c)| == RowsBefore(batches, n)
  {
    if n > 0 {
      ColumnLength(batches, n - 1, c, schema, width);
    }
  }

  lemma {:induction false} ColumnPrefix(batches: seq<Batch>, m: nat, n: nat, c: nat, schema: nat, width: nat)
    requires BatchesOk(batches, schema, width) && m <= n <= |batches| && c < width
    ensures RowsBefore(batches, m) <= RowsBefore(batches, n)
    ensures |Column(batches, n, c)| == RowsBefore(batches, n)
    ensures Column(batches, n, c)[..RowsBefore(batches, m)] == Column(batches, m, c)
  {
    ColumnLength(batches, n, c, schema, width);
    ColumnLength(batches, m, c, schema, width);
    if m < n {
      ColumnPrefix(batches, m, n - 1, c, schema, width);
    }
  }

  /** A batch stands in the flattened column between the rows before it and the rows before the next. */
  lemma BatchStandsAt(batches: seq<Batch>, i: nat, c: nat, schema: nat, width: nat)
    requires BatchesOk(batches, schema, width) && i < |batches| && c < width
    ensures var full, from := Column(batches, |batches|, c), RowsBefore(batches, i);
            from + batches[i].rows <= |full| && full[from..from + batches[i].rows] == ColumnOf(batches[i], c)
  {
    var full := Column(batches, |batches|, c);
    ColumnPrefix(batches, i + 1, |batches|, c, schema, width);
    ColumnLength(batches, i, c, schema, width);
    var block := ColumnOf(batches[i], c);
    assert |block| == batches[i].rows && Column(batches, i + 1, c) == Column(batches, i, c) + block;
    hide Column, RowsBefore, BatchesOk, ColumnOf;
    TailOfPrefix(full, Column(batches, i, c), block);
  }

  lemma TailOfPrefix(full: Array, before: Array, block: Array)
    requires |before| + |block| <= |full| && full[..|before| + |block|] == before + block
    ensures full[|before|..|before| + |block|] == block
  {
    forall k | 0 <= k < |block| ensures full[|before| + k] == block[k] {
      assert full[..|before| + |block|][|before| + k] == block[k];
    }
  }

  // ---------------------------------------------------------------- cutting out a range piece by piece

  /** What of the rows `from` to `to` lies before row `n`. */
  function Upto(full: Array, from: nat, to: nat, n: nat): Array
    requires from <= to && n <= |full|
  {
    full[Min(from, n)..Min(to, n)]
  }

  /** A block of rows contributes exactly its overlap with the range. */
  lemma OneBlockMore(full: Array, from: nat, to: nat, lo: nat, hi: nat)
    requires from <= to && lo <= hi <= |full|
    ensures var start, end := Max(from, lo), Min(to, hi);
            Upto(full, from, to, hi) == Upto(full, from, to, lo) + if start < end then full[start..end] else []
  {
    var start, end := Max(from, lo), Min(to, hi);
    if start < end {
      assert Upto(full, from, to, lo) == full[Min(from, lo)..Min(to, lo)];
    }
  }

  /** The overlap, taken from the block itself. */
  lemma BlockSlice(full: Array, block: Array, from: nat, to: nat, lo: nat)
    requires lo + |block| <= |full| && full[lo..lo + |block|] == block
    ensures var start, end := Max(from, lo), Min(to, lo + |block|);
            start < end ==> end - lo <= |block| && block[start - lo..end - lo] == full[start..end]
  {
    var start, end := Max(from, lo), Min(to, lo + |block|);
    if start < end {
      forall k | 0 <= k < end - start ensures block[start - lo..end - lo][k] == full[start..end][k] {
        assert block[start - lo + k] == full[lo..lo + |block|][start - lo + k];
      }
    }
  }

  /** `slice`, for bounds inside the array. */
  function Cut(a: Array, start: int, end: int): Array {
    if 0 <= start < end <= |a| then a[start..end] else []
  }

  /** What batch `i` has of the rows `from` to `to`. */
  function Overlap(batches: seq<Batch>, i: nat, c: nat, from: nat, to: nat): Array
    requires i < |batches|
  {
    var lo := RowsBefore(batches, i);
    Cut(ColumnOf(batches[i], c), Max(from, lo) - lo, Min(to, lo + batches[i].rows) - lo)
  }

  /** A batch adds its overlap to the range cut out so far. */
  lemma OneBatchMore(batches: seq<Batch>, i: nat, c: nat, schema: nat, width: nat, from: nat, to: nat)
    requires BatchesOk(batches, schema, width) && i < |batches| && c < width && from <= to
    ensures RowsBefore(batches, i) <= RowsBefore(batches, i + 1) <= |Column(batches, |batches|, c)|
    ensures var full := Column(batches, |batches|, c);
            Upto(full, from, to, RowsBefore(batches, i + 1)) == Upto(full, from, to, RowsBefore(batches, i)) + Overlap(batches, i, c, from, to)
  {
    hide Column, BatchesOk, Upto, RowsBefore, Cut, ColumnOf;
    BatchStandsAt(batches, i, c, schema, width);
    RowsOneMore(batches, i);
    BatchColumn(batches, i, c, schema, width);
    BlockAdds(Column(batches, |batches|, c), ColumnOf(batches[i], c), from, to, RowsBefore(batches, i));
  }

  lemma RowsOneMore(batches: seq<Batch>, i: nat)
    requires i < |batches|
    ensures RowsBefore(batches, i + 1) == RowsBefore(batches, i) + batches[i].rows
  {
  }

  lemma BatchColumn(batches: seq<Batch>, i: nat, c: nat, schema: nat, width: nat)
    requires BatchesOk(batches, schema, width) && i < |batches| && c < width
    ensures |ColumnOf(batches[i], c)| == batches[i].rows
  {
  }

  lemma BlockAdds(full: Array, block: Array, from: nat, to: nat, lo: nat)
    requires from <= to && lo + |block| <= |full| && full[lo..lo + |block|] == block
    ensures Upto(full, from, to, lo + |block|)
         == Upto(full, from, to, lo) + Cut(block, Max(from, lo) - lo, Min(to, lo + |block|) - lo)
  {
    OneBlockMore(full, from, to, lo, lo + |block|);
    BlockSlice(full, block, from, to, lo);
    hide Upto;
  }

  // ---------------------------------------------------------------- what a read returns

  /** The projected columns of a read, before they are encoded. */
  datatype Projection = Projection(arrays: seq<Array>, returned: Request, complete: bool)

  /** The reference: every requested column of the flattened batches, cut to the rows of the plan. */
  predicate IsRangeOf(r: Projection, batches: seq<Batch>, plan: RangePlan, schema: nat, width: nat)
    requires BatchesOk(batches, schema, width)
  {
    && r.returned == plan.returned && r.complete == plan.complete && |r.arrays| == plan.returnedColumns
    && forall c: nat :: c < plan.returnedColumns ==> IsColumnOf(r.arrays[c], batches, plan, plan.columnStart + c, schema, width)
  }

  predicate IsColumnOf(a: Array, batches: seq<Batch>, plan: RangePlan, column: nat, schema: nat, width: nat)
    requires BatchesOk(batches, schema, width)
  {
    && column < width && plan.rowStart + plan.returnedRows <= |Column(batches, |batches|, column)|
    && a == Column(batches, |batches|, column)[plan.rowStart..plan.rowStart + plan.returnedRows]
  }

  /** Two reads that return the same range of the same batches return the same: Stream and File reads agree. */
  lemma RangeIsUnique(a: Projection, b: Projection, batches: seq<Batch>, plan: RangePlan, schema: nat, width: nat)
    requires BatchesOk(batches, schema, width) && IsRangeOf(a, batches, plan, schema, width) && IsRangeOf(b, batches, plan, schema, width)
    ensures a == b
  {
    forall c: nat | c < plan.returnedColumns ensures a.arrays[c] == b.arrays[c] {
      assert IsColumnOf(a.arrays[c], batches, plan, plan.columnStart + c, schema, width);
      assert IsColumnOf(b.arrays[c], batches, plan, plan.columnStart + c, schema, width);
    }
    assert a.arrays == b.arrays;
  }
}
