/**
 Checkpoint-based range reads (`plan_range`, `RangeDecoder` and `MemorySource::read_range`).

 `Decode…` follows the decoder byte by byte; `DecodeState` is what its state has to be, given a
 fresh plain parse of the bytes from the checkpoint on.
 */
module CsvRange {
  import opened Common
  import opened CsvReader
  import opened CsvScan
  import opened RangeRequests
  import opened StringColumn

  // ---------------------------------------------------------------- planning

  /** `validate_range` against the columns known so far. */
  function ValidateRange(o: Options, columns: nat, r: Request): Result<()> {
    var _ :- ValidateRequest(r);
    var cells :- CellCount(r);
    if cells > o.maxCells then Err(ResourceLimit)
    else if r.ColumnEnd() > columns then Err(InvalidRange)
    else Ok(())
  }

  datatype RangePlan = RangePlan(checkpoint: Checkpoint, request: Request, rowsToSkip: nat)

  /** `partition_point`: how many checkpoints lie at or before the row, in an index sorted by row. */
  function CheckpointsUpTo(checkpoints: seq<Checkpoint>, row: nat): (n: nat)
    ensures n <= |checkpoints|
  {
    if checkpoints == [] || checkpoints[|checkpoints| - 1].row <= row then |checkpoints|
    else CheckpointsUpTo(checkpoints[..|checkpoints| - 1], row)
  }

  /** What the plan looks at: the number of columns and of rows, the scan position and the checkpoints. */
  datatype Index = Index(columns: nat, rows: nat, offset: nat, checkpoints: seq<Checkpoint>)

  function PlanRange(o: Options, index: Index, finished: bool, request: Request): Result<RangePlan> {
    var _ :- ValidateRange(o, index.columns, request);
    if request.rowCount > 0 && !finished && request.rowStart >= index.rows then Err(RangeNotIndexed)
    else
      var n := CheckpointsUpTo(index.checkpoints, request.rowStart);
      var checkpoint := if n > 0 then index.checkpoints[n - 1] else Checkpoint(index.rows, index.offset);
      Ok(RangePlan(checkpoint, request,
                   if request.rowStart >= checkpoint.row then request.rowStart - checkpoint.row else 0))
  }

  /** The request is one that the scanned part of the source can answer: nothing in it overflows, and what it names is known. */
  predicate Plannable(o: Options, columns: nat, rows: nat, finished: bool, request: Request) {
    && request.rowStart + request.rowCount <= MAX_SAFE_INTEGER && request.columnStart + request.columnCount <= MAX_SAFE_INTEGER
    && request.rowCount * request.columnCount <= Min(U64_MAX, o.maxCells)
    && request.columnStart + request.columnCount <= columns
    && (request.rowCount == 0 || finished || request.rowStart < rows)
  }

  /** A plan is given exactly for such requests; only one whose rows are still to come is worth repeating. */
  lemma PlannedExactlyWhen(o: Options, index: Index, finished: bool, request: Request)
    ensures var r := PlanRange(o, index, finished, request);
            && (r.Ok? <==> Plannable(o, index.columns, index.rows, finished, request))
            && (r == Err(RangeNotIndexed) <==>
                  Plannable(o, index.columns, index.rows, true, request) && !Plannable(o, index.columns, index.rows, finished, request))
            && (r == Err(ResourceLimit) <==>
                  && request.RowEnd() <= MAX_SAFE_INTEGER && request.ColumnEnd() <= MAX_SAFE_INTEGER
                  && o.maxCells < request.rowCount * request.columnCount <= U64_MAX)
            && (r.Err? ==> r.error in {InvalidArgument, InvalidRange, ResourceLimit, RangeNotIndexed})
  {
  }

  lemma {:induction false} UpToIsNearest(checkpoints: seq<Checkpoint>, interval: nat, row: nat)
    requires interval > 0
    requires forall i :: 0 <= i < |checkpoints| ==> checkpoints[i].row == i * interval
    ensures CheckpointsUpTo(checkpoints, row) == Min(|checkpoints|, row / interval + 1)
    decreases |checkpoints|
  {
    if checkpoints != [] {
      var last := |checkpoints| - 1;
      MultipleBelow(last, interval, row);
      if checkpoints[last].row > row {
        UpToIsNearest(checkpoints[..last], interval, row);
      }
    }
  }

  lemma MultipleBelow(i: nat, k: nat, n: nat)
    requires k > 0
    ensures i * k <= n <==> i <= n / k
  {
    var q := n / k;
    assert q * k <= n < q * k + k;
    if i <= q {
      ScaledOrder(i, q, k);
    } else {
      ScaledOrder(q + 1, i, k);
    }
  }

  /**
   Checkpoints sit at exactly the multiples of the interval, the plan starts at the nearest one,
   and an indexed row is reached after skipping the row number modulo the interval.
   */
  lemma PlanSkipsModulo(o: Options, p: Plain, index: Index, finished: bool, request: Request)
    requires o.Valid() && PlainOk(p) && index.rows == DataRows(o, p.rows) > 0 && index.checkpoints == Checkpoints(o, p)
    requires PlanRange(o, index, finished, request).Ok?
    ensures var plan := PlanRange(o, index, finished, request).value;
            && plan.request == request && plan.checkpoint in index.checkpoints && plan.checkpoint.row <= request.rowStart
            && plan.rowsToSkip == request.rowStart - plan.checkpoint.row
            && (request.rowStart < index.rows ==> plan.rowsToSkip == request.rowStart % o.interval)
            && plan.checkpoint.row < index.rows
            && plan.checkpoint.offset == p.starts[PlainIndex(o, plan.checkpoint.row)]
  {
    var plan := PlanRange(o, index, finished, request).value;
    var n := NearestCheckpoint(o, p, index.checkpoints, index.rows, request.rowStart);
    assert plan.checkpoint == index.checkpoints[n];
  }

  /** The nearest checkpoint of an index with at least one row. */
  lemma NearestCheckpoint(o: Options, p: Plain, checkpoints: seq<Checkpoint>, rows: nat, row: nat) returns (n: nat)
    requires o.Valid() && PlainOk(p) && rows == DataRows(o, p.rows) > 0 && checkpoints == Checkpoints(o, p)
    ensures CheckpointsUpTo(checkpoints, row) == n + 1 && n < |checkpoints|
    ensures var c := checkpoints[n];
            && c.row <= row && c.row < rows && (row < rows ==> row - c.row == row % o.interval)
            && c.offset == p.starts[PlainIndex(o, c.row)]
  {
    hide CheckpointsUpTo;
    var k, q := o.interval, row / o.interval;
    CheckpointsAre(o, p);
    hide Checkpoints, PlainOk, DataRows;
    UpToIsNearest(checkpoints, k, row);
    CheckpointsInRange(o, rows);
    hide CheckpointCount;
    assert 0 * k == 0;
    assert q < |checkpoints| <==> q * k < rows;
    n := Min(|checkpoints|, q + 1) - 1;
    SkipIsModulo(row, k, n);
  }

  lemma CheckpointsAre(o: Options, p: Plain)
    requires o.Valid() && PlainOk(p)
    ensures var c := Checkpoints(o, p);
            && |c| == CheckpointCount(o, DataRows(o, p.rows))
            && forall i :: 0 <= i < |c| ==>
                 var row: nat := i * o.interval;
                 c[i].row == row < DataRows(o, p.rows) && PlainIndex(o, row) < |p.starts| && c[i].offset == p.starts[PlainIndex(o, row)]
  {
    CheckpointsInRange(o, DataRows(o, p.rows));
    hide CheckpointCount;
  }

  lemma SkipIsModulo(row: nat, k: nat, n: nat)
    requires k > 0 && n <= row / k
    ensures n * k <= row && (n == row / k ==> row - n * k == row % k)
    ensures row / k * k <= row
  {
    assert row == row / k * k + row % k;
    ScaledOrder(n, row / k, k);
  }

  // ---------------------------------------------------------------- reference cells

  /** A column beyond the end of its row is absent; an empty field is present and empty. */
  function CellAt(o: Options, row: Row, column: nat): Cell {
    if column < |row| then Some(o.Decoded(row[column])) else None
  }

  /** Valid text is shown as it is, other text with replacement characters, and a field that the row does not have not at all. */
  lemma CellShows(o: Options, row: Row, column: nat)
    ensures column >= |row| <==> CellAt(o, row, column) == None
    ensures column < |row| && o.validText(row[column]) ==> CellAt(o, row, column) == Some(row[column])
    ensures column < |row| && !o.validText(row[column]) ==> CellAt(o, row, column) == Some(o.decode(row[column]))
  {
  }

  /** The requested cells of one column among consecutive rows, the first of which has number `first`. */
  function Slice(o: Options, rows: seq<Row>, first: nat, request: Request, column: nat): seq<Cell> {
    if rows == [] then []
    else
      var last := |rows| - 1;
      Slice(o, rows[..last], first, request, column)
      + if request.rowStart <= first + last < request.RowEnd() then [CellAt(o, rows[last], column)] else []
  }

  /** How many of the rows numbered from `first` to below `end` are requested. */
  function Returned(first: nat, end: nat, request: Request): nat {
    if Min(end, request.RowEnd()) <= Max(first, request.rowStart) then 0
    else Min(end, request.RowEnd()) - Max(first, request.rowStart)
  }

  lemma {:induction false} SliceAt(o: Options, rows: seq<Row>, first: nat, request: Request, column: nat)
    ensures var s := Slice(o, rows, first, request, column);
            && |s| == Returned(first, first + |rows|, request)
            && forall i :: 0 <= i < |s| ==> s[i] == CellAt(o, rows[Max(first, request.rowStart) - first + i], column)
    decreases |rows|
  {
    if rows != [] {
      SliceAt(o, rows[..|rows| - 1], first, request, column);
    }
  }

  // ---------------------------------------------------------------- the decoder, byte by byte

  datatype Decode = Decode(
    reader: ReaderState, text: Text, offset: nat, fieldIndex: nat, row: nat, selected: seq<Cell>,
    builders: seq<Column>, returned: nat, batchBytes: nat, issues: seq<Diagnostic>, done: bool)

  function NoCells(n: nat): (r: seq<Cell>)
    ensures |r| == n && forall i :: 0 <= i < n ==> r[i] == None
  {
    seq(n, _ => None)
  }

  function EmptyColumns(n: nat): (r: seq<Column>)
    ensures |r| == n && forall i :: 0 <= i < n ==> r[i] == EMPTY_COLUMN
  {
    seq(n, _ => EMPTY_COLUMN)
  }

  function StartDecode(plan: RangePlan): Decode {
    Decode(StartRecord, [], plan.checkpoint.offset, 0, plan.checkpoint.row,
           NoCells(plan.request.columnCount), EmptyColumns(plan.request.columnCount),
           0, 4 * plan.request.columnCount, [], plan.request.rowCount == 0)
  }

  predicate RowWanted(request: Request, row: nat) {
    request.rowStart <= row < request.RowEnd()
  }

  function Raise(o: Options, s: Decode, d: Diagnostic): (r: Result<Decode>)
    ensures r.Ok? ==> r.value == s.(issues := s.issues + [d])
  {
    if o.strict then Err(ParseFailed) else Ok(s.(issues := s.issues + [d]))
  }

  /** `finish_field`. */
  function DecodeField(o: Options, request: Request, s: Decode): Result<Decode>
    requires |s.selected| == request.columnCount
  {
    if s.fieldIndex + 1 > o.maxColumns then Err(ResourceLimit)
    else
      var counted := s.(fieldIndex := s.fieldIndex + 1, text := []);
      if !RowWanted(request, s.row) || !(request.columnStart <= s.fieldIndex < request.ColumnEnd()) then Ok(counted)
      else
        var raised :- if o.validText(s.text) then Ok(counted) else Raise(o, counted, Diagnostic(InvalidText, Some(s.row), s.offset));
        Ok(raised.(selected := s.selected[s.fieldIndex - request.columnStart := Some(o.Decoded(s.text))]))
  }

  predicate ColumnsOk(builders: seq<Column>) {
    forall i :: 0 <= i < |builders| ==> ColumnOk(builders[i])
  }

  /** The first `n` builders take their cells, one after the other, within the batch limit. */
  function PushFirst(builders: seq<Column>, cells: seq<Cell>, n: nat, batchBytes: nat, maxBatchBytes: nat)
    : (r: Result<(seq<Column>, nat)>)
    requires n <= |builders| == |cells| && ColumnsOk(builders)
    ensures r.Ok? ==> |r.value.0| == n
  {
    if n == 0 then Ok(([], batchBytes))
    else
      var front :- PushFirst(builders, cells, n - 1, batchBytes, maxBatchBytes);
      var bytes := PushBytes(builders[n - 1].values, cells[n - 1]);
      if front.1 + bytes > maxBatchBytes || |builders[n - 1].data| + CellBytes(cells[n - 1]) > U32_MAX then Err(ResourceLimit)
      else Ok((front.0 + [Pushed(builders[n - 1], cells[n - 1])], front.1 + bytes))
  }

  /** No column is longer than its `u32` offsets can say. */
  predicate ColumnsSmall(builders: seq<Column>) {
    forall i :: 0 <= i < |builders| ==> |builders[i].data| <= U32_MAX
  }

  predicate BuildersOk(s: Decode) {
    |s.builders| == |s.selected| && ColumnsOk(s.builders) && ColumnsSmall(s.builders)
  }

  /** `finish_record`, for a schema of `width` columns. */
  function DecodeRow(o: Options, request: Request, width: nat, s: Decode): Result<Decode>
    requires BuildersOk(s)
  {
    var checked :- if s.fieldIndex != width then Raise(o, s, Diagnostic(RaggedRow, Some(s.row), s.offset)) else Ok(s);
    var pushed :- if RowWanted(request, s.row) then PushFirst(s.builders, s.selected, |s.selected|, s.batchBytes, o.maxBatchBytes)
                  else Ok((s.builders, s.batchBytes));
    var returned := s.returned + if RowWanted(request, s.row) then 1 else 0;
    Ok(checked.(builders := pushed.0, batchBytes := pushed.1, returned := returned, fieldIndex := 0, row := s.row + 1,
                selected := NoCells(|s.selected|), done := returned == request.rowCount || s.done))
  }

  // ---------------------------------------------------------------- what the decoder's state must be

  function SelectedCells(o: Options, request: Request, row: nat, fields: Row): (r: seq<Cell>)
    ensures |r| == request.columnCount
    ensures forall j :: 0 <= j < |r| ==> r[j] == if RowWanted(request, row) then CellAt(o, fields, request.columnStart + j) else None
  {
    seq(request.columnCount, j requires 0 <= j => if RowWanted(request, row) then CellAt(o, fields, request.columnStart + j) else None)
  }

  function Built(cells: seq<Cell>): (c: Column)
    ensures Holds(c, cells) && ColumnOk(c)
    decreases |cells|
  {
    if cells == [] then EMPTY_COLUMN
    else
      var last := |cells| - 1;
      assert cells == cells[..last] + [cells[last]];
      PushHolds(Built(cells[..last]), cells[..last], cells[last]);
      Pushed(Built(cells[..last]), cells[last])
  }

  function BuiltColumns(o: Options, rows: seq<Row>, first: nat, request: Request): (r: seq<Column>)
    ensures |r| == request.columnCount
    ensures forall j :: 0 <= j < |r| ==> r[j] == Built(Slice(o, rows, first, request, request.columnStart + j))
    ensures ColumnsOk(r)
  {
    seq(request.columnCount, j requires 0 <= j => Built(Slice(o, rows, first, request, request.columnStart + j)))
  }

  /** The exact encoded size of the first `count` requested columns. */
  function BatchBytes(o: Options, rows: seq<Row>, first: nat, request: Request, count: nat): nat {
    if count == 0 then 0
    else BatchBytes(o, rows, first, request, count - 1)
         + EncodedBytes(Slice(o, rows, first, request, request.columnStart + count - 1))
  }

  /** The state that belongs to the fresh plain parse `q` from the checkpoint on. */
  predicate Decodes(o: Options, plan: RangePlan, s: Decode, q: Plain) {
    && PlainOk(q)
    && s.reader == q.reader && s.text == q.text && s.offset == q.offset && s.fieldIndex == |q.fields|
    && s.row == plan.checkpoint.row + |q.rows|
    && s.selected == SelectedCells(o, plan.request, s.row, q.fields)
    && s.builders == BuiltColumns(o, q.rows, plan.checkpoint.row, plan.request)
    && s.returned == Returned(plan.checkpoint.row, s.row, plan.request)
    && s.batchBytes == BatchBytes(o, q.rows, plan.checkpoint.row, plan.request, plan.request.columnCount)
    && (s.done <==> s.returned == plan.request.rowCount)
  }

  function DecodeByte(o: Options, request: Request, width: nat, s: Decode, b: byte): Result<Decode>
    requires BuildersOk(s) && |s.selected| == request.columnCount
  {
    var (next, copied) := Next(o.delimiter, s.reader, b);
    if copied && |s.text| + 1 > o.maxFieldBytes then Err(ResourceLimit)
    else
      var read := s.(reader := next, text := s.text + if copied then [b] else [], offset := s.offset + 1);
      if !EndsField(next) then Ok(read)
      else
        var field :- DecodeField(o, request, read);
        if EndsRecord(next) then DecodeRow(o, request, width, field) else Ok(field)
  }

  lemma {:induction false} StartDecodes(o: Options, plan: RangePlan)
    ensures Decodes(o, plan, StartDecode(plan), Fresh(plan.checkpoint.offset))
  {
    var cc := plan.request.columnCount;
    EmptyBatchBytes(o, plan.checkpoint.row, plan.request, cc);
    assert StartDecode(plan).selected == SelectedCells(o, plan.request, plan.checkpoint.row, []);
    assert StartDecode(plan).builders == BuiltColumns(o, [], plan.checkpoint.row, plan.request);
  }

  lemma {:induction false} EmptyBatchBytes(o: Options, first: nat, request: Request, count: nat)
    ensures BatchBytes(o, [], first, request, count) == 4 * count
  {
    if count > 0 {
      EmptyBatchBytes(o, first, request, count - 1);
    }
  }

  lemma FieldDecodes(o: Options, plan: RangePlan, s: Decode, q: Plain, reader: ReaderState)
    requires Decodes(o, plan, s.(reader := q.reader), q)
    requires var r := DecodeField(o, plan.request, s.(reader := reader)); r.Ok?
    ensures var r := DecodeField(o, plan.request, s.(reader := reader)).value;
            r.reader == reader && Decodes(o, plan, r.(reader := EndFieldDelim), WithField(q))
  {
    var request, after := plan.request, DecodeField(o, plan.request, s.(reader := reader)).value;
    var fields := q.fields + [q.text];
    var wanted := SelectedCells(o, request, s.row, fields);
    forall j: nat | j < request.columnCount ensures after.selected[j] == wanted[j] {
      assert request.columnStart + j < |q.fields| ==> fields[request.columnStart + j] == q.fields[request.columnStart + j];
    }
    assert after.selected == wanted;
  }

  lemma SliceStep(o: Options, rows: seq<Row>, row: Row, first: nat, request: Request, column: nat)
    ensures Slice(o, rows + [row], first, request, column)
         == Slice(o, rows, first, request, column)
            + if RowWanted(request, first + |rows|) then [CellAt(o, row, column)] else []
  {
    assert (rows + [row])[..|rows|] == rows;
  }

  lemma BuiltStep(o: Options, rows: seq<Row>, row: Row, first: nat, request: Request, column: nat)
    requires RowWanted(request, first + |rows|)
    ensures var before, after := Slice(o, rows, first, request, column), Slice(o, rows + [row], first, request, column);
            var cell := CellAt(o, row, column);
            && Built(after) == Pushed(Built(before), cell)
            && EncodedBytes(after) == EncodedBytes(before) + PushBytes(Built(before).values, cell)
  {
    var held, cell := Slice(o, rows, first, request, column), CellAt(o, row, column);
    SliceStep(o, rows, row, first, request, column);
    hide Slice, CellAt, EncodedBytes, Pushed, PushBytes;
    assert (held + [cell])[..|held|] == held;
    PushBytesAreExact(held, cell);
  }

  /** Pushing a row's cells builds the columns that include the row; `n` columns are done. */
  lemma {:induction false} PushBuilds(o: Options, rows: seq<Row>, row: Row, first: nat, request: Request, n: nat,
                                      batchBytes: nat)
    requires n <= request.columnCount && RowWanted(request, first + |rows|)
    ensures var r := PushFirst(BuiltColumns(o, rows, first, request), SelectedCells(o, request, first + |rows|, row), n,
                               batchBytes, o.maxBatchBytes);
            r.Ok? ==>
              && (forall j :: 0 <= j < n ==> r.value.0[j] == BuiltColumns(o, rows + [row], first, request)[j])
              && r.value.1 - batchBytes == BatchBytes(o, rows + [row], first, request, n) - BatchBytes(o, rows, first, request, n)
  {
    hide Slice, CellAt, Pushed, PushBytes, EncodedBytes, Built, ColumnsOk, BuiltColumns, SelectedCells;
    if n > 0 {
      PushBuilds(o, rows, row, first, request, n - 1, batchBytes);
      BuiltStep(o, rows, row, first, request, request.columnStart + n - 1);
    }
  }

  lemma UnwantedRowBuilds(o: Options, rows: seq<Row>, row: Row, first: nat, request: Request, n: nat)
    requires !RowWanted(request, first + |rows|)
    ensures BuiltColumns(o, rows + [row], first, request) == BuiltColumns(o, rows, first, request)
    ensures BatchBytes(o, rows + [row], first, request, n) == BatchBytes(o, rows, first, request, n)
  {
    forall column ensures Slice(o, rows + [row], first, request, column) == Slice(o, rows, first, request, column) {
      SliceStep(o, rows, row, first, request, column);
    }
    if n > 0 {
      UnwantedRowBuilds(o, rows, row, first, request, n - 1);
    }
  }

  lemma RowDecodes(o: Options, plan: RangePlan, width: nat, s: Decode, q: Plain, reader: ReaderState)
    requires Decodes(o, plan, s.(reader := q.reader), q) && q.text == [] && q.fields != [] && !s.done
    requires BuildersOk(s)
    requires DecodeRow(o, plan.request, width, s.(reader := reader)).Ok?
    ensures PlainOk(WithRow(q))
    ensures var r := DecodeRow(o, plan.request, width, s.(reader := reader)).value;
            r.reader == reader && Decodes(o, plan, r.(reader := EndRecord), WithRow(q))
  {
    var request, first := plan.request, plan.checkpoint.row;
    hide Slice, CellAt, Built, EncodedBytes, PushFirst, BatchBytes;
    if RowWanted(request, s.row) {
      PushBuilds(o, q.rows, q.fields, first, request, request.columnCount, s.batchBytes);
      var pushed := PushFirst(s.builders, s.selected, |s.selected|, s.batchBytes, o.maxBatchBytes).value;
      assert pushed.0 == BuiltColumns(o, q.rows + [q.fields], first, request);
    } else {
      UnwantedRowBuilds(o, q.rows, q.fields, first, request, request.columnCount);
    }
    assert NoCells(request.columnCount) == SelectedCells(o, request, s.row + 1, []) by { NoFields(o, request); }
  }

  lemma NoFields(o: Options, request: Request)
    ensures forall column :: CellAt(o, [], column) == None
  {
  }

  /** A field end, and with it perhaps a row end. */
  function DecodeEvent(o: Options, request: Request, width: nat, s: Decode, recordEnd: bool): Result<Decode>
    requires BuildersOk(s) && |s.selected| == request.columnCount
  {
    var field :- DecodeField(o, request, s);
    if recordEnd then DecodeRow(o, request, width, field) else Ok(field)
  }

  lemma EventDecodes(o: Options, plan: RangePlan, width: nat, s: Decode, a: Plain, next: ReaderState)
    requires Decodes(o, plan, s.(reader := a.reader), a) && EndsField(next) && !s.done && s.reader == next
    requires BuildersOk(s) && |s.selected| == plan.request.columnCount
    requires DecodeEvent(o, plan.request, width, s, EndsRecord(next)).Ok?
    ensures PlainOk(WithField(a)) && PlainOk(WithRow(WithField(a)))
    ensures var r := DecodeEvent(o, plan.request, width, s, EndsRecord(next)).value;
            var q := if EndsRecord(next) then WithRow(WithField(a)).(reader := next) else WithField(a);
            Decodes(o, plan, r, q)
  {
    FieldDecodes(o, plan, s, a, next);
    var field := DecodeField(o, plan.request, s).value;
    if EndsRecord(next) {
      RowDecodes(o, plan, width, field, WithField(a), next);
    }
  }

  lemma ByteDecodes(o: Options, plan: RangePlan, width: nat, s: Decode, q: Plain, b: byte)
    requires Decodes(o, plan, s, q) && !s.done && BuildersOk(s) && |s.selected| == plan.request.columnCount
    requires DecodeByte(o, plan.request, width, s, b).Ok?
    ensures Decodes(o, plan, DecodeByte(o, plan.request, width, s, b).value, PlainByte(o.delimiter, q, b))
  {
    hide DecodeField, DecodeRow, BuiltColumns, SelectedCells, BatchBytes, Returned;
    PlainByteParts(o.delimiter, q, b);
    var (next, copied) := Next(o.delimiter, s.reader, b);
    var read := s.(reader := next, text := s.text + if copied then [b] else [], offset := s.offset + 1);
    if EndsField(next) {
      EventDecodes(o, plan, width, read, Advanced(o.delimiter, q, b), next);
    }
  }

  /** The decoder stops at the byte that completes the range. */
  function DecodeBytes(o: Options, request: Request, width: nat, s: Decode, bytes: seq<byte>): Result<Decode>
    requires BuildersOk(s) && |s.selected| == request.columnCount
    decreases |bytes|
  {
    if bytes == [] || s.done then Ok(s)
    else
      var next :- DecodeByte(o, request, width, s, bytes[0]);
      DecodeByteKeepsShape(o, request, width, s, bytes[0]);
      DecodeBytes(o, request, width, next, bytes[1..])
  }

  lemma PushKeepsShape(builders: seq<Column>, cells: seq<Cell>, n: nat, batchBytes: nat, maxBatchBytes: nat)
    requires n <= |builders| == |cells| && ColumnsOk(builders)
    ensures var r := PushFirst(builders, cells, n, batchBytes, maxBatchBytes); r.Ok? ==> ColumnsOk(r.value.0) && ColumnsSmall(r.value.0)
  {
    if n > 0 {
      PushKeepsShape(builders, cells, n - 1, batchBytes, maxBatchBytes);
    }
  }

  lemma DecodeEventKeepsShape(o: Options, request: Request, width: nat, s: Decode, recordEnd: bool)
    requires BuildersOk(s) && |s.selected| == request.columnCount
    ensures var r := DecodeEvent(o, request, width, s, recordEnd);
            r.Ok? ==> BuildersOk(r.value) && |r.value.selected| == request.columnCount
                      && r.value.text == [] && r.value.reader == s.reader && r.value.offset == s.offset
  {
    var field := DecodeField(o, request, s);
    if field.Ok? {
      PushKeepsShape(field.value.builders, field.value.selected, |field.value.selected|, field.value.batchBytes, o.maxBatchBytes);
    }
  }

  lemma DecodeByteKeepsShape(o: Options, request: Request, width: nat, s: Decode, b: byte)
    requires BuildersOk(s) && |s.selected| == request.columnCount
    ensures var r := DecodeByte(o, request, width, s, b);
            r.Ok? ==> BuildersOk(r.value) && |r.value.selected| == request.columnCount && r.value.offset == s.offset + 1
  {
    hide DecodeByte, DecodeEvent, Next, ColumnsOk;
    DecodeByteIsEvent(o, request, width, s, b);
    var (next, copied) := Next(o.delimiter, s.reader, b);
    var read := s.(reader := next, text := s.text + if copied then [b] else [], offset := s.offset + 1);
    if EndsField(next) {
      DecodeEventKeepsShape(o, request, width, read, EndsRecord(next));
    }
  }

  /** However much is fed, the decoder has consumed a prefix, all of it unless the range is complete. */
  lemma {:induction false} BytesDecode(o: Options, plan: RangePlan, width: nat, s: Decode, q: Plain, bytes: seq<byte>)
    requires Decodes(o, plan, s, q) && BuildersOk(s) && |s.selected| == plan.request.columnCount
    requires DecodeBytes(o, plan.request, width, s, bytes).Ok?
    ensures var r := DecodeBytes(o, plan.request, width, s, bytes).value;
            && q.offset <= r.offset <= q.offset + |bytes|
            && Decodes(o, plan, r, PlainBytes(o.delimiter, q, bytes[..r.offset - q.offset]))
            && (r.offset == q.offset + |bytes| || r.done)
    decreases |bytes|
  {
    hide Decodes, DecodeByte, PlainByte;
    DecodesOffset(o, plan, s, q);
    if bytes == [] || s.done {
      assert bytes[..0] == [];
    } else {
      ByteDecodes(o, plan, width, s, q, bytes[0]);
      DecodeByteKeepsShape(o, plan.request, width, s, bytes[0]);
      var next, q' := DecodeByte(o, plan.request, width, s, bytes[0]).value, PlainByte(o.delimiter, q, bytes[0]);
      DecodesOffset(o, plan, next, q');
      BytesDecode(o, plan, width, next, q', bytes[1..]);
      var r := DecodeBytes(o, plan.request, width, s, bytes).value;
      assert bytes[..r.offset - q.offset][1..] == bytes[1..][..r.offset - q'.offset];
    }
  }

  lemma DecodesOffset(o: Options, plan: RangePlan, s: Decode, q: Plain)
    requires Decodes(o, plan, s, q)
    ensures s.offset == q.offset && PlainOk(q) && s.reader == q.reader
  {
  }

  // ---------------------------------------------------------------- batches

  datatype Batch = Batch(rowStart: nat, rows: nat, columns: seq<Column>, complete: bool)

  /** The batch that belongs to the plain rows `rows`, the first of which has number `first`. */
  function BatchOf(o: Options, rows: seq<Row>, first: nat, request: Request): Batch {
    var returned := Returned(first, first + |rows|, request);
    Batch(request.rowStart, returned, BuiltColumns(o, rows, first, request), returned == request.rowCount)
  }

  /** Rows behind a complete range do not matter. */
  lemma {:induction false} CompleteIsStable(o: Options, rows: seq<Row>, more: seq<Row>, first: nat, request: Request)
    requires request.rowCount > 0 && Returned(first, first + |rows|, request) == request.rowCount
    ensures BatchOf(o, rows + more, first, request) == BatchOf(o, rows, first, request)
    decreases |more|
  {
    if more == [] {
      assert rows + more == rows;
    } else {
      var front, last := more[..|more| - 1], more[|more| - 1];
      CompleteIsStable(o, rows, front, first, request);
      UnwantedRowBuilds(o, rows + front, last, first, request, 0);
      assert rows + front + [last] == rows + more;
    }
  }

  function DecodeEnd(o: Options, request: Request, width: nat, s: Decode): Result<Decode>
    requires BuildersOk(s) && |s.selected| == request.columnCount
  {
    if OpenAtEnd(s.reader) then DecodeEvent(o, request, width, s.(reader := EndRecord), true) else Ok(s)
  }

  lemma EndDecodes(o: Options, plan: RangePlan, width: nat, s: Decode, q: Plain)
    requires Decodes(o, plan, s, q) && !s.done && BuildersOk(s) && |s.selected| == plan.request.columnCount
    requires DecodeEnd(o, plan.request, width, s).Ok?
    ensures Decodes(o, plan, DecodeEnd(o, plan.request, width, s).value, PlainEnd(q))
  {
    if OpenAtEnd(q.reader) {
      EventDecodes(o, plan, width, s.(reader := EndRecord), q, EndRecord);
      assert PlainEnd(q) == WithRow(WithField(q)).(reader := EndRecord);
    }
  }

  // ---------------------------------------------------------------- reading field by field

  function AfterDecodeRead(o: Options, request: Request, width: nat, s: Decode, r: FieldRead): Result<Decode>
    requires BuildersOk(s) && |s.selected| == request.columnCount
  {
    if |s.text| + |r.text| > o.maxFieldBytes then Err(ResourceLimit)
    else
      var read := s.(reader := r.state, text := s.text + r.text, offset := s.offset + r.consumed);
      if !r.result.Field? then Ok(read) else DecodeEvent(o, request, width, read, r.result.recordEnd)
  }

  lemma AfterDecodeKeepsShape(o: Options, request: Request, width: nat, s: Decode, r: FieldRead)
    requires BuildersOk(s) && |s.selected| == request.columnCount
    ensures var next := AfterDecodeRead(o, request, width, s, r);
            next.Ok? ==> && BuildersOk(next.value) && |next.value.selected| == request.columnCount
                         && next.value.reader == r.state && next.value.offset == s.offset + r.consumed
                         && |next.value.text| <= o.maxFieldBytes
  {
    hide DecodeEvent, ColumnsOk;
    var read := s.(reader := r.state, text := s.text + r.text, offset := s.offset + r.consumed);
    if r.result.Field? {
      DecodeEventKeepsShape(o, request, width, read, r.result.recordEnd);
    }
  }

  lemma {:induction false} ReadFieldIsDecode(o: Options, request: Request, width: nat, s: Decode, input: seq<byte>, room: nat)
    requires BuildersOk(s) && |s.selected| == request.columnCount && !s.done
    requires s.reader != End && input != [] && room > 0 && |s.text| <= o.maxFieldBytes
    ensures var r := ReadField(o.delimiter, s.reader, input, room);
            var next := AfterDecodeRead(o, request, width, s, r);
            && (next.Ok? ==> BuildersOk(next.value) && |next.value.selected| == request.columnCount)
            && DecodeBytes(o, request, width, s, input)
               == if next.Err? then next else DecodeBytes(o, request, width, next.value, input[r.consumed..])
    decreases |input|
  {
    hide DecodeEvent, Next, DecodeByte;
    var r := ReadField(o.delimiter, s.reader, input, room);
    AfterDecodeKeepsShape(o, request, width, s, r);
    var (next, copied) := Next(o.delimiter, s.reader, input[0]);
    var text := if copied then [input[0]] else [];
    var read := s.(reader := next, text := s.text + text, offset := s.offset + 1);
    DecodeByteIsEvent(o, request, width, s, input[0]);
    if |read.text| <= o.maxFieldBytes && !EndsField(next) && |input| > 1 && |text| < room {
      var rest := ReadField(o.delimiter, next, input[1..], room - |text|);
      ReadFieldIsDecode(o, request, width, read, input[1..], room - |text|);
      DecodeReadLater(o, request, width, s, FieldRead(next, InputEmpty, 1, text), rest);
      assert input[1..][rest.consumed..] == input[1 + rest.consumed..];
      assert s.text + [] == s.text;
    } else {
      DecodeOneByte(o, request, width, s, input, room);
    }
  }

  lemma DecodeReadLater(o: Options, request: Request, width: nat, s: Decode, first: FieldRead, rest: FieldRead)
    requires BuildersOk(s) && |s.selected| == request.columnCount
    requires first.consumed == 1 && |s.text| + |first.text| <= o.maxFieldBytes
    ensures AfterDecodeRead(o, request, width, s, FieldRead(rest.state, rest.result, 1 + rest.consumed, first.text + rest.text))
         == AfterDecodeRead(o, request, width, s.(reader := first.state, text := s.text + first.text, offset := s.offset + 1), rest)
  {
    hide DecodeEvent;
    assert s.text + (first.text + rest.text) == s.text + first.text + rest.text;
  }

  lemma DecodeOneByte(o: Options, request: Request, width: nat, s: Decode, input: seq<byte>, room: nat)
    requires BuildersOk(s) && |s.selected| == request.columnCount && !s.done
    requires s.reader != End && input != [] && room > 0 && |s.text| <= o.maxFieldBytes
    requires var (next, copied) := Next(o.delimiter, s.reader, input[0]);
             var text := if copied then [input[0]] else [];
             |s.text| + |text| > o.maxFieldBytes || EndsField(next) || |input| == 1 || |text| == room
    ensures var r := ReadField(o.delimiter, s.reader, input, room);
            var next := AfterDecodeRead(o, request, width, s, r);
            && (next.Ok? ==> BuildersOk(next.value) && |next.value.selected| == request.columnCount)
            && DecodeBytes(o, request, width, s, input)
               == if next.Err? then next else DecodeBytes(o, request, width, next.value, input[r.consumed..])
  {
    hide DecodeEvent, Next, DecodeByte;
    var r := ReadField(o.delimiter, s.reader, input, room);
    AfterDecodeKeepsShape(o, request, width, s, r);
    DecodeByteIsEvent(o, request, width, s, input[0]);
    if |input| == 1 {
      assert input[1..] == [];
    }
  }

  lemma DecodeByteIsEvent(o: Options, request: Request, width: nat, s: Decode, b: byte)
    requires BuildersOk(s) && |s.selected| == request.columnCount
    ensures Next(o.delimiter, s.reader, b).0 == End <==> s.reader == End
    ensures var (next, copied) := Next(o.delimiter, s.reader, b);
            var read := s.(reader := next, text := s.text + if copied then [b] else [], offset := s.offset + 1);
            && (copied ==> !EndsField(next))
            && DecodeByte(o, request, width, s, b) ==
               if copied && |s.text| + 1 > o.maxFieldBytes then Err(ResourceLimit)
               else if EndsField(next) then DecodeEvent(o, request, width, read, EndsRecord(next)) else Ok(read)
  {
    hide DecodeField, DecodeRow;
  }
}
