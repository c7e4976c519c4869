/**
 `RangeDecoder` as an object, and `MemorySource::read_range`, which drives it from the index of a
 scanner.
 */
module CsvDecoder {
  import opened Common
  import opened CsvReader
  import opened CsvScan
  import opened CsvBatchLimit
  import opened CsvRange
  import opened CsvStrict
  import opened RangeRequests
  import opened CsvScanner
  import opened StringColumn

  datatype DecodeStatus = NeedMore | Complete(batch: Batch)

  class RangeDecoder {
    const options: Options
    const plan: RangePlan
    const width: nat
    var reader: ReaderState
    var tracker: Tracker
    var expectedOffset: nat
    var field: Text
    var fieldIndex: nat
    var currentRow: nat
    var selected: seq<Cell>
    var builders: seq<Column>
    var returnedRows: nat
    var batchBytes: nat
    var diagnostics: seq<Diagnostic>
    var done: bool

    /** The bytes received, and every issue found in fields and rows. */
    ghost var fed: seq<byte>
    ghost var issues: seq<Diagnostic>

    ghost function View(): Decode
      reads this
    {
      Decode(reader, field, expectedOffset, fieldIndex, currentRow, selected, builders, returnedRows, batchBytes, issues, done)
    }

    ghost predicate Shaped()
      reads this
    {
      BuildersOk(View()) && |selected| == plan.request.columnCount
    }

    ghost function Plainly(bytes: seq<byte>): Plain {
      PlainBytes(options.delimiter, Fresh(plan.checkpoint.offset), bytes)
    }

    /** Before it is done, the decoder has consumed all it was fed. */
    ghost predicate Valid()
      reads this
    {
      !done ==> && Shaped() && Decodes(options, plan, View(), Plainly(fed)) && |field| <= options.maxFieldBytes
                && plan.request.rowCount > 0
    }

    constructor (o: Options, p: RangePlan, schemaWidth: nat)
      ensures Valid() && options == o && plan == p && width == schemaWidth && fed == []
      ensures done <==> p.request.rowCount == 0
      ensures View() == StartDecode(p) && tracker == NO_QUOTES
    {
      options, plan, width := o, p, schemaWidth;
      reader, tracker, expectedOffset := StartRecord, NO_QUOTES, p.checkpoint.offset;
      field, fieldIndex, currentRow := [], 0, p.checkpoint.row;
      selected, builders := NoCells(p.request.columnCount), EmptyColumns(p.request.columnCount);
      returnedRows, batchBytes := 0, 4 * p.request.columnCount;
      diagnostics, done := [], p.request.rowCount == 0;
      fed, issues := [], [];
      new;
      StartDecodes(o, p);
    }

    /** `new`: one offset a column is charged at once, also for a range that will hold no row. */
    static method Create(o: Options, p: RangePlan, schemaWidth: nat) returns (r: Result<RangeDecoder>)
      ensures r.Ok? <==> 4 * p.request.columnCount <= o.maxBatchBytes
      ensures r.Err? ==> r.error == ResourceLimit
      ensures r.Ok? ==> fresh(r.value) && r.value.Valid() && r.value.options == o && r.value.plan == p && r.value.width == schemaWidth
                        && r.value.fed == [] && (r.value.done <==> p.request.rowCount == 0)
                        && r.value.View() == StartDecode(p) && r.value.tracker == NO_QUOTES
    {
      if 4 * p.request.columnCount > o.maxBatchBytes {
        return Err(ResourceLimit);
      }
      var decoder := new RangeDecoder(o, p, schemaWidth);
      return Ok(decoder);
    }

    method HandleDiagnostic(d: Diagnostic) returns (r: Result<()>)
      modifies this`diagnostics, this`issues
      ensures r == if options.strict then Err(ParseFailed) else Ok(())
      ensures issues == if r.Ok? && d.kind != MalformedQuote then old(issues) + [d] else old(issues)
    {
      if options.strict {
        return Err(ParseFailed);
      }
      if |diagnostics| < options.maxDiagnostics {
        diagnostics := diagnostics + [d];
      }
      if d.kind != MalformedQuote {
        issues := issues + [d];
      }
      return Ok(());
    }

    ghost predicate Turned(r: Result<()>, spec: Result<Decode>)
      reads this
    {
      if spec.Err? then r == Err(spec.error) else r == Ok(()) && View() == spec.value
    }

    method EndField() returns (r: Result<()>)
      requires Shaped()
      modifies this`fieldIndex, this`field, this`selected, this`diagnostics, this`issues
      ensures Turned(r, DecodeField(options, plan.request, old(View())))
      ensures r.Ok? ==> Shaped()
    {
      fieldIndex := fieldIndex + 1;
      if fieldIndex > options.maxColumns {
        return Err(ResourceLimit);
      }
      var logicalIndex := fieldIndex - 1;
      if RowWanted(plan.request, currentRow) && plan.request.columnStart <= logicalIndex < plan.request.ColumnEnd() {
        var text := field;
        if !options.validText(text) {
          r := HandleDiagnostic(Diagnostic(InvalidText, Some(currentRow), expectedOffset));
          if r.Err? {
            return r;
          }
          text := options.decode(text);
        }
        selected := selected[logicalIndex - plan.request.columnStart := Some(text)];
      }
      field := [];
      return Ok(());
    }

    /** The builders of one row; the loop stops at the first column that does not fit the batch. */
    method PushRow() returns (r: Result<()>)
      requires Shaped()
      modifies this`builders, this`batchBytes
      ensures var spec := PushFirst(old(builders), selected, |selected|, old(batchBytes), options.maxBatchBytes);
              if spec.Err? then r == Err(spec.error) else r == Ok(()) && builders == spec.value.0 && batchBytes == spec.value.1
    {
      hide Pushed, PushBytes, CellBytes, PushBit;
      ghost var before := builders;
      var i := 0;
      while i < |builders|
        invariant 0 <= i <= |builders| == |before| == |selected|
        invariant forall j :: i <= j < |builders| ==> builders[j] == before[j]
        invariant PushFirst(before, selected, i, old(batchBytes), options.maxBatchBytes) == Ok((builders[..i], batchBytes))
      {
        var bytes := PushBytes(builders[i].values, selected[i]);
        if batchBytes + bytes > options.maxBatchBytes || |builders[i].data| + CellBytes(selected[i]) > U32_MAX {
          PushFails(before, selected, i + 1, |selected|, old(batchBytes), options.maxBatchBytes);
          return Err(ResourceLimit);
        }
        ghost var done := builders[..i];
        batchBytes := batchBytes + bytes;
        builders := builders[i := Pushed(builders[i], selected[i])];
        assert builders[..i + 1] == done + [Pushed(before[i], selected[i])];
        i := i + 1;
      }
      assert builders[..i] == builders;
      return Ok(());
    }

    method EndRecordRow() returns (r: Result<()>)
      requires Shaped()
      modifies this`builders, this`batchBytes, this`returnedRows, this`fieldIndex, this`selected, this`currentRow, this`done,
               this`diagnostics, this`issues
      ensures Turned(r, DecodeRow(options, plan.request, width, old(View())))
    {
      hide PushFirst, ColumnsOk, ColumnsSmall, NoCells;
      if fieldIndex != width {
        r := HandleDiagnostic(Diagnostic(RaggedRow, Some(currentRow), expectedOffset));
        if r.Err? {
          return r;
        }
      }
      if RowWanted(plan.request, currentRow) {
        r := PushRow();
        if r.Err? {
          return r;
        }
        returnedRows := returnedRows + 1;
      }
      fieldIndex, selected, currentRow := 0, NoCells(|selected|), currentRow + 1;
      if returnedRows == plan.request.rowCount {
        done := true;
      }
      return Ok(());
    }

    method TakeEvent(recordEnd: bool) returns (r: Result<()>)
      requires Shaped()
      modifies this`builders, this`batchBytes, this`returnedRows, this`fieldIndex, this`field, this`selected, this`currentRow,
               this`done, this`diagnostics, this`issues
      ensures Turned(r, DecodeEvent(options, plan.request, width, old(View()), recordEnd))
    {
      hide DecodeField, DecodeRow;
      r := EndField();
      if r.Err? || !recordEnd {
        return r;
      }
      r := EndRecordRow();
    }

    method TakeRead(read: FieldRead) returns (r: Result<()>)
      requires Shaped()
      modifies this`reader, this`expectedOffset, this`builders, this`batchBytes, this`returnedRows, this`fieldIndex, this`field,
               this`selected, this`currentRow, this`done, this`diagnostics, this`issues
      ensures Turned(r, AfterDecodeRead(options, plan.request, width, old(View()), read))
    {
      hide DecodeEvent;
      if |field| + |read.text| > options.maxFieldBytes {
        return Err(ResourceLimit);
      }
      reader, field, expectedOffset := read.state, field + read.text, expectedOffset + read.consumed;
      if read.result.Field? {
        r := TakeEvent(read.result.recordEnd);
        return r;
      }
      return Ok(());
    }

    /** The parser loop of `feed_chunk`. */
    method ReadChunk(bytes: seq<byte>) returns (r: Result<()>)
      requires Shaped() && !done && reader != End && |field| <= options.maxFieldBytes
      modifies this`reader, this`expectedOffset, this`builders, this`batchBytes, this`returnedRows, this`fieldIndex, this`field,
               this`selected, this`currentRow, this`done, this`diagnostics, this`issues
      ensures Turned(r, DecodeBytes(options, plan.request, width, old(View()), bytes))
      ensures r.Ok? ==> Shaped() && |field| <= options.maxFieldBytes
    {
      hide AfterDecodeRead, DecodeByte, ReadField, ColumnsOk;
      ghost var spec := DecodeBytes(options, plan.request, width, View(), bytes);
      var input := bytes;
      while input != [] && !done
        invariant Shaped() && reader != End && |field| <= options.maxFieldBytes
        invariant DecodeBytes(options, plan.request, width, View(), input) == spec
        decreases |input|
      {
        ReadFieldIsDecode(options, plan.request, width, View(), input, SCRATCH_BYTES);
        var read := ReadField(options.delimiter, reader, input, SCRATCH_BYTES);
        AfterDecodeKeepsShape(options, plan.request, width, View(), read);
        r := TakeRead(read);
        if r.Err? {
          return r;
        }
        input := input[read.consumed..];
      }
      return Ok(());
    }

    /** The batch belongs to everything that was supplied, also to rows the decoder no longer looked at. */
    ghost predicate Answers(batch: Batch, supplied: seq<byte>, eof: bool) {
      var q := if eof then PlainEnd(Plainly(supplied)) else Plainly(supplied);
      batch == BatchOf(options, q.rows, plan.checkpoint.row, plan.request)
    }

    /** `build_batch` gives the builders away. */
    method BuildBatch(complete: bool) returns (batch: Batch)
      modifies this`builders
      ensures batch == Batch(plan.request.rowStart, old(returnedRows), old(builders), complete)
    {
      batch := Batch(plan.request.rowStart, returnedRows, builders, complete);
      builders := [];
    }

    /** The reader loop of `finish_eof`. */
    method DrainEof() returns (r: Result<Batch>)
      requires Shaped() && !done && reader != End
      modifies this
      ensures var spec := DecodeEnd(options, plan.request, width, old(View()));
              if spec.Err? then r == Err(spec.error)
              else done && r == Ok(Batch(plan.request.rowStart, spec.value.returned, spec.value.builders,
                                         spec.value.done || spec.value.returned == plan.request.rowCount))
    {
      hide DecodeEvent, BuildersOk;
      ghost var spec := DecodeEnd(options, plan.request, width, View());
      var passes := 0;
      while passes < 4
        invariant 0 <= passes <= 1 && !done
        invariant passes == 0 ==> View() == old(View()) && reader != End && Shaped()
        invariant passes == 1 ==> reader == EndRecord && spec == Ok(View())
        decreases 4 - passes
      {
        var (next, result) := ReadEnd(reader);
        reader := next;
        if result.Field? {
          SameShape(old(View()), View());
          var taken := TakeEvent(true);
          if taken.Err? {
            return Err(taken.error);
          }
          DecodeEventKeepsShape(options, plan.request, width, old(View()).(reader := EndRecord), true);
          if done {
            var batch := BuildBatch(true);
            return Ok(batch);
          }
        } else {
          done := true;
          var batch := BuildBatch(returnedRows == plan.request.rowCount);
          return Ok(batch);
        }
        passes := passes + 1;
      }
      assert false;
    }

    /** `finish_eof`: the source has ended before the range was complete. */
    method FinishEof() returns (r: Result<Batch>)
      requires Valid() && !done
      modifies this
      ensures r.Ok? ==> done && Answers(r.value, old(fed), true) && ColumnsSmall(r.value.columns)
      ensures r.Err? ==> r.error == ResourceLimit || (options.strict && r.error == ParseFailed)
      ensures options.strict && old(tracker.state).Quoted? ==> r.Err?
      ensures !options.strict || !old(tracker.state).Quoted? ==>
                (r.Ok? <==> DecodeEnd(options, plan.request, width, old(View())).Ok?)
    {
      hide Decodes, DecodeEnd, ColumnsOk, ColumnsSmall, BatchOf, PlainBytes;
      ghost var q := Plainly(fed);
      DecodesOffset(options, plan, View(), q);
      ghost var spec := DecodeEnd(options, plan.request, width, View());
      if spec.Ok? {
        EndDecodes(options, plan, width, View(), q);
        DecodedBatch(options, plan, spec.value, PlainEnd(q));
        DecodeEndKeepsShape(options, plan.request, width, View());
      } else {
        DecodeEndErrors(options, plan.request, width, View());
      }
      if tracker.state.Quoted? {
        var reported := HandleDiagnostic(Diagnostic(MalformedQuote, Some(currentRow), tracker.state.opening));
        if reported.Err? {
          return Err(reported.error);
        }
      }
      r := DrainEof();
    }

    /** The quote issues of a chunk, all of it, also the part behind the range. */
    method ReportQuotes(offsets: seq<nat>) returns (r: Result<()>)
      modifies this`diagnostics, this`issues
      ensures issues == old(issues)
      ensures r == if options.strict && offsets != [] then Err(ParseFailed) else Ok(())
    {
      var i := 0;
      while i < |offsets|
        invariant 0 <= i <= |offsets| && issues == old(issues) && (options.strict ==> i == 0)
      {
        r := HandleDiagnostic(Diagnostic(MalformedQuote, Some(currentRow), offsets[i]));
        if r.Err? {
          return r;
        }
        i := i + 1;
      }
      return Ok(());
    }

    /** What the parser loop leaves behind after one more chunk. */
    lemma ChunkDecodes(before: Decode, bytes: seq<byte>)
      requires Decodes(options, plan, before, Plainly(fed)) && BuildersOk(before) && |before.selected| == plan.request.columnCount
      requires plan.request.rowCount > 0
      requires DecodeBytes(options, plan.request, width, before, bytes) == Ok(View())
      ensures !done ==> Decodes(options, plan, View(), Plainly(fed + bytes))
      ensures done ==> && returnedRows == plan.request.rowCount
                       && Answers(Batch(plan.request.rowStart, returnedRows, builders, true), fed + bytes, false)
                       && Answers(Batch(plan.request.rowStart, returnedRows, builders, true), fed + bytes, true)
    {
      var d, start := options.delimiter, Fresh(plan.checkpoint.offset);
      var q := Plainly(fed);
      BytesDecode(options, plan, width, before, q, bytes);
      DecodesOffset(options, plan, before, q);
      var k := expectedOffset - q.offset;
      PlainConcat(d, start, fed, bytes[..k]);
      PlainConcat(d, start, fed, bytes);
      hide Decodes, PlainBytes;
      if done {
        assert bytes == bytes[..k] + bytes[k..];
        PlainConcat(d, q, bytes[..k], bytes[k..]);
        ChunkDone(PlainBytes(d, q, bytes[..k]), bytes[k..]);
      } else {
        assert bytes[..k] == bytes;
      }
    }

    /** A batch that is complete stays the batch however much follows. */
    lemma ChunkDone(consumed: Plain, rest: seq<byte>)
      requires Decodes(options, plan, View(), consumed) && done && plan.request.rowCount > 0
      ensures var all, batch := PlainBytes(options.delimiter, consumed, rest), Batch(plan.request.rowStart, returnedRows, builders, true);
              && returnedRows == plan.request.rowCount
              && batch == BatchOf(options, all.rows, plan.checkpoint.row, plan.request)
              && batch == BatchOf(options, PlainEnd(all).rows, plan.checkpoint.row, plan.request)
    {
      DecodedBatch(options, plan, View(), consumed);
      DecodesOffset(options, plan, View(), consumed);
      PlainStaysOk(options.delimiter, consumed, rest);
      hide Decodes, PlainBytes, BatchOf;
      var all := PlainBytes(options.delimiter, consumed, rest);
      BatchStable(consumed.rows, all.rows);
      BatchStable(consumed.rows, PlainEnd(all).rows);
    }

    lemma BatchStable(rows: seq<Row>, all: seq<Row>)
      requires rows <= all && plan.request.rowCount > 0
      requires BatchOf(options, rows, plan.checkpoint.row, plan.request).complete
      ensures BatchOf(options, all, plan.checkpoint.row, plan.request) == BatchOf(options, rows, plan.checkpoint.row, plan.request)
    {
      assert all == rows + all[|rows|..];
      CompleteIsStable(options, rows, all[|rows|..], plan.checkpoint.row, plan.request);
    }

    /**
     `feed_chunk`.  However the bytes from the checkpoint on are cut into chunks, a completed batch
     is the one the plain parse of those bytes gives.
     */
    method FeedChunk(absoluteOffset: nat, bytes: seq<byte>, eof: bool) returns (r: Result<DecodeStatus>)
      requires Valid()
      modifies this
      ensures old(done) ==> r == Err(HandleClosed) && unchanged(this)
      ensures !old(done) && absoluteOffset != old(expectedOffset) ==> r == Err(InvalidArgument) && unchanged(this)
      ensures !old(done) && absoluteOffset == old(expectedOffset) ==>
                && (r.Err? ==> r.error == ResourceLimit || (options.strict && r.error == ParseFailed))
                && (r == Ok(NeedMore) ==> !eof && !done && Valid() && fed == old(fed) + bytes
                                          && expectedOffset == absoluteOffset + |bytes|)
                && (r.Ok? && r.value.Complete? ==>
                      && done && Answers(r.value.batch, old(fed) + bytes, eof) && ColumnsSmall(r.value.batch.columns)
                      && (!eof ==> r.value.batch.complete))
                && (r == Ok(NeedMore) ==> DecodeBytes(options, plan.request, width, old(View()), bytes) == Ok(View()))
                && (r == Ok(NeedMore) ==> tracker == TrackAll(options.delimiter, old(tracker), bytes, absoluteOffset).0)
      ensures !old(done) && absoluteOffset == old(expectedOffset)
              && (options.strict ==>
                    var (last, offsets) := TrackAll(options.delimiter, old(tracker), bytes, absoluteOffset);
                    offsets == [] && (eof ==> !last.state.Quoted?)) ==>
                && (r.Ok? <==> if eof then DecodeAll(options, plan.request, width, old(View()), bytes).Ok?
                               else DecodeBytes(options, plan.request, width, old(View()), bytes).Ok?)
                && (!eof && r.Ok? && r.value.Complete? ==>
                      DecodeBytes(options, plan.request, width, old(View()), bytes).value.done)
    {
      hide Decodes, DecodeBytes, ColumnsOk, BatchOf, PlainBytes, TrackAll, DecodeEnd;
      if done {
        return Err(HandleClosed);
      }
      if absoluteOffset != expectedOffset {
        return Err(InvalidArgument);
      }
      ghost var before, q := View(), Plainly(fed);
      DecodesOffset(options, plan, before, q);
      DecodeErrors(options, plan.request, width, before, bytes);
      var tracked := TrackAll(options.delimiter, tracker, bytes, absoluteOffset);
      tracker := tracked.0;
      var reported := ReportQuotes(tracked.1);
      if reported.Err? {
        return Err(reported.error);
      }
      var read := ReadChunk(bytes);
      if read.Err? {
        return Err(read.error);
      }
      ChunkDecodes(before, bytes);
      fed := fed + bytes;
      if done {
        var batch := BuildBatch(true);
        return Ok(Complete(batch));
      }
      if eof {
        var finished := FinishEof();
        return if finished.Err? then Err(finished.error) else Ok(Complete(finished.value));
      }
      DecodesOffset(options, plan, View(), Plainly(fed));
      PlainLength(fed);
      PlainLength(old(fed));
      return Ok(NeedMore);
    }

    lemma PlainLength(bytes: seq<byte>)
      ensures Plainly(bytes).offset == plan.checkpoint.offset + |bytes|
    {
      PlainStaysOk(options.delimiter, Fresh(plan.checkpoint.offset), bytes);
    }
  }

  lemma PushFails(builders: seq<Column>, cells: seq<Cell>, i: nat, n: nat, batchBytes: nat, maxBatchBytes: nat)
    requires i <= n <= |builders| == |cells| && ColumnsOk(builders)
    requires PushFirst(builders, cells, i, batchBytes, maxBatchBytes) == Err(ResourceLimit)
    ensures PushFirst(builders, cells, n, batchBytes, maxBatchBytes) == Err(ResourceLimit)
    decreases n - i
  {
    if i < n {
      PushFails(builders, cells, i + 1, n, batchBytes, maxBatchBytes);
    }
  }

  lemma DecodeEndKeepsShape(o: Options, request: Request, width: nat, s: Decode)
    requires BuildersOk(s) && |s.selected| == request.columnCount
    ensures var r := DecodeEnd(o, request, width, s); r.Ok? ==> BuildersOk(r.value)
  {
    hide DecodeEvent;
    if OpenAtEnd(s.reader) {
      DecodeEventKeepsShape(o, request, width, s.(reader := EndRecord), true);
    }
  }

  lemma SameShape(a: Decode, b: Decode)
    requires BuildersOk(a) && b == a.(reader := b.reader)
    ensures BuildersOk(b)
  {
  }

  lemma DecodedBatch(o: Options, plan: RangePlan, s: Decode, q: Plain)
    requires Decodes(o, plan, s, q)
    ensures Batch(plan.request.rowStart, s.returned, s.builders, s.done) == BatchOf(o, q.rows, plan.checkpoint.row, plan.request)
    ensures s.done <==> s.returned == plan.request.rowCount
  {
  }

  lemma DecodeEventErrors(o: Options, request: Request, width: nat, s: Decode, recordEnd: bool)
    requires BuildersOk(s) && |s.selected| == request.columnCount
    ensures var r := DecodeEvent(o, request, width, s, recordEnd);
            r.Err? ==> r.error == ResourceLimit || (o.strict && r.error == ParseFailed)
  {
    var field := DecodeField(o, request, s);
    if field.Ok? {
      PushErrors(field.value.builders, field.value.selected, |field.value.selected|, field.value.batchBytes, o.maxBatchBytes);
    }
  }

  lemma PushErrors(builders: seq<Column>, cells: seq<Cell>, n: nat, batchBytes: nat, maxBatchBytes: nat)
    requires n <= |builders| == |cells| && ColumnsOk(builders)
    ensures var r := PushFirst(builders, cells, n, batchBytes, maxBatchBytes); r.Err? ==> r.error == ResourceLimit
  {
  }

  lemma DecodeEndErrors(o: Options, request: Request, width: nat, s: Decode)
    requires BuildersOk(s) && |s.selected| == request.columnCount
    ensures var r := DecodeEnd(o, request, width, s); r.Err? ==> r.error == ResourceLimit || (o.strict && r.error == ParseFailed)
  {
    if OpenAtEnd(s.reader) {
      DecodeEventErrors(o, request, width, s.(reader := EndRecord), true);
    }
  }

  lemma {:induction false} DecodeErrors(o: Options, request: Request, width: nat, s: Decode, bytes: seq<byte>)
    requires BuildersOk(s) && |s.selected| == request.columnCount
    ensures var r := DecodeBytes(o, request, width, s, bytes); r.Err? ==> r.error == ResourceLimit || (o.strict && r.error == ParseFailed)
    decreases |bytes|
  {
    hide DecodeByte, DecodeEvent;
    if bytes != [] && !s.done {
      DecodeByteIsEvent(o, request, width, s, bytes[0]);
      DecodeByteKeepsShape(o, request, width, s, bytes[0]);
      var (next, copied) := Next(o.delimiter, s.reader, bytes[0]);
      var read := s.(reader := next, text := s.text + if copied then [bytes[0]] else [], offset := s.offset + 1);
      DecodeEventErrors(o, request, width, read, EndsRecord(next));
      var after := DecodeByte(o, request, width, s, bytes[0]);
      if after.Ok? {
        DecodeErrors(o, request, width, after.value, bytes[1..]);
      }
    }
  }

  // ---------------------------------------------------------------- reading a range of a source

  /** All rows of a source, header row included. */
  function SourceRows(o: Options, source: seq<byte>): seq<Row> {
    PlainEnd(Read(o, source)).rows
  }

  function RowsFrom(total: nat, request: Request): nat {
    if total <= request.rowStart then 0 else Min(request.rowCount, total - request.rowStart)
  }

  /** The cells of one requested column, read off the plain rows. */
  function ReferenceCells(o: Options, rows: seq<Row>, request: Request, column: nat): (r: seq<Cell>)
    ensures |r| == RowsFrom(DataRows(o, rows), request)
    ensures forall i :: 0 <= i < |r| ==> r[i] == CellAt(o, rows[PlainIndex(o, request.rowStart + i)], column)
  {
    seq(RowsFrom(DataRows(o, rows), request), i requires 0 <= i < RowsFrom(DataRows(o, rows), request) =>
      CellAt(o, rows[PlainIndex(o, request.rowStart + i)], column))
  }

  /** The batch holds exactly the requested part of the plain parse of the whole source. */
  ghost predicate AnswersFrom(o: Options, source: seq<byte>, request: Request, batch: Batch) {
    var rows := SourceRows(o, source);
    && batch.rowStart == request.rowStart && batch.rows == RowsFrom(DataRows(o, rows), request)
    && |batch.columns| == request.columnCount
    && (batch.complete <==> batch.rows == request.rowCount)
    && (forall j :: 0 <= j < request.columnCount ==>
          && Holds(batch.columns[j], ReferenceCells(o, rows, request, request.columnStart + j))
          && |batch.columns[j].data| <= U32_MAX)
  }

  /**
   End to end: the columns of an answer pass the host's validation, and a cell decodes to the reference
   cell if and only if that does not begin with a byte order mark, which the host drops.
   */
  lemma AnswersDecode(o: Options, source: seq<byte>, request: Request, batch: Batch, j: nat)
    requires AnswersFrom(o, source, request, batch) && j < request.columnCount
    ensures forall i :: 0 <= i < |batch.columns[j].offsets| ==> batch.columns[j].offsets[i] <= U32_MAX
    ensures var w, cells := ToWire(batch.columns[j]), ReferenceCells(o, SourceRows(o, source), request, request.columnStart + j);
            && DisplayValid(w, batch.rows) && |cells| == batch.rows
            && (forall i: nat :: i < batch.rows ==> DecodeCell(w, i) == Ok(HostCell(cells[i])))
            && (forall i: nat :: i < batch.rows ==> (DecodeCell(w, i) == Ok(cells[i]) <==> !Marked(cells[i])))
  {
    var c, cells := batch.columns[j], ReferenceCells(o, SourceRows(o, source), request, request.columnStart + j);
    hide SourceRows, ReferenceCells, Holds, DisplayValid, DecodeCell, HostCell, Marked;
    HeldOffsetsAreOrdered(c, cells);
    forall i: nat | i < batch.rows
      ensures DecodeCell(ToWire(c), i) == Ok(HostCell(cells[i])) && (DecodeCell(ToWire(c), i) == Ok(cells[i]) <==> !Marked(cells[i]))
    {
      HeldCellsDecode(c, cells, i);
    }
  }

  /** A file that was written from rows holds those rows: it cannot begin with a byte order mark. */
  lemma WrittenRowsAreRead(o: Options, rows: seq<Row>)
    requires forall i :: 0 <= i < |rows| ==> rows[i] != []
    ensures SourceRows(o, WriteRows(o.delimiter, rows)) == rows
  {
    var source := WriteRows(o.delimiter, rows);
    if rows != [] {
      WrittenBegins(o.delimiter, rows);
    }
    assert source[0..] == source;
    WrittenFileReadsBack(o.delimiter, rows);
  }

  /** A text that begins with a byte order mark reaches the host without it, although the source was read exactly. */
  lemma AMarkIsLost(o: Options, h1: Text, h2: Text, x: Text, t: Text, batch: Batch)
    requires o.header && o.validText(BOM + t)
    requires AnswersFrom(o, WriteRows(o.delimiter, [[h1, h2], [x, BOM + t]]), Request(0, 1, 1, 1), batch)
    ensures batch.rows == 1 && |batch.columns| == 1
    ensures forall i :: 0 <= i < |batch.columns[0].offsets| ==> batch.columns[0].offsets[i] <= U32_MAX
    ensures DecodeCell(ToWire(batch.columns[0]), 0) == Ok(Some(t))
  {
    var rows: seq<Row> := [[h1, h2], [x, BOM + t]];
    WrittenRowsAreRead(o, rows);
    AnswersDecode(o, WriteRows(o.delimiter, rows), Request(0, 1, 1, 1), batch, 0);
    hide SourceRows, Holds, DecodeCell, DisplayValid, WriteRows;
    assert ReferenceCells(o, rows, Request(0, 1, 1, 1), 1)[0] == Some(BOM + t);
    assert HostCell(Some(BOM + t)) == Some(t);
  }

  /** A batch computed from row `first` on answers the request if `first` is not behind its first row. */
  lemma TailAnswers(o: Options, source: seq<byte>, tail: seq<Row>, first: nat, request: Request)
    requires PlainIndex(o, first) <= |SourceRows(o, source)| && SourceRows(o, source)[PlainIndex(o, first)..] == tail
    requires first <= request.rowStart && ColumnsSmall(BatchOf(o, tail, first, request).columns)
    ensures AnswersFrom(o, source, request, BatchOf(o, tail, first, request))
  {
    var rows := SourceRows(o, source);
    hide SourceRows, Built, Holds, Slice, ReferenceCells;
    assert first + |tail| == DataRows(o, rows);
    var batch := BatchOf(o, tail, first, request);
    forall j | 0 <= j < request.columnCount
      ensures Holds(batch.columns[j], ReferenceCells(o, rows, request, request.columnStart + j))
    {
      SliceIsReference(o, rows, tail, first, request, request.columnStart + j);
    }
  }

  lemma SliceIsReference(o: Options, rows: seq<Row>, tail: seq<Row>, first: nat, request: Request, column: nat)
    requires PlainIndex(o, first) <= |rows| && rows[PlainIndex(o, first)..] == tail && first <= request.rowStart
    ensures Slice(o, tail, first, request, column) == ReferenceCells(o, rows, request, column)
  {
    SliceAt(o, tail, first, request, column);
    hide Slice;
    assert first + |tail| == DataRows(o, rows);
    forall i | 0 <= i < RowsFrom(DataRows(o, rows), request)
      ensures Slice(o, tail, first, request, column)[i] == ReferenceCells(o, rows, request, column)[i]
    {
      assert tail[request.rowStart - first + i] == rows[PlainIndex(o, request.rowStart + i)];
    }
  }

  lemma NothingAnswers(o: Options, source: seq<byte>, first: nat, request: Request, batch: Batch)
    requires DataRows(o, SourceRows(o, source)) == 0 || request.rowCount == 0
    requires batch == Batch(request.rowStart, 0, EmptyColumns(request.columnCount), request.rowCount == 0)
    ensures AnswersFrom(o, source, request, batch)
  {
    hide SourceRows;
    EmptyHolds();
    forall j | 0 <= j < request.columnCount
      ensures Holds(batch.columns[j], ReferenceCells(o, SourceRows(o, source), request, request.columnStart + j))
    {
      assert ReferenceCells(o, SourceRows(o, source), request, request.columnStart + j) == [];
    }
  }

  lemma EmptyBatch(o: Options, first: nat, request: Request)
    ensures BatchOf(o, [], first, request)
         == Batch(request.rowStart, 0, EmptyColumns(request.columnCount), request.rowCount == 0)
  {
    assert BuiltColumns(o, [], first, request) == EmptyColumns(request.columnCount);
  }

  /** The index of a scanner, as the plan sees it. */
  function IndexFor(o: Options, seen: seq<byte>, finished: bool): Index
    requires o.Valid()
  {
    var s := IndexOf(o, seen, finished);
    Index(|s.columns|, s.rows, s.offset, s.checkpoints)
  }

  /** Where the index of a scanner that has read a prefix of the source sends a reader of the whole source. */
  lemma PlanStart(o: Options, seen: seq<byte>, finished: bool, source: seq<byte>, request: Request)
    requires o.Valid() && seen <= source && (finished ==> seen == source)
    requires PlanRange(o, IndexFor(o, seen, finished), finished, request).Ok?
    requires IndexFor(o, seen, finished).rows > 0
    ensures var plan := PlanRange(o, IndexFor(o, seen, finished), finished, request).value;
            Starts(o, source, plan) && (o.strict && Accepts(o, source, true) ==> Quiet(o, source, plan.checkpoint.offset))
  {
    hide Checkpoints, CheckpointCount, Columns, Widenings, Issues, PlanRange, Quiet, Accepts;
    var index := IndexFor(o, seen, finished);
    ParsedOk(o, seen, finished);
    var p := Indexed(o, seen, finished);
    PlanSkipsModulo(o, p, index, finished, request);
    var row := PlanRange(o, index, finished, request).value.checkpoint.row;
    StartsAgree(o, seen, finished, source, PlainIndex(o, row));
    RowsFromStart(o.delimiter, source, Base(source), PlainIndex(o, row));
    if o.strict && Accepts(o, source, true) {
      QuietFromRow(o, source, PlainIndex(o, row));
    }
  }

  /** A fresh parse from the planned offset gives the rows of the source from the planned row on. */
  predicate Starts(o: Options, source: seq<byte>, plan: RangePlan) {
    var first, start := plan.checkpoint.row, plan.checkpoint.offset;
    && start <= |source| && first <= plan.request.rowStart
    && PlainIndex(o, first) <= |SourceRows(o, source)|
    && SourceRows(o, source)[PlainIndex(o, first)..] == PlainEnd(PlainBytes(o.delimiter, Fresh(start), source[start..])).rows
  }

  /** The start of an indexed row is the start of that row in the plain parse of the whole source. */
  lemma StartsAgree(o: Options, seen: seq<byte>, finished: bool, source: seq<byte>, i: nat)
    requires seen <= source && (finished ==> seen == source)
    requires i < |Indexed(o, seen, finished).rows|
    ensures PlainOk(Indexed(o, seen, finished)) && PlainOk(Read(o, source))
    ensures i < |Read(o, source).starts| && Indexed(o, seen, finished).starts[i] == Read(o, source).starts[i]
  {
    ParsedOk(o, seen, finished);
    ReadOk(o, source);
    ReadOk(o, seen);
    var rest := source[|seen|..];
    assert source == seen + rest;
    if finished {
      assert rest == [];
    } else {
      BaseKept(seen, rest);
    }
    ReadOn(o, seen, rest);
    PlainStaysOk(o.delimiter, Read(o, seen), rest);
  }

  /** Without data rows there is no checkpoint: the plan points behind the last byte, or the range is refused. */
  lemma EmptyPlanStart(o: Options, source: seq<byte>, finished: bool, seen: seq<byte>, request: Request)
    requires o.Valid() && IndexFor(o, seen, finished).rows == 0 && request.rowCount > 0
    requires PlanRange(o, IndexFor(o, seen, finished), finished, request).Ok?
    requires finished ==> seen == source
    ensures finished && DataRows(o, SourceRows(o, source)) == 0
    ensures PlanRange(o, IndexFor(o, seen, finished), finished, request).value.checkpoint == Checkpoint(0, |source|)
  {
    ParsedOk(o, source, true);
    ReadOk(o, source);
    var p := Indexed(o, source, true);
    NoCheckpoints(o, p);
    hide Columns, Widenings, Issues, Checkpoints;
  }

  lemma NoCheckpoints(o: Options, p: Plain)
    requires o.Valid() && PlainOk(p) && DataRows(o, p.rows) == 0
    ensures Checkpoints(o, p) == []
  {
    DivideExactly(o.interval - 1, o.interval, 0, o.interval - 1);
  }

  lemma PlanKeepsRequest(o: Options, index: Index, finished: bool, request: Request)
    requires PlanRange(o, index, finished, request).Ok?
    ensures PlanRange(o, index, finished, request).value.request == request && request.ColumnEnd() <= index.columns
  {
  }

  /** From the decoder's answer for the bytes it was given to the answer for the source. */
  lemma RangeAnswered(o: Options, source: seq<byte>, plan: RangePlan, end: nat, batch: Batch)
    requires plan.checkpoint.offset <= end <= |source| && plan.request.rowCount > 0
    requires var q := PlainBytes(o.delimiter, Fresh(plan.checkpoint.offset), source[plan.checkpoint.offset..end]);
             batch == BatchOf(o, if end == |source| then PlainEnd(q).rows else q.rows, plan.checkpoint.row, plan.request)
    requires (end < |source| ==> batch.complete) && ColumnsSmall(batch.columns)
    requires Starts(o, source, plan)
             || (plan.checkpoint == Checkpoint(0, |source|) && DataRows(o, SourceRows(o, source)) == 0)
    ensures AnswersFrom(o, source, plan.request, batch)
  {
    hide SourceRows, AnswersFrom, BatchOf, PlainBytes, PlainEnd, DataRows;
    var d, first, start := o.delimiter, plan.checkpoint.row, plan.checkpoint.offset;
    if Starts(o, source, plan) {
      if end == |source| {
        assert source[start..end] == source[start..];
      } else {
        CompleteEarly(o, source[start..end], source[end..], plan);
        assert source[start..] == source[start..end] + source[end..];
      }
      TailAnswers(o, source, SourceRows(o, source)[PlainIndex(o, first)..], first, plan.request);
    } else {
      assert source[start..end] == [];
      NothingParsed(d, start);
      EmptyBatch(o, first, plan.request);
      NothingAnswers(o, source, first, plan.request, batch);
    }
  }

  lemma NothingParsed(d: Delimiter, start: nat)
    ensures PlainEnd(PlainBytes(d, Fresh(start), [])) == Fresh(start) == PlainBytes(d, Fresh(start), [])
  {
  }

  /** A batch that is complete before the end of the source is the one that all of the source gives. */
  lemma CompleteEarly(o: Options, bytes: seq<byte>, rest: seq<byte>, plan: RangePlan)
    requires var q := PlainBytes(o.delimiter, Fresh(plan.checkpoint.offset), bytes);
             plan.request.rowCount > 0 && BatchOf(o, q.rows, plan.checkpoint.row, plan.request).complete
    ensures var q := PlainBytes(o.delimiter, Fresh(plan.checkpoint.offset), bytes);
            var all := PlainEnd(PlainBytes(o.delimiter, Fresh(plan.checkpoint.offset), bytes + rest));
            BatchOf(o, all.rows, plan.checkpoint.row, plan.request) == BatchOf(o, q.rows, plan.checkpoint.row, plan.request)
  {
    hide BatchOf, PlainBytes;
    var d, first, from := o.delimiter, plan.checkpoint.row, Fresh(plan.checkpoint.offset);
    var q := PlainBytes(d, from, bytes);
    PlainConcat(d, from, bytes, rest);
    PlainStaysOk(d, from, bytes);
    PlainStaysOk(d, q, rest);
    var all := PlainEnd(PlainBytes(d, q, rest));
    assert all.rows == q.rows + all.rows[|q.rows|..];
    CompleteBatch(o, q.rows, first, plan.request);
    CompleteIsStable(o, q.rows, all.rows[|q.rows|..], first, plan.request);
  }

  lemma CompleteBatch(o: Options, rows: seq<Row>, first: nat, request: Request)
    requires BatchOf(o, rows, first, request).complete
    ensures Returned(first, first + |rows|, request) == request.rowCount
  {
  }

  /** The exact encoded size of the first `count` columns of the requested range. */
  function ReferenceBytes(o: Options, rows: seq<Row>, request: Request, count: nat): nat {
    if count == 0 then 0
    else ReferenceBytes(o, rows, request, count - 1) + EncodedBytes(ReferenceCells(o, rows, request, request.columnStart + count - 1))
  }

  predicate ReferenceColumnFits(o: Options, rows: seq<Row>, request: Request, j: nat) {
    TextBytes(ReferenceCells(o, rows, request, request.columnStart + j)) <= U32_MAX
  }

  /** The requested range of the source, encoded, is within the batch limit. */
  predicate RangeFits(o: Options, source: seq<byte>, request: Request) {
    var rows := SourceRows(o, source);
    && ReferenceBytes(o, rows, request, request.columnCount) <= o.maxBatchBytes
    && forall j: nat :: j < request.columnCount ==> ReferenceColumnFits(o, rows, request, j)
  }

  lemma {:induction false} BytesAreReference(o: Options, rows: seq<Row>, tail: seq<Row>, first: nat, request: Request, count: nat)
    requires PlainIndex(o, first) <= |rows| && rows[PlainIndex(o, first)..] == tail && first <= request.rowStart
    ensures BatchBytes(o, tail, first, request, count) == ReferenceBytes(o, rows, request, count)
  {
    hide Slice, ReferenceCells, EncodedBytes;
    if count > 0 {
      BytesAreReference(o, rows, tail, first, request, count - 1);
      SliceIsReference(o, rows, tail, first, request, request.columnStart + count - 1);
    }
  }

  /** What is decoded from the checkpoint fits exactly if the range of the source does. */
  lemma FitsIsRangeFits(o: Options, source: seq<byte>, tail: seq<Row>, first: nat, request: Request)
    requires var rows := SourceRows(o, source);
             PlainIndex(o, first) <= |rows| && rows[PlainIndex(o, first)..] == tail && first <= request.rowStart
    ensures BatchFits(o, tail, first, request) <==> RangeFits(o, source, request)
  {
    hide SourceRows, ColumnFits, ReferenceColumnFits, BatchBytes, ReferenceBytes;
    var rows := SourceRows(o, source);
    BytesAreReference(o, rows, tail, first, request, request.columnCount);
    assert first + |tail| == DataRows(o, rows);
    assert Returned(first, first + |tail|, request) == RowsFrom(DataRows(o, rows), request);
    hide DataRows, Returned, RowsFrom, PlainIndex;
    forall j: nat ensures ColumnFits(o, tail, first, request, j) <==> ReferenceColumnFits(o, rows, request, j) {
      ColumnFitsAlike(o, rows, tail, first, request, j);
    }
  }

  lemma ColumnFitsAlike(o: Options, rows: seq<Row>, tail: seq<Row>, first: nat, request: Request, j: nat)
    requires PlainIndex(o, first) <= |rows| && rows[PlainIndex(o, first)..] == tail && first <= request.rowStart
    ensures ColumnFits(o, tail, first, request, j) <==> ReferenceColumnFits(o, rows, request, j)
  {
    hide Slice, ReferenceCells, TextBytes;
    SliceIsReference(o, rows, tail, first, request, request.columnStart + j);
  }

  /** The decoder of an accepted source, started at the checkpoint of the plan. */
  lemma StartSucceeds(o: Options, source: seq<byte>, plan: RangePlan, width: nat)
    requires o.Valid() && !o.strict && Accepts(o, source, true) && plan.request.rowCount > 0
    requires 4 * plan.request.columnCount <= o.maxBatchBytes
    requires BuildersOk(StartDecode(plan)) && |StartDecode(plan).selected| == plan.request.columnCount
    requires Starts(o, source, plan)
             || (plan.checkpoint == Checkpoint(0, |source|) && DataRows(o, SourceRows(o, source)) == 0)
    ensures plan.checkpoint.offset <= |source|
    ensures DecodeAll(o, plan.request, width, StartDecode(plan), source[plan.checkpoint.offset..]).Ok?
       <==> RangeFits(o, source, plan.request)
  {
    assert Indexed(o, source, true).rows == SourceRows(o, source);
    hide DecodeAll, RangeFits, BatchFits, Decodes, SourceRows, Admits;
    var d, first, start := o.delimiter, plan.checkpoint.row, plan.checkpoint.offset;
    var q, bytes := Fresh(start), source[start..];
    StartDecodes(o, plan);
    PlainStaysOk(d, q, bytes);
    var all := PlainBytes(d, q, bytes);
    ParsedOk(o, source, true);
    NothingFits(o, first, plan.request);
    if Starts(o, source, plan) {
      TailAdmitted(o, Indexed(o, source, true), all, PlainIndex(o, first));
      AllSucceeds(o, plan, width, StartDecode(plan), q, bytes);
      FitsIsRangeFits(o, source, PlainEnd(all).rows, first, plan.request);
    } else {
      assert bytes == [] && all == q;
      FreshAdmitted(o, start);
      AllSucceeds(o, plan, width, StartDecode(plan), q, bytes);
      NoRowsFit(o, source, plan.request);
    }
  }

  lemma IndexedRowsPrefix(o: Options, seen: seq<byte>, finished: bool, source: seq<byte>)
    requires seen <= source && (finished ==> seen == source)
    ensures Indexed(o, seen, finished).rows <= SourceRows(o, source)
  {
    var rest := source[|seen|..];
    assert source == seen + rest;
    if !finished && !Waiting(seen, false) {
      BaseKept(seen, rest);
      ReadOn(o, seen, rest);
      ReadOk(o, seen);
      PlainStaysOk(o.delimiter, Read(o, seen), rest);
    }
  }

  /** In strict mode every prefix with a data row already shows the width of all rows. */
  lemma StrictWidth(o: Options, seen: seq<byte>, finished: bool, source: seq<byte>)
    requires o.Valid() && o.strict && Accepts(o, source, true) && seen <= source && (finished ==> seen == source)
    requires IndexFor(o, seen, finished).rows > 0
    ensures SourceRows(o, source) != [] && IndexFor(o, seen, finished).columns == |SourceRows(o, source)[0]|
  {
    ParsedOk(o, source, true);
    ParsedOk(o, seen, finished);
    IndexedRowsPrefix(o, seen, finished, source);
    var p, q := Indexed(o, source, true), Indexed(o, seen, finished);
    assert p.rows == SourceRows(o, source);
    hide Indexed, SourceRows, RowIssues, TextIssues, RowFits, Checkpoints;
    NoRowIssues(o, p.rows, p.starts);
    forall i | 0 <= i < |q.rows| ensures |q.rows[i]| == |p.rows[0]| {
      assert CleanRow(o, |p.rows[0]|, p.rows[i]);
    }
    EqualWidths(q.rows, |p.rows[0]|);
    ColumnsSize(o, q);
  }

  lemma {:induction false} ReferenceBytesAlike(o: Options, rows: seq<Row>, request: Request, count: nat)
    ensures ReferenceBytes(Lenient(o), rows, request, count) == ReferenceBytes(o, rows, request, count)
  {
    if count > 0 {
      ReferenceBytesAlike(o, rows, request, count - 1);
      ReferenceCellsAlike(o, rows, request, request.columnStart + count - 1);
    }
  }

  lemma ReferenceCellsAlike(o: Options, rows: seq<Row>, request: Request, column: nat)
    ensures ReferenceCells(Lenient(o), rows, request, column) == ReferenceCells(o, rows, request, column)
  {
  }

  lemma RangeFitsAlike(o: Options, source: seq<byte>, request: Request)
    ensures RangeFits(Lenient(o), source, request) <==> RangeFits(o, source, request)
  {
    hide ReferenceBytes, ReferenceCells, ReferenceColumnFits, PlainBytes, PlainEnd;
    var rows := SourceRows(o, source);
    assert SourceRows(Lenient(o), source) == rows;
    hide SourceRows;
    ReferenceBytesAlike(o, rows, request, request.columnCount);
    forall j: nat ensures ReferenceColumnFits(Lenient(o), rows, request, j) <==> ReferenceColumnFits(o, rows, request, j) {
      ColumnFitsLeniently(o, rows, request, j);
    }
  }

  lemma ColumnFitsLeniently(o: Options, rows: seq<Row>, request: Request, j: nat)
    ensures ReferenceColumnFits(Lenient(o), rows, request, j) <==> ReferenceColumnFits(o, rows, request, j)
  {
    hide ReferenceCells;
    ReferenceCellsAlike(o, rows, request, request.columnStart + j);
  }

  lemma AcceptedLeniently(o: Options, source: seq<byte>)
    requires o.Valid() && Accepts(o, source, true)
    ensures Accepts(Lenient(o), source, true)
  {
    ParsedOk(o, source, true);
    ParsedOk(Lenient(o), source, true);
    assert Indexed(Lenient(o), source, true) == Indexed(o, source, true);
    hide Indexed, Issues;
  }

  /** What is read from the checkpoint of a strictly accepted source is clean. */
  lemma StartIsClean(o: Options, source: seq<byte>, plan: RangePlan, width: nat)
    requires o.Valid() && o.strict && Accepts(o, source, true) && Starts(o, source, plan)
    requires SourceRows(o, source) != [] && width == |SourceRows(o, source)[0]|
    ensures plan.checkpoint.offset <= |source|
    ensures Clean(o, width, PlainEnd(PlainBytes(o.delimiter, Fresh(plan.checkpoint.offset), source[plan.checkpoint.offset..])))
  {
    SourceAdmitted(o, source);
    assert SourceRows(o, source) == Indexed(o, source, true).rows;
    hide SourceRows, Admits, Accepts, Clean, Indexed, PlainBytes, PlainOk, PlainEnd;
    var d, start := o.delimiter, plan.checkpoint.offset;
    var p := PlainBytes(d, Fresh(start), source[start..]);
    TailOk(d, start, source[start..]);
    TailIsClean(o, Indexed(o, source, true), p, PlainIndex(o, plan.checkpoint.row), width);
  }

  lemma TailOk(d: Delimiter, start: nat, bytes: seq<byte>)
    ensures var p := PlainBytes(d, Fresh(start), bytes); PlainOk(p) && PlainOk(PlainEnd(p))
  {
    PlainStaysOk(d, Fresh(start), bytes);
  }

  lemma StartsAlike(o: Options, source: seq<byte>, plan: RangePlan)
    ensures Starts(Lenient(o), source, plan) == Starts(o, source, plan)
    ensures DataRows(Lenient(o), SourceRows(Lenient(o), source)) == DataRows(o, SourceRows(o, source))
  {
  }

  /** The strict decoder of a strictly accepted source. */
  lemma StrictStartSucceeds(o: Options, source: seq<byte>, plan: RangePlan, width: nat)
    requires o.Valid() && o.strict && Accepts(o, source, true) && plan.request.rowCount > 0
    requires 4 * plan.request.columnCount <= o.maxBatchBytes
    requires BuildersOk(StartDecode(plan)) && |StartDecode(plan).selected| == plan.request.columnCount
    requires (Starts(o, source, plan) && SourceRows(o, source) != [] && width == |SourceRows(o, source)[0]|)
             || (plan.checkpoint == Checkpoint(0, |source|) && DataRows(o, SourceRows(o, source)) == 0)
    ensures plan.checkpoint.offset <= |source|
    ensures DecodeAll(o, plan.request, width, StartDecode(plan), source[plan.checkpoint.offset..]).Ok?
       <==> RangeFits(o, source, plan.request)
  {
    hide DecodeAll, RangeFits, Decodes, SourceRows, DataRows, Admits, Accepts, Clean, Starts, PlainBytes, StartDecode, BuildersOk;
    AcceptedLeniently(o, source);
    StartsAlike(o, source, plan);
    StartSucceeds(Lenient(o), source, plan, width);
    RangeFitsAlike(o, source, plan.request);
    var start := plan.checkpoint.offset;
    StartDecodes(Lenient(o), plan);
    if Starts(o, source, plan) && SourceRows(o, source) != [] && width == |SourceRows(o, source)[0]| {
      StartIsClean(o, source, plan, width);
    } else {
      assert source[start..] == [];
      FreshIsClean(o, width, start);
    }
    AllAlike(o, plan, width, StartDecode(plan), Fresh(start), source[start..]);
  }

  lemma SourceAdmitted(o: Options, source: seq<byte>)
    requires Accepts(o, source, true)
    ensures PlainOk(Indexed(o, source, true)) && Admits(o, Indexed(o, source, true))
  {
    ParsedOk(o, source, true);
  }

  lemma FreshIsClean(o: Options, width: nat, offset: nat)
    ensures Clean(o, width, PlainEnd(PlainBytes(o.delimiter, Fresh(offset), [])))
  {
  }

  lemma FreshAdmitted(o: Options, offset: nat)
    requires o.Valid()
    ensures PlainEnd(Fresh(offset)) == Fresh(offset) && PlainOk(Fresh(offset)) && Admits(o, Fresh(offset))
  {
    FreshSummary(o, offset);
  }

  /** A range without rows still has one offset a column. */
  lemma NoRowsFit(o: Options, source: seq<byte>, request: Request)
    requires DataRows(o, SourceRows(o, source)) == 0 || request.rowCount == 0
    ensures RangeFits(o, source, request) <==> 4 * request.columnCount <= o.maxBatchBytes
  {
    var rows := SourceRows(o, source);
    hide SourceRows;
    assert RowsFrom(DataRows(o, rows), request) == 0;
    NoReferenceBytes(o, rows, request, request.columnCount);
  }

  lemma {:induction false} NoReferenceBytes(o: Options, rows: seq<Row>, request: Request, count: nat)
    requires RowsFrom(DataRows(o, rows), request) == 0
    ensures ReferenceBytes(o, rows, request, count) == 4 * count
  {
    if count > 0 {
      NoReferenceBytes(o, rows, request, count - 1);
      assert ReferenceCells(o, rows, request, request.columnStart + count - 1) == [];
    }
  }

  /** No range takes less than that. */
  lemma {:induction false} OffsetsAreNeeded(o: Options, rows: seq<Row>, request: Request, count: nat)
    ensures ReferenceBytes(o, rows, request, count) >= 4 * count
  {
    if count > 0 {
      OffsetsAreNeeded(o, rows, request, count - 1);
      SizeGrows(ReferenceCells(o, rows, request, request.columnStart + count - 1), 0);
    }
  }

  lemma TooManyColumns(o: Options, source: seq<byte>, request: Request)
    requires 4 * request.columnCount > o.maxBatchBytes
    ensures !RangeFits(o, source, request)
  {
    hide SourceRows, ReferenceBytes;
    OffsetsAreNeeded(o, SourceRows(o, source), request, request.columnCount);
  }

  /**
   `read_range`: plan, then decode from the checkpoint in chunks of `chunkSize`.  The scanner may
   still be at work; then only its prefix is indexed, but the range is read from the whole source.
   */
  method ReadRange(scanner: CsvScanner, source: seq<byte>, request: Request, chunkSize: nat) returns (r: Result<Batch>)
    requires scanner.Valid() && scanner.seen <= source && (scanner.finished ==> scanner.seen == source) && chunkSize > 0
    ensures r.Ok? ==> AnswersFrom(scanner.options, source, request, r.value)
    ensures r.Ok? ==> request.ColumnEnd() <= |scanner.columns|
    ensures Accepts(scanner.options, source, true) ==>
              (r.Ok? <==> && request.rowStart + request.rowCount <= MAX_SAFE_INTEGER
                          && request.columnStart + request.columnCount <= MAX_SAFE_INTEGER
                          && request.rowCount * request.columnCount <= Min(U64_MAX, scanner.options.maxCells)
                          && request.columnStart + request.columnCount <= |scanner.columns|
                          && (request.rowCount == 0 || scanner.finished || request.rowStart < scanner.rows)
                          && RangeFits(scanner.options, source, request))
    ensures Accepts(scanner.options, source, true) && r == Err(RangeNotIndexed) ==> !scanner.finished && scanner.rows <= request.rowStart
  {
    hide RangeFits, DecodeAll, IndexOf, Accepts, Tracked, QuoteIssues, Kept, PlanRange, AnswersFrom, SourceRows, Starts, EmptyColumns;
    ghost var o := scanner.options;
    var index := Index(|scanner.columns|, scanner.rows, scanner.parserOffset, scanner.checkpoints);
    assert index == IndexFor(o, scanner.seen, scanner.finished);
    var planned := PlanRange(scanner.options, index, scanner.finished, request);
    PlannedExactlyWhen(o, index, scanner.finished, request);
    if planned.Err? {
      return Err(planned.error);
    }
    var plan := planned.value;
    PlanKeepsRequest(o, index, scanner.finished, request);
    var created := RangeDecoder.Create(scanner.options, plan, |scanner.columns|);
    if created.Err? {
      TooManyColumns(o, source, request);
      return Err(created.error);
    }
    var decoder := created.value;
    if decoder.done {
      NoRowsFit(o, source, request);
      var batch := decoder.BuildBatch(true);
      NothingAnswers(o, source, plan.checkpoint.row, request, batch);
      return Ok(batch);
    }
    if scanner.rows == 0 {
      EmptyPlanStart(o, source, scanner.finished, scanner.seen, request);
    } else {
      PlanStart(o, scanner.seen, scanner.finished, source, request);
    }
    if Accepts(o, source, true) {
      if !o.strict {
        StartSucceeds(o, source, plan, |scanner.columns|);
      } else if scanner.rows == 0 {
        StrictStartSucceeds(o, source, plan, |scanner.columns|);
        assert source[|source|..] == [];
        assert Quiet(o, source, plan.checkpoint.offset);
      } else {
        StrictWidth(o, scanner.seen, scanner.finished, source);
        StrictStartSucceeds(o, source, plan, |scanner.columns|);
      }
    }
    r := DecodeFrom(decoder, source, chunkSize);
  }

  /** The loop of `read_range` that feeds the decoder. */
  method DecodeFrom(decoder: RangeDecoder, source: seq<byte>, chunkSize: nat) returns (r: Result<Batch>)
    requires decoder.Valid() && !decoder.done && decoder.fed == [] && chunkSize > 0
    requires decoder.View() == StartDecode(decoder.plan) && decoder.tracker == NO_QUOTES
    requires Starts(decoder.options, source, decoder.plan)
             || (decoder.plan.checkpoint == Checkpoint(0, |source|) && DataRows(decoder.options, SourceRows(decoder.options, source)) == 0)
    modifies decoder
    ensures r.Ok? ==> AnswersFrom(decoder.options, source, decoder.plan.request, r.value)
    ensures r.Err? ==> r.error == ResourceLimit || (decoder.options.strict && r.error == ParseFailed)
    ensures BuildersOk(StartDecode(decoder.plan)) && decoder.plan.checkpoint.offset <= |source|
    ensures !decoder.options.strict || Quiet(decoder.options, source, decoder.plan.checkpoint.offset) ==>
              (r.Ok? <==> DecodeAll(decoder.options, decoder.plan.request, decoder.width, StartDecode(decoder.plan),
                                    source[decoder.plan.checkpoint.offset..]).Ok?)
  {
    hide AnswersFrom, SourceRows, BatchOf, PlainBytes, Decodes, DecodeAll, DecodeBytes, ColumnsOk, TrackAll;
    ghost var o, request, width, s0 := decoder.options, decoder.plan.request, decoder.width, decoder.View();
    var start := decoder.plan.checkpoint.offset;
    var offset := start;
    ghost var quiet := Quiet(o, source, start);
    assert source[start..offset] == [];
    if offset >= |source| {
      assert source[start..] == [];
      var status := decoder.FeedChunk(offset, [], true);
      if status.Err? {
        return Err(status.error);
      }
      assert [] + [] == source[start..|source|] == source[start..];
      RangeAnswered(decoder.options, source, decoder.plan, |source|, status.value.batch);
      return Ok(status.value.batch);
    }
    while true
      invariant start <= offset < |source| && decoder.Valid() && !decoder.done
      invariant decoder.expectedOffset == offset && decoder.fed == source[start..offset] && decoder.Shaped()
      invariant o.strict && quiet ==> QuietFrom(o.delimiter, decoder.tracker, source[offset..], offset)
      invariant DecodeAll(o, request, width, decoder.View(), source[offset..]).Ok? <==> DecodeAll(o, request, width, s0, source[start..]).Ok?
      decreases |source| - offset
    {
      var end := Min(offset + chunkSize, |source|);
      assert source[start..offset] + source[offset..end] == source[start..end];
      assert source[offset..] == source[offset..end] + source[end..];
      AllConcat(o, request, width, decoder.View(), source[offset..end], source[end..]);
      assert end == |source| ==> source[offset..end] == source[offset..];
      if o.strict && quiet {
        QuietConcat(o.delimiter, decoder.tracker, source[offset..end], source[end..], offset);
      }
      var status := decoder.FeedChunk(offset, source[offset..end], end == |source|);
      if status.Err? {
        return Err(status.error);
      }
      if status.value.Complete? {
        RangeAnswered(decoder.options, source, decoder.plan, end, status.value.batch);
        return Ok(status.value.batch);
      }
      offset := end;
    }
  }
}
