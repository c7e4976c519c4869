/**
 When a range decode fails.  In lenient mode an accepted source leaves one reason: the encoded batch
 is larger than the batch limit.
 */
module CsvBatchLimit {
  import opened Common
  import opened CsvReader
  import opened CsvScan
  import opened CsvRange
  import opened RangeRequests
  import opened StringColumn

  /** The requested part of the rows, encoded, fits the batch limit and the `u32` offsets. */
  predicate BatchFits(o: Options, rows: seq<Row>, first: nat, request: Request) {
    && BatchBytes(o, rows, first, request, request.columnCount) <= o.maxBatchBytes
    && forall j: nat :: j < request.columnCount ==> ColumnFits(o, rows, first, request, j)
  }

  predicate ColumnFits(o: Options, rows: seq<Row>, first: nat, request: Request, j: nat) {
    TextBytes(Slice(o, rows, first, request, request.columnStart + j)) <= U32_MAX
  }

  /** The decoder fed with everything that follows the checkpoint. */
  function DecodeAll(o: Options, request: Request, width: nat, s: Decode, bytes: seq<byte>): Result<Decode>
    requires BuildersOk(s) && |s.selected| == request.columnCount
  {
    var read :- DecodeBytes(o, request, width, s, bytes);
    DecodeBytesKeepShape(o, request, width, s, bytes);
    if read.done then Ok(read) else DecodeEnd(o, request, width, read)
  }

  lemma {:induction false} DecodeBytesKeepShape(o: Options, request: Request, width: nat, s: Decode, bytes: seq<byte>)
    requires BuildersOk(s) && |s.selected| == request.columnCount
    ensures var r := DecodeBytes(o, request, width, s, bytes);
            r.Ok? ==> BuildersOk(r.value) && |r.value.selected| == request.columnCount
    decreases |bytes|
  {
    hide DecodeByte, ColumnsOk;
    if bytes != [] && !s.done {
      DecodeByteKeepsShape(o, request, width, s, bytes[0]);
      var next := DecodeByte(o, request, width, s, bytes[0]);
      if next.Ok? {
        DecodeBytesKeepShape(o, request, width, next.value, bytes[1..]);
      }
    }
  }

  lemma {:induction false} DecodeBytesConcat(o: Options, request: Request, width: nat, s: Decode, a: seq<byte>, b: seq<byte>)
    requires BuildersOk(s) && |s.selected| == request.columnCount
    ensures var first := DecodeBytes(o, request, width, s, a);
            && (first.Ok? ==> BuildersOk(first.value) && |first.value.selected| == request.columnCount)
            && DecodeBytes(o, request, width, s, a + b)
               == if first.Err? then first else DecodeBytes(o, request, width, first.value, b)
    decreases |a|
  {
    hide DecodeByte, ColumnsOk;
    DecodeBytesKeepShape(o, request, width, s, a);
    if a == [] {
      assert a + b == b;
    } else if !s.done {
      assert (a + b)[1..] == a[1..] + b;
      DecodeByteKeepsShape(o, request, width, s, a[0]);
      var next := DecodeByte(o, request, width, s, a[0]);
      if next.Ok? {
        DecodeBytesConcat(o, request, width, next.value, a[1..], b);
      }
    }
  }

  // ---------------------------------------------------------------- how the batch grows

  lemma SliceGrows(o: Options, rows: seq<Row>, row: Row, first: nat, request: Request, column: nat)
    ensures var a, b := Slice(o, rows, first, request, column), Slice(o, rows + [row], first, request, column);
            && EncodedBytes(a) <= EncodedBytes(b) && TextBytes(a) <= TextBytes(b)
            && (!RowWanted(request, first + |rows|) ==> b == a)
            && (RowWanted(request, first + |rows|) ==>
                  b == a + [CellAt(o, row, column)] && TextBytes(b) == TextBytes(a) + CellBytes(CellAt(o, row, column)))
  {
    SliceStep(o, rows, row, first, request, column);
    var a, cell := Slice(o, rows, first, request, column), CellAt(o, row, column);
    hide Slice, CellAt;
    assert (a + [cell])[..|a|] == a && a + [] == a;
  }

  /** What a row adds to the first `m` columns is part of what it adds to the first `n`. */
  lemma {:induction false} RowAdds(o: Options, rows: seq<Row>, row: Row, first: nat, request: Request, m: nat, n: nat)
    requires m <= n
    ensures 0 <= BatchBytes(o, rows + [row], first, request, m) - BatchBytes(o, rows, first, request, m)
              <= BatchBytes(o, rows + [row], first, request, n) - BatchBytes(o, rows, first, request, n)
    decreases n
  {
    hide Slice, EncodedBytes;
    if n > 0 {
      SliceGrows(o, rows, row, first, request, request.columnStart + n - 1);
      RowAdds(o, rows, row, first, request, if m == n then m - 1 else m, n - 1);
    }
  }

  lemma FitsBeforeRow(o: Options, rows: seq<Row>, row: Row, first: nat, request: Request)
    requires BatchFits(o, rows + [row], first, request)
    ensures BatchFits(o, rows, first, request)
  {
    hide Slice, TextBytes, BatchBytes;
    RowAdds(o, rows, row, first, request, 0, request.columnCount);
    RowAdds(o, rows, row, first, request, request.columnCount, request.columnCount);
    forall j: nat | j < request.columnCount && ColumnFits(o, rows + [row], first, request, j) ensures ColumnFits(o, rows, first, request, j) {
      SliceGrows(o, rows, row, first, request, request.columnStart + j);
    }
  }

  lemma {:induction false} FitsEarlier(o: Options, rows: seq<Row>, more: seq<Row>, first: nat, request: Request)
    requires BatchFits(o, rows + more, first, request)
    ensures BatchFits(o, rows, first, request)
    decreases |more|
  {
    hide BatchFits;
    if more == [] {
      assert rows + more == rows;
    } else {
      var front, last := more[..|more| - 1], more[|more| - 1];
      assert rows + more == rows + front + [last];
      FitsBeforeRow(o, rows + front, last, first, request);
      FitsEarlier(o, rows, front, first, request);
    }
  }

  lemma FitsAfterUnwanted(o: Options, rows: seq<Row>, row: Row, first: nat, request: Request)
    requires BatchFits(o, rows, first, request) && !RowWanted(request, first + |rows|)
    ensures BatchFits(o, rows + [row], first, request)
  {
    hide Slice, TextBytes, BatchBytes;
    UnwantedRowBuilds(o, rows, row, first, request, request.columnCount);
    forall j: nat | j < request.columnCount && ColumnFits(o, rows, first, request, j) ensures ColumnFits(o, rows + [row], first, request, j) {
      SliceGrows(o, rows, row, first, request, request.columnStart + j);
    }
  }

  // ---------------------------------------------------------------- pushing a row

  lemma BuiltBytes(cells: seq<Cell>)
    ensures |Built(cells).data| == TextBytes(cells) && Built(cells).values == |cells|
  {
    hide Built;
    assert Holds(Built(cells), cells);
    HeldBytes(Built(cells), cells);
  }

  /** The first `n` columns after the row is pushed. */
  function PushedRow(o: Options, rows: seq<Row>, row: Row, first: nat, request: Request, n: nat): Result<(seq<Column>, nat)>
    requires n <= request.columnCount
  {
    PushFirst(BuiltColumns(o, rows, first, request), SelectedCells(o, request, first + |rows|, row), n,
              BatchBytes(o, rows, first, request, request.columnCount), o.maxBatchBytes)
  }

  /** The check that pushing a cell makes, in terms of the batch so far. */
  predicate PushFits(o: Options, rows: seq<Row>, row: Row, first: nat, request: Request, n: nat) {
    && BatchBytes(o, rows, first, request, request.columnCount)
       + BatchBytes(o, rows + [row], first, request, n) - BatchBytes(o, rows, first, request, n) <= o.maxBatchBytes
    && (n > 0 ==> ColumnFits(o, rows + [row], first, request, n - 1))
  }

  lemma OnePush(o: Options, rows: seq<Row>, row: Row, first: nat, request: Request, n: nat)
    requires 0 < n <= request.columnCount && RowWanted(request, first + |rows|)
    ensures PushedRow(o, rows, row, first, request, n).Ok?
       <==> PushedRow(o, rows, row, first, request, n - 1).Ok? && PushFits(o, rows, row, first, request, n)
  {
    hide Slice, CellAt, Built, EncodedBytes, TextBytes, Pushed, PushBytes, CellBytes;
    var column := request.columnStart + n - 1;
    PushBuilds(o, rows, row, first, request, n - 1, BatchBytes(o, rows, first, request, request.columnCount));
    BuiltStep(o, rows, row, first, request, column);
    SliceGrows(o, rows, row, first, request, column);
    BuiltBytes(Slice(o, rows, first, request, column));
  }

  lemma NoPush(o: Options, rows: seq<Row>, row: Row, first: nat, request: Request)
    ensures PushedRow(o, rows, row, first, request, 0).Ok?
  {
  }

  lemma FitsAllowsPush(o: Options, rows: seq<Row>, row: Row, first: nat, request: Request, n: nat)
    requires 0 < n <= request.columnCount && RowWanted(request, first + |rows|) && BatchFits(o, rows + [row], first, request)
    ensures PushFits(o, rows, row, first, request, n)
  {
    hide BatchBytes, ColumnFits;
    RowAdds(o, rows, row, first, request, n, request.columnCount);
  }

  /** The row that still fits is pushed, column by column. */
  lemma {:induction false} PushSucceeds(o: Options, rows: seq<Row>, row: Row, first: nat, request: Request, n: nat)
    requires n <= request.columnCount && RowWanted(request, first + |rows|) && BatchFits(o, rows + [row], first, request)
    ensures PushedRow(o, rows, row, first, request, n).Ok?
  {
    hide PushedRow, PushFits, BatchFits;
    if n == 0 {
      NoPush(o, rows, row, first, request);
    } else {
      PushSucceeds(o, rows, row, first, request, n - 1);
      FitsAllowsPush(o, rows, row, first, request, n);
      OnePush(o, rows, row, first, request, n);
    }
  }

  lemma {:induction false} PushesFit(o: Options, rows: seq<Row>, row: Row, first: nat, request: Request, n: nat)
    requires n <= request.columnCount && RowWanted(request, first + |rows|) && PushedRow(o, rows, row, first, request, n).Ok?
    ensures forall k: nat :: 0 < k <= n ==> PushFits(o, rows, row, first, request, k)
  {
    hide PushedRow, PushFits;
    if n > 0 {
      OnePush(o, rows, row, first, request, n);
      PushesFit(o, rows, row, first, request, n - 1);
    }
  }

  /** The row that is pushed fits. */
  lemma PushedFits(o: Options, rows: seq<Row>, row: Row, first: nat, request: Request)
    requires RowWanted(request, first + |rows|) && PushedRow(o, rows, row, first, request, request.columnCount).Ok?
    ensures BatchFits(o, rows + [row], first, request)
  {
    PushesFit(o, rows, row, first, request, request.columnCount);
    hide PushedRow, ColumnFits;
    forall j: nat | j < request.columnCount ensures ColumnFits(o, rows + [row], first, request, j) {
      assert PushFits(o, rows, row, first, request, j + 1);
    }
    if request.columnCount > 0 {
      assert PushFits(o, rows, row, first, request, request.columnCount);
    }
  }

  // ---------------------------------------------------------------- decoding a byte

  lemma FieldSucceeds(o: Options, request: Request, s: Decode)
    requires !o.strict && |s.selected| == request.columnCount && s.fieldIndex + 1 <= o.maxColumns
    ensures DecodeField(o, request, s).Ok?
  {
  }

  /** In lenient mode a row is refused exactly if the batch with it does not fit. */
  lemma RowSucceeds(o: Options, plan: RangePlan, width: nat, s: Decode, q: Plain, reader: ReaderState)
    requires !o.strict && Decodes(o, plan, s.(reader := q.reader), q) && BuildersOk(s) && BatchFits(o, q.rows, plan.checkpoint.row, plan.request)
    ensures DecodeRow(o, plan.request, width, s.(reader := reader)).Ok?
       <==> BatchFits(o, q.rows + [q.fields], plan.checkpoint.row, plan.request)
  {
    hide BatchFits, PushFirst, BatchBytes;
    var request, first := plan.request, plan.checkpoint.row;
    if RowWanted(request, s.row) {
      assert PushedRow(o, q.rows, q.fields, first, request, request.columnCount)
          == PushFirst(s.builders, s.selected, |s.selected|, s.batchBytes, o.maxBatchBytes);
      if BatchFits(o, q.rows + [q.fields], first, request) {
        PushSucceeds(o, q.rows, q.fields, first, request, request.columnCount);
      }
      if PushedRow(o, q.rows, q.fields, first, request, request.columnCount).Ok? {
        PushedFits(o, q.rows, q.fields, first, request);
      }
    } else {
      FitsAfterUnwanted(o, q.rows, q.fields, first, request);
    }
  }

  lemma EventSucceeds(o: Options, plan: RangePlan, width: nat, s: Decode, a: Plain, next: ReaderState)
    requires !o.strict && Decodes(o, plan, s.(reader := a.reader), a) && EndsField(next) && !s.done && s.reader == next
    requires BuildersOk(s) && |s.selected| == plan.request.columnCount && BatchFits(o, a.rows, plan.checkpoint.row, plan.request)
    requires |a.fields| + 1 <= o.maxColumns
    ensures DecodeEvent(o, plan.request, width, s, EndsRecord(next)).Ok?
       <==> !EndsRecord(next) || BatchFits(o, a.rows + [a.fields + [a.text]], plan.checkpoint.row, plan.request)
  {
    assert s.fieldIndex == |a.fields|;
    FieldSucceeds(o, plan.request, s);
    FieldDecodes(o, plan, s, a, next);
    var field := DecodeField(o, plan.request, s).value;
    FieldKeepsBuilders(o, plan.request, s);
    if EndsRecord(next) {
      hide Decodes, DecodeField, DecodeRow, BatchFits;
      RowSucceeds(o, plan, width, field, WithField(a), next);
    }
  }

  lemma FieldKeepsBuilders(o: Options, request: Request, s: Decode)
    requires BuildersOk(s) && |s.selected| == request.columnCount
    ensures var r := DecodeField(o, request, s); r.Ok? ==> BuildersOk(r.value) && r.value.reader == s.reader
  {
  }

  /** What a byte leaves of the limits, once the parse with it is admitted. */
  lemma AdmittedByte(o: Options, q: Plain, b: byte)
    requires PlainOk(q) && PlainOk(PlainByte(o.delimiter, q, b)) && Admits(o, PlainByte(o.delimiter, q, b))
    ensures var (next, copied) := Next(o.delimiter, q.reader, b);
            && (copied ==> |q.text| + 1 <= o.maxFieldBytes)
            && (EndsField(next) ==> |q.fields| + 1 <= o.maxColumns)
  {
    PlainByteParts(o.delimiter, q, b);
    var (next, copied) := Next(o.delimiter, q.reader, b);
    var a, p := Advanced(o.delimiter, q, b), PlainByte(o.delimiter, q, b);
    if EndsRecord(next) {
      assert p.rows[|q.rows|] == a.fields + [a.text];
    }
  }

  /** In lenient mode an admitted byte is refused exactly if it ends a row with which the batch does not fit. */
  lemma ByteSucceeds(o: Options, plan: RangePlan, width: nat, s: Decode, q: Plain, b: byte)
    requires !o.strict && Decodes(o, plan, s, q) && !s.done && BuildersOk(s) && |s.selected| == plan.request.columnCount
    requires PlainOk(PlainByte(o.delimiter, q, b)) && Admits(o, PlainByte(o.delimiter, q, b))
    requires BatchFits(o, q.rows, plan.checkpoint.row, plan.request)
    ensures DecodeByte(o, plan.request, width, s, b).Ok?
       <==> BatchFits(o, PlainByte(o.delimiter, q, b).rows, plan.checkpoint.row, plan.request)
  {
    hide BatchFits, DecodeEvent, BuiltColumns, SelectedCells, BatchBytes, Returned, Admits, DecodeByte;
    DecodesOffset(o, plan, s, q);
    AdmittedByte(o, q, b);
    PlainByteParts(o.delimiter, q, b);
    DecodeByteIsEvent(o, plan.request, width, s, b);
    var (next, copied) := Next(o.delimiter, s.reader, b);
    var read := s.(reader := next, text := s.text + if copied then [b] else [], offset := s.offset + 1);
    if EndsField(next) {
      EventSucceeds(o, plan, width, read, Advanced(o.delimiter, q, b), next);
    }
  }

  /** Rows behind a complete range change nothing. */
  lemma {:induction false} FitsWhenDone(o: Options, rows: seq<Row>, more: seq<Row>, first: nat, request: Request)
    requires BatchFits(o, rows, first, request) && request.rowCount > 0 && Returned(first, first + |rows|, request) == request.rowCount
    ensures BatchFits(o, rows + more, first, request)
    decreases |more|
  {
    if more == [] {
      assert rows + more == rows;
    } else {
      var front, last := more[..|more| - 1], more[|more| - 1];
      FitsWhenDone(o, rows, front, first, request);
      hide BatchFits;
      assert rows + more == rows + front + [last];
      FitsAfterUnwanted(o, rows + front, last, first, request);
    }
  }

  /** Fed with more bytes of an accepted source, the lenient decoder fails exactly if their rows do not fit the batch. */
  lemma {:induction false} BytesSucceed(o: Options, plan: RangePlan, width: nat, s: Decode, q: Plain, bytes: seq<byte>)
    requires o.Valid() && !o.strict && Decodes(o, plan, s, q) && BuildersOk(s) && |s.selected| == plan.request.columnCount
    requires PlainOk(q) && PlainOk(PlainBytes(o.delimiter, q, bytes)) && Admits(o, PlainBytes(o.delimiter, q, bytes))
    requires plan.request.rowCount > 0 && BatchFits(o, q.rows, plan.checkpoint.row, plan.request)
    ensures DecodeBytes(o, plan.request, width, s, bytes).Ok?
       <==> BatchFits(o, PlainBytes(o.delimiter, q, bytes).rows, plan.checkpoint.row, plan.request)
    decreases |bytes|
  {
    hide BatchFits, Admits, DecodeByte, PlainByte;
    var first, request, all := plan.checkpoint.row, plan.request, PlainBytes(o.delimiter, q, bytes);
    PlainStaysOk(o.delimiter, q, bytes);
    if bytes == [] {
    } else if s.done {
      assert all.rows == q.rows + all.rows[|q.rows|..];
      DoneReturned(o, plan, s, q);
      FitsWhenDone(o, q.rows, all.rows[|q.rows|..], first, request);
    } else {
      hide Decodes;
      var q' := PlainByte(o.delimiter, q, bytes[0]);
      PlainByteParts(o.delimiter, q, bytes[0]);
      AdmitsEarlier(o, q', bytes[1..]);
      ByteSucceeds(o, plan, width, s, q, bytes[0]);
      DecodeByteKeepsShape(o, request, width, s, bytes[0]);
      if DecodeByte(o, request, width, s, bytes[0]).Ok? {
        ByteDecodes(o, plan, width, s, q, bytes[0]);
        BytesSucceed(o, plan, width, DecodeByte(o, request, width, s, bytes[0]).value, q', bytes[1..]);
      } else {
        PlainStaysOk(o.delimiter, q', bytes[1..]);
        if BatchFits(o, all.rows, first, request) {
          assert all.rows == q'.rows + all.rows[|q'.rows|..];
          FitsEarlier(o, q'.rows, all.rows[|q'.rows|..], first, request);
        }
      }
    }
  }

  lemma DoneReturned(o: Options, plan: RangePlan, s: Decode, q: Plain)
    requires Decodes(o, plan, s, q) && s.done
    ensures Returned(plan.checkpoint.row, plan.checkpoint.row + |q.rows|, plan.request) == plan.request.rowCount
  {
  }

  lemma EndSucceeds(o: Options, plan: RangePlan, width: nat, s: Decode, q: Plain)
    requires !o.strict && Decodes(o, plan, s, q) && !s.done && BuildersOk(s) && |s.selected| == plan.request.columnCount
    requires PlainOk(q) && PlainOk(PlainEnd(q)) && Admits(o, PlainEnd(q)) && BatchFits(o, q.rows, plan.checkpoint.row, plan.request)
    ensures DecodeEnd(o, plan.request, width, s).Ok? <==> BatchFits(o, PlainEnd(q).rows, plan.checkpoint.row, plan.request)
  {
    hide BatchFits, DecodeEvent, BuiltColumns, SelectedCells, BatchBytes, Returned;
    if OpenAtEnd(q.reader) {
      assert PlainEnd(q).rows[|q.rows|] == q.fields + [q.text];
      EventSucceeds(o, plan, width, s.(reader := EndRecord), q, EndRecord);
    }
  }

  /** The whole rest of an accepted source: the lenient decoder fails exactly if the requested batch does not fit. */
  lemma AllSucceeds(o: Options, plan: RangePlan, width: nat, s: Decode, q: Plain, bytes: seq<byte>)
    requires o.Valid() && !o.strict && Decodes(o, plan, s, q) && BuildersOk(s) && |s.selected| == plan.request.columnCount
    requires PlainOk(q) && plan.request.rowCount > 0 && BatchFits(o, q.rows, plan.checkpoint.row, plan.request)
    requires var end := PlainEnd(PlainBytes(o.delimiter, q, bytes)); PlainOk(end) && Admits(o, end)
    ensures DecodeAll(o, plan.request, width, s, bytes).Ok?
       <==> BatchFits(o, PlainEnd(PlainBytes(o.delimiter, q, bytes)).rows, plan.checkpoint.row, plan.request)
  {
    hide BatchFits, Admits, DecodeEnd, DecodeBytes, PlainBytes, Decodes, BuildersOk, PlainEnd;
    var first, request, all := plan.checkpoint.row, plan.request, PlainBytes(o.delimiter, q, bytes);
    var end := PlainEnd(all);
    PlainStaysOk(o.delimiter, q, bytes);
    AdmitsBeforeEof(o, all);
    BytesSucceed(o, plan, width, s, q, bytes);
    DecodeBytesKeepShape(o, request, width, s, bytes);
    EndAddsRows(all);
    assert end.rows == all.rows + end.rows[|all.rows|..];
    if BatchFits(o, end.rows, first, request) {
      FitsEarlier(o, all.rows, end.rows[|all.rows|..], first, request);
    }
    var read := DecodeBytes(o, request, width, s, bytes);
    if read.Ok? {
      BytesDecode(o, plan, width, s, q, bytes);
      DecodesOffset(o, plan, s, q);
      var k := read.value.offset - q.offset;
      var consumed := PlainBytes(o.delimiter, q, bytes[..k]);
      if read.value.done {
        assert bytes == bytes[..k] + bytes[k..];
        PlainConcat(o.delimiter, q, bytes[..k], bytes[k..]);
        DoneFits(o, plan, read.value, consumed, all, end, bytes[k..]);
      } else {
        assert bytes[..k] == bytes;
        EndSucceeds(o, plan, width, read.value, all);
      }
    }
  }

  lemma EndAddsRows(p: Plain)
    ensures p.rows <= PlainEnd(p).rows
  {
  }

  lemma DoneFits(o: Options, plan: RangePlan, s: Decode, consumed: Plain, all: Plain, end: Plain, rest: seq<byte>)
    requires Decodes(o, plan, s, consumed) && s.done && plan.request.rowCount > 0
    requires PlainOk(all) && all == PlainBytes(o.delimiter, consumed, rest) && end == PlainEnd(all)
    requires BatchFits(o, all.rows, plan.checkpoint.row, plan.request)
    ensures BatchFits(o, end.rows, plan.checkpoint.row, plan.request)
  {
    hide BatchFits;
    var first, request := plan.checkpoint.row, plan.request;
    DecodesOffset(o, plan, s, consumed);
    PlainStaysOk(o.delimiter, consumed, rest);
    DoneReturned(o, plan, s, consumed);
    assert all.rows == consumed.rows + all.rows[|consumed.rows|..];
    assert end.rows == all.rows + end.rows[|all.rows|..];
    FitsEarlier(o, consumed.rows, all.rows[|consumed.rows|..], first, request);
    assert Returned(first, first + |all.rows|, request) == request.rowCount;
    FitsWhenDone(o, all.rows, end.rows[|all.rows|..], first, request);
  }

  lemma AdmitsBeforeEof(o: Options, p: Plain)
    requires o.Valid() && PlainOk(p) && PlainOk(PlainEnd(p)) && Admits(o, PlainEnd(p))
    ensures Admits(o, p)
  {
    if OpenAtEnd(p.reader) {
      AdmitsBeforeEnd(o, p, EndRecord);
      assert PlainEnd(p) == WithRow(WithField(p)).(reader := EndRecord);
    }
  }

  /** A chunk that does not end the matter leaves the rest to what follows. */
  lemma AllConcat(o: Options, request: Request, width: nat, s: Decode, a: seq<byte>, b: seq<byte>)
    requires BuildersOk(s) && |s.selected| == request.columnCount
    ensures var first := DecodeBytes(o, request, width, s, a);
            && (first.Ok? ==> BuildersOk(first.value) && |first.value.selected| == request.columnCount)
            && DecodeAll(o, request, width, s, a + b)
               == if first.Err? then first else if first.value.done then first else DecodeAll(o, request, width, first.value, b)
  {
    DecodeBytesConcat(o, request, width, s, a, b);
    hide DecodeEnd, ColumnsOk;
  }

  /** Rows that an accepted source contains are accepted when read afresh. */
  lemma TailAdmitted(o: Options, source: Plain, p: Plain, from: nat)
    requires !o.strict && PlainOk(source) && Admits(o, source) && PlainOk(p) && PlainOk(PlainEnd(p))
    requires from <= |source.rows| && source.rows[from..] == PlainEnd(p).rows
    ensures Admits(o, PlainEnd(p))
  {
    var end := PlainEnd(p);
    forall i | 0 <= i < |end.rows| ensures RowFits(o, end.rows[i]) {
      assert end.rows[i] == source.rows[from + i];
    }
  }

  /** An empty batch has one offset a column. */
  lemma NothingFits(o: Options, first: nat, request: Request)
    requires 4 * request.columnCount <= o.maxBatchBytes
    ensures BatchFits(o, [], first, request)
  {
    EmptyBatchBytes(o, first, request, request.columnCount);
  }
}
