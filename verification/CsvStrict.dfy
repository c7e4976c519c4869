/**
 Range reads in strict mode.  A source that the strict scanner accepts gives the range decoder nothing
 to report from any checkpoint on, so that strict and lenient decoding agree there.
 */
module CsvStrict {
  import opened Common
  import opened CsvReader
  import opened CsvScan
  import opened CsvScanner
  import opened CsvRange
  import opened CsvBatchLimit
  import opened RangeRequests
  import opened StringColumn

  /** The same options in lenient mode. */
  function Lenient(o: Options): Options {
    o.(strict := false)
  }

  // ---------------------------------------------------------------- rows without an issue

  predicate AllValid(o: Options, fields: Row) {
    forall i :: 0 <= i < |fields| ==> o.validText(fields[i])
  }

  predicate CleanRow(o: Options, width: nat, row: Row) {
    |row| == width && AllValid(o, row)
  }

  /** Every complete row has `width` fields, and every field so far is valid text. */
  predicate Clean(o: Options, width: nat, p: Plain) {
    (forall i :: 0 <= i < |p.rows| ==> CleanRow(o, width, p.rows[i])) && AllValid(o, p.fields)
  }

  lemma ValidPrefix(o: Options, fields: Row, text: seq<byte>)
    requires AllValid(o, fields + [text])
    ensures AllValid(o, fields) && o.validText(text)
  {
    var all := fields + [text];
    assert all[|fields|] == text;
    forall i | 0 <= i < |fields| ensures o.validText(fields[i]) {
      assert all[i] == fields[i];
    }
  }

  lemma CleanBefore(o: Options, width: nat, rows: seq<Row>, row: Row, i: nat)
    requires forall j :: 0 <= j < |rows + [row]| ==> CleanRow(o, width, (rows + [row])[j])
    requires i < |rows|
    ensures CleanRow(o, width, rows[i]) && CleanRow(o, width, row)
  {
    assert (rows + [row])[i] == rows[i] && (rows + [row])[|rows|] == row;
  }

  lemma LastClean(o: Options, width: nat, rows: seq<Row>, row: Row)
    requires forall j :: 0 <= j < |rows + [row]| ==> CleanRow(o, width, (rows + [row])[j])
    ensures CleanRow(o, width, row)
  {
    assert (rows + [row])[|rows|] == row;
  }

  /** What a byte of a clean parse ends is valid text and a row of the right width. */
  lemma CleanByte(o: Options, width: nat, q: Plain, b: byte)
    requires Clean(o, width, PlainByte(o.delimiter, q, b))
    ensures Clean(o, width, q)
    ensures var (next, copied) := Next(o.delimiter, q.reader, b);
            && (EndsField(next) ==> o.validText(q.text + if copied then [b] else []))
            && (EndsRecord(next) ==> |q.fields| + 1 == width)
  {
    hide CleanRow, AllValid, Next;
    var (next, copied) := Next(o.delimiter, q.reader, b);
    var text := q.text + if copied then [b] else [];
    if EndsRecord(next) {
      var row := q.fields + [text];
      LastClean(o, width, q.rows, row);
      CleanRowIs(o, width, row);
      ValidPrefix(o, q.fields, text);
      forall i | 0 <= i < |q.rows| ensures CleanRow(o, width, q.rows[i]) {
        CleanBefore(o, width, q.rows, row, i);
      }
    } else if EndsField(next) {
      ValidPrefix(o, q.fields, text);
    }
  }

  lemma CleanRowIs(o: Options, width: nat, row: Row)
    ensures CleanRow(o, width, row) <==> |row| == width && AllValid(o, row)
  {
  }

  lemma {:induction false} CleanEarlier(o: Options, width: nat, q: Plain, bytes: seq<byte>)
    requires Clean(o, width, PlainBytes(o.delimiter, q, bytes))
    ensures Clean(o, width, q)
    decreases |bytes|
  {
    hide Clean, PlainByte;
    if bytes != [] {
      CleanEarlier(o, width, PlainByte(o.delimiter, q, bytes[0]), bytes[1..]);
      CleanByte(o, width, q, bytes[0]);
    }
  }

  lemma CleanBeforeEnd(o: Options, width: nat, q: Plain)
    requires Clean(o, width, PlainEnd(q))
    ensures Clean(o, width, q)
    ensures OpenAtEnd(q.reader) ==> o.validText(q.text) && |q.fields| + 1 == width
  {
    hide CleanRow, AllValid;
    if OpenAtEnd(q.reader) {
      var row := q.fields + [q.text];
      LastClean(o, width, q.rows, row);
      CleanRowIs(o, width, row);
      ValidPrefix(o, q.fields, q.text);
      forall i | 0 <= i < |q.rows| ensures CleanRow(o, width, q.rows[i]) {
        CleanBefore(o, width, q.rows, row, i);
      }
    }
  }

  // ---------------------------------------------------------------- strict decoding of clean rows

  /** With valid text, and a row of the right width if it ends one, strict and lenient decoding do the same. */
  lemma EventAlike(o: Options, request: Request, width: nat, s: Decode, recordEnd: bool)
    requires BuildersOk(s) && |s.selected| == request.columnCount
    requires o.validText(s.text) && (recordEnd ==> s.fieldIndex + 1 == width)
    ensures DecodeEvent(o, request, width, s, recordEnd) == DecodeEvent(Lenient(o), request, width, s, recordEnd)
  {
    hide PushFirst, ColumnsOk;
    assert DecodeField(o, request, s) == DecodeField(Lenient(o), request, s);
    if recordEnd && DecodeField(o, request, s).Ok? {
      var field := DecodeField(o, request, s).value;
      assert field.fieldIndex == width;
      assert DecodeRow(o, request, width, field) == DecodeRow(Lenient(o), request, width, field);
    }
  }

  lemma ByteAlike(o: Options, request: Request, width: nat, s: Decode, q: Plain, b: byte)
    requires BuildersOk(s) && |s.selected| == request.columnCount
    requires s.reader == q.reader && s.text == q.text && s.fieldIndex == |q.fields|
    requires Clean(o, width, PlainByte(o.delimiter, q, b))
    ensures DecodeByte(o, request, width, s, b) == DecodeByte(Lenient(o), request, width, s, b)
  {
    CleanByte(o, width, q, b);
    DecodeByteIsEvent(o, request, width, s, b);
    DecodeByteIsEvent(Lenient(o), request, width, s, b);
    hide Clean, DecodeByte, DecodeEvent, ColumnsOk, Next;
    var (next, copied) := Next(o.delimiter, s.reader, b);
    var read := s.(reader := next, text := s.text + if copied then [b] else [], offset := s.offset + 1);
    if EndsField(next) {
      EventAlike(o, request, width, read, EndsRecord(next));
    }
  }

  lemma {:induction false} BytesAlike(o: Options, plan: RangePlan, width: nat, s: Decode, q: Plain, bytes: seq<byte>)
    requires Decodes(Lenient(o), plan, s, q) && BuildersOk(s) && |s.selected| == plan.request.columnCount
    requires Clean(o, width, PlainBytes(o.delimiter, q, bytes))
    ensures DecodeBytes(o, plan.request, width, s, bytes) == DecodeBytes(Lenient(o), plan.request, width, s, bytes)
    decreases |bytes|
  {
    hide Clean, DecodeByte, PlainByte, ColumnsOk;
    if bytes != [] && !s.done {
      var q', request := PlainByte(o.delimiter, q, bytes[0]), plan.request;
      CleanEarlier(o, width, q', bytes[1..]);
      DecodesFields(Lenient(o), plan, s, q);
      hide Decodes;
      ByteAlike(o, request, width, s, q, bytes[0]);
      DecodeByteKeepsShape(o, request, width, s, bytes[0]);
      if DecodeByte(o, request, width, s, bytes[0]).Ok? {
        ByteDecodes(Lenient(o), plan, width, s, q, bytes[0]);
        BytesAlike(o, plan, width, DecodeByte(o, request, width, s, bytes[0]).value, q', bytes[1..]);
      }
    }
  }

  lemma DecodesFields(o: Options, plan: RangePlan, s: Decode, q: Plain)
    requires Decodes(o, plan, s, q)
    ensures s.reader == q.reader && s.text == q.text && s.fieldIndex == |q.fields|
  {
  }

  /** On clean rows the strict decoder does what the lenient one does. */
  lemma AllAlike(o: Options, plan: RangePlan, width: nat, s: Decode, q: Plain, bytes: seq<byte>)
    requires Decodes(Lenient(o), plan, s, q) && BuildersOk(s) && |s.selected| == plan.request.columnCount
    requires Clean(o, width, PlainEnd(PlainBytes(o.delimiter, q, bytes)))
    ensures DecodeAll(o, plan.request, width, s, bytes) == DecodeAll(Lenient(o), plan.request, width, s, bytes)
  {
    var all := PlainBytes(o.delimiter, q, bytes);
    CleanBeforeEnd(o, width, all);
    BytesAlike(o, plan, width, s, q, bytes);
    hide Clean, DecodeBytes, DecodeEvent, PlainBytes, ColumnsOk;
    DecodeBytesKeepShape(o, plan.request, width, s, bytes);
    var read := DecodeBytes(o, plan.request, width, s, bytes);
    if read.Ok? && !read.value.done {
      BytesDecode(Lenient(o), plan, width, s, q, bytes);
      DecodesOffset(Lenient(o), plan, s, q);
      assert bytes[..read.value.offset - q.offset] == bytes;
      DecodesFields(Lenient(o), plan, read.value, all);
      if OpenAtEnd(all.reader) {
        EventAlike(o, plan.request, width, read.value.(reader := EndRecord), true);
      }
    }
  }

  // ---------------------------------------------------------------- strictly accepted rows are clean

  lemma {:induction false} NoTextIssues(o: Options, fields: Row, row: Option<nat>, start: nat)
    requires TextIssues(o, fields, row, start) == []
    ensures AllValid(o, fields)
    decreases |fields|
  {
    if fields != [] {
      NoTextIssues(o, fields[..|fields| - 1], row, start);
      forall i | 0 <= i < |fields| ensures o.validText(fields[i]) {
        if i < |fields| - 1 {
          assert fields[..|fields| - 1][i] == fields[i];
        }
      }
    }
  }

  /** Rows without an issue are as wide as the first one. */
  lemma {:induction false} NoRowIssues(o: Options, rows: seq<Row>, starts: seq<nat>)
    requires |rows| <= |starts| && rows != [] && RowIssues(o, rows, starts) == []
    ensures Width(rows) == |rows[0]| && forall i :: 0 <= i < |rows| ==> CleanRow(o, |rows[0]|, rows[i])
    decreases |rows|
  {
    hide TextIssues, AllValid;
    var before, last, start := rows[..|rows| - 1], rows[|rows| - 1], starts[|rows| - 1];
    NoTextIssues(o, last, RowNumber(o, |before|), start);
    if before == [] {
      assert Width(rows) == Max(0, |last|);
    } else {
      NoRowIssues(o, before, starts);
      forall i | 0 <= i < |rows| ensures CleanRow(o, |rows[0]|, rows[i]) {
        if i < |before| {
          assert before[i] == rows[i];
        }
      }
    }
  }

  lemma {:induction false} EqualWidths(rows: seq<Row>, width: nat)
    requires rows != [] && forall i :: 0 <= i < |rows| ==> |rows[i]| == width
    ensures Width(rows) == width
    decreases |rows|
  {
    var before := rows[..|rows| - 1];
    if before != [] {
      EqualWidths(before, width);
    } else {
      assert Width(before) == 0;
    }
  }

  /** The rows that are read from a checkpoint of a strictly accepted source are clean. */
  lemma TailIsClean(o: Options, source: Plain, p: Plain, from: nat, width: nat)
    requires o.strict && PlainOk(source) && Admits(o, source) && PlainOk(p) && PlainOk(PlainEnd(p))
    requires from <= |source.rows| && source.rows[from..] == PlainEnd(p).rows
    requires source.rows != [] && width == |source.rows[0]|
    ensures Clean(o, width, PlainEnd(p))
  {
    hide RowIssues, TextIssues, RowFits;
    NoRowIssues(o, source.rows, source.starts);
    var end := PlainEnd(p);
    forall i | 0 <= i < |end.rows| ensures CleanRow(o, width, end.rows[i]) {
      assert end.rows[i] == source.rows[from + i];
    }
    assert end.fields == [];
  }

  // ---------------------------------------------------------------- the quote tracker from a row start on

  /** Outside quotes the tracker remembers no opening. */
  predicate Settled(t: Tracker) {
    t.state == StartField || t.state == Unquoted ==> t.opening == None
  }

  lemma {:induction false} TrackerSettles(d: Delimiter, t: Tracker, bytes: seq<byte>, offset: nat)
    requires Settled(t)
    ensures Settled(TrackAll(d, t, bytes, offset).0)
    decreases |bytes|
  {
    if bytes != [] {
      assert Settled(Track(d, t, bytes[0], offset).0);
      TrackerSettles(d, Track(d, t, bytes[0], offset).0, bytes[1..], offset + 1);
    }
  }

  /** No quote is reported when the source is read from `start` on. */
  predicate Quiet(o: Options, source: seq<byte>, start: nat)
    requires start <= |source|
  {
    QuietFrom(o.delimiter, NO_QUOTES, source[start..], start)
  }

  predicate QuietFrom(d: Delimiter, t: Tracker, bytes: seq<byte>, offset: nat) {
    var (last, offsets) := TrackAll(d, t, bytes, offset); offsets == [] && !last.state.Quoted?
  }

  lemma QuietConcat(d: Delimiter, t: Tracker, a: seq<byte>, b: seq<byte>, offset: nat)
    requires QuietFrom(d, t, a + b, offset)
    ensures var (mid, offsets) := TrackAll(d, t, a, offset); offsets == [] && QuietFrom(d, mid, b, offset + |a|)
  {
    TrackConcat(d, t, a, b, offset);
  }

  lemma FreshIsOk(base: nat)
    ensures PlainOk(Fresh(base)) && Fresh(base).starts == [base] && Fresh(base).offset == base
  {
  }

  lemma QuietSource(o: Options, source: seq<byte>)
    requires o.Valid() && o.strict && Accepts(o, source, true)
    ensures QuietFrom(o.delimiter, NO_QUOTES, source[Base(source)..], Base(source))
  {
    hide TrackAll, Admits, Indexed, Base;
    assert |Malformed(Quotes(o, source).1)| == |Quotes(o, source).1|;
  }

  /** How far into the tail a later row starts, and the tracker there. */
  lemma RowStart(d: Delimiter, base: nat, tail: seq<byte>, i: nat, start: nat) returns (k: nat)
    requires Boundary(d, Fresh(base), tail, i, start)
    ensures k <= |tail| && start == base + k && TrackAll(d, NO_QUOTES, tail[..k], base).0 == NO_QUOTES
  {
    k := start - base;
    hide TrackAll, PlainBytes;
    TrackerFollowsReader(d, Fresh(base), NO_QUOTES, tail[..k], base);
    TrackerSettles(d, NO_QUOTES, tail[..k], base);
  }

  /** At the start of a row the tracker is a fresh one, so that a strictly accepted source is quiet from there. */
  lemma QuietFromRow(o: Options, source: seq<byte>, i: nat)
    requires o.Valid() && o.strict && Accepts(o, source, true) && i < |Read(o, source).starts|
    ensures var start := Read(o, source).starts[i]; start <= |source| && Quiet(o, source, start)
  {
    hide TrackAll, PlainBytes, PlainByte, Accepts, QuietFrom, InStep, Settled, PlainOk, Boundary;
    var d, base := o.delimiter, Base(source);
    var tail := source[base..];
    var p := PlainBytes(d, Fresh(base), tail);
    QuietSource(o, source);
    FreshIsOk(base);
    PlainStaysOk(d, Fresh(base), tail);
    var start := p.starts[i];
    if i == 0 {
      assert start == base;
    } else {
      StartsAreBoundaries(d, Fresh(base), tail, i);
      var k := RowStart(d, base, tail, i, start);
      assert tail == tail[..k] + source[start..];
      QuietConcat(d, NO_QUOTES, tail[..k], source[start..], base);
    }
  }
}
