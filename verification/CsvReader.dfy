/**
 The byte automaton behind `csv_core::Reader` and a plain whole-file parse built on it.

 `csv_core` itself is not part of this model: `Next` is its documented behaviour for the
 settings of `build_reader` (one delimiter, quoting with doubled quotes, CR, LF or CRLF as
 record terminator, no escape byte, no comments), i.e. section 2 of RFC 4180 plus lenient
 handling of stray quotes.
 */
module CsvReader {
  import opened Common

  const CR: byte := 13
  const LF: byte := 10
  const QUOTE: byte := 34

  /** `DelimitedOptions::validate` on the delimiter. */
  predicate ValidDelimiter(d: byte) {
    d != 0 && d < 128 && d != CR && d != LF && d != QUOTE
  }

  type Delimiter = d: byte | ValidDelimiter(d) witness 44

  datatype ReaderState = StartRecord | EndFieldDelim | InField | InQuotedField | AfterQuote | EndRecord | Crlf | End

  predicate IsTerminator(b: byte) {
    b == CR || b == LF
  }

  /** A state in which no record is under way. */
  predicate AtRecordStart(s: ReaderState) {
    s == StartRecord || s == EndRecord || s == Crlf
  }

  function EndOfRecord(b: byte): ReaderState {
    if b == CR then Crlf else EndRecord
  }

  /** One byte: the next state, and whether the byte belongs to the field text. */
  function Next(d: Delimiter, s: ReaderState, b: byte): (ReaderState, bool) {
    match s
    case End => (End, false)
    case StartRecord | EndRecord | Crlf =>
      if IsTerminator(b) then (StartRecord, false) else FieldStart(d, b)
    case EndFieldDelim => FieldStart(d, b)
    case InField =>
      if b == d then (EndFieldDelim, false)
      else if IsTerminator(b) then (EndOfRecord(b), false)
      else (InField, true)
    case InQuotedField =>
      if b == QUOTE then (AfterQuote, false) else (InQuotedField, true)
    case AfterQuote =>
      if b == QUOTE then (InQuotedField, true)
      else if b == d then (EndFieldDelim, false)
      else if IsTerminator(b) then (EndOfRecord(b), false)
      else (InField, true)
  }

  function FieldStart(d: Delimiter, b: byte): (ReaderState, bool) {
    if b == QUOTE then (InQuotedField, false)
    else if b == d then (EndFieldDelim, false)
    else if IsTerminator(b) then (EndOfRecord(b), false)
    else (InField, true)
  }

  /** The byte just read ended a field. */
  predicate EndsField(s: ReaderState) {
    s == EndFieldDelim || EndsRecord(s)
  }

  predicate EndsRecord(s: ReaderState) {
    s == EndRecord || s == Crlf
  }

  /** At the end of the input an open record is closed as if it were terminated. */
  predicate OpenAtEnd(s: ReaderState) {
    s == EndFieldDelim || s == InField || s == InQuotedField || s == AfterQuote
  }

  // ---------------------------------------------------------------- read_field

  datatype ReadResult = InputEmpty | OutputFull | Field(recordEnd: bool) | AtEnd

  datatype FieldRead = FieldRead(state: ReaderState, result: ReadResult, consumed: nat, text: seq<byte>)

  /** `read_field` on a non-empty input with room for `room` output bytes. */
  function ReadField(d: Delimiter, s: ReaderState, input: seq<byte>, room: nat): (r: FieldRead)
    requires s != End && input != [] && room > 0
    ensures 0 < r.consumed <= |input| && |r.text| <= room && r.state != End
    ensures r.result == InputEmpty ==> r.consumed == |input|
    ensures !r.result.AtEnd?
    decreases |input|
  {
    var (next, copied) := Next(d, s, input[0]);
    var text := if copied then [input[0]] else [];
    if EndsField(next) then FieldRead(next, Field(EndsRecord(next)), 1, text)
    else if |input| == 1 then FieldRead(next, InputEmpty, 1, text)
    else if |text| == room then FieldRead(next, OutputFull, 1, text)
    else
      var rest := ReadField(d, next, input[1..], room - |text|);
      FieldRead(rest.state, rest.result, 1 + rest.consumed, text + rest.text)
  }

  /** `read_field` on the empty input: the end of the source. */
  function ReadEnd(s: ReaderState): (ReaderState, ReadResult) {
    if OpenAtEnd(s) then (EndRecord, Field(true)) else (End, AtEnd)
  }

  // ---------------------------------------------------------------- the quote tracker

  datatype QuoteState = StartField | Unquoted | Quoted(opening: nat) | ClosedQuote

  datatype Tracker = Tracker(state: QuoteState, opening: Option<nat>)

  const NO_QUOTES := Tracker(StartField, None)

  /** One byte of `QuoteTracker::consume`: the next state, and whether the byte is malformed. */
  function Track(d: Delimiter, t: Tracker, b: byte, offset: nat): (Tracker, bool) {
    match t.state
    case StartField =>
      if b == QUOTE then (Tracker(Quoted(offset), Some(offset)), false)
      else if b == d || IsTerminator(b) then (t, false)
      else (t.(state := Unquoted), false)
    case Unquoted =>
      if b == QUOTE then (t, true)
      else if b == d || IsTerminator(b) then (t.(state := StartField), false)
      else (t, false)
    case Quoted(_) =>
      if b == QUOTE then (t.(state := ClosedQuote), false) else (t, false)
    case ClosedQuote =>
      if b == QUOTE then (t.(state := Quoted(if t.opening.Some? then t.opening.value else offset)), false)
      else if b == d || IsTerminator(b) then (Tracker(StartField, None), false)
      else (Tracker(Unquoted, None), true)
  }

  /** The offsets of the malformed bytes of a chunk at `offset`, in order. */
  function TrackAll(d: Delimiter, t: Tracker, bytes: seq<byte>, offset: nat): (Tracker, seq<nat>)
    decreases |bytes|
  {
    if bytes == [] then (t, [])
    else
      var (next, bad) := Track(d, t, bytes[0], offset);
      var (last, issues) := TrackAll(d, next, bytes[1..], offset + 1);
      (last, (if bad then [offset] else []) + issues)
  }

  lemma {:induction false} TrackConcat(d: Delimiter, t: Tracker, a: seq<byte>, b: seq<byte>, offset: nat)
    ensures var (mid, first) := TrackAll(d, t, a, offset);
            var (last, second) := TrackAll(d, mid, b, offset + |a|);
            TrackAll(d, t, a + b, offset) == (last, first + second)
    decreases |a|
  {
    if a == [] {
      assert a + b == b && offset + |a| == offset;
      assert [] + TrackAll(d, t, b, offset).1 == TrackAll(d, t, b, offset).1;
    } else {
      assert (a + b)[1..] == a[1..] + b;
      var (next, bad) := Track(d, t, a[0], offset);
      TrackConcat(d, next, a[1..], b, offset + 1);
      var here := if bad then [offset] else [];
      var (mid, first) := TrackAll(d, next, a[1..], offset + 1);
      var second := TrackAll(d, mid, b, offset + |a|).1;
      assert here + first + second == here + (first + second);
    }
  }

  /** What the tracker believes about a reader in state `s`. */
  predicate InStep(s: ReaderState, t: Tracker) {
    match t.state
    case StartField => AtRecordStart(s) || s == EndFieldDelim
    case Unquoted => s == InField
    case Quoted(opening) => s == InQuotedField && t.opening == Some(opening)
    case ClosedQuote => s == AfterQuote && t.opening.Some?
  }

  // ---------------------------------------------------------------- plain parse

  type Row = seq<seq<byte>>

  /**
   A whole-file parse: complete rows, the fields and text of the open row, and the offset at
   which each complete row and the open row start.
   */
  datatype Plain = Plain(reader: ReaderState, text: seq<byte>, fields: Row, rows: seq<Row>, starts: seq<nat>, offset: nat)

  function Fresh(offset: nat): Plain {
    Plain(StartRecord, [], [], [], [offset], offset)
  }

  function PlainByte(d: Delimiter, p: Plain, b: byte): Plain {
    var (next, copied) := Next(d, p.reader, b);
    var text := p.text + if copied then [b] else [];
    var offset := p.offset + 1;
    if EndsRecord(next) then Plain(next, [], [], p.rows + [p.fields + [text]], p.starts + [offset], offset)
    else if EndsField(next) then Plain(next, [], p.fields + [text], p.rows, p.starts, offset)
    else Plain(next, text, p.fields, p.rows, p.starts, offset)
  }

  function PlainBytes(d: Delimiter, p: Plain, bytes: seq<byte>): Plain
    decreases |bytes|
  {
    if bytes == [] then p else PlainBytes(d, PlainByte(d, p, bytes[0]), bytes[1..])
  }

  function PlainEnd(p: Plain): Plain {
    if OpenAtEnd(p.reader) then
      Plain(EndRecord, [], [], p.rows + [p.fields + [p.text]], p.starts + [p.offset], p.offset)
    else p
  }

  /** The reference: all rows of a source, header row included. */
  function Rows(d: Delimiter, bytes: seq<byte>): seq<Row> {
    PlainEnd(PlainBytes(d, Fresh(0), bytes)).rows
  }

  lemma {:induction false} PlainConcat(d: Delimiter, p: Plain, a: seq<byte>, b: seq<byte>)
    ensures PlainBytes(d, p, a + b) == PlainBytes(d, PlainBytes(d, p, a), b)
    decreases |a|
  {
    if a == [] {
      assert a + b == b;
    } else {
      assert (a + b)[1..] == a[1..] + b;
      PlainConcat(d, PlainByte(d, p, a[0]), a[1..], b);
    }
  }

  predicate PlainOk(p: Plain) {
    && |p.starts| == |p.rows| + 1
    && (AtRecordStart(p.reader) ==> p.text == [] && p.fields == [])
    && (forall i :: 0 <= i < |p.rows| ==> p.rows[i] != [])
    && (forall i :: 0 <= i < |p.starts| ==> p.starts[i] <= p.offset)
    && p.reader != End
  }

  lemma {:induction false} PlainStaysOk(d: Delimiter, p: Plain, bytes: seq<byte>)
    requires PlainOk(p)
    ensures var q := PlainBytes(d, p, bytes);
            PlainOk(q) && p.rows <= q.rows && p.starts <= q.starts && q.offset == p.offset + |bytes|
    decreases |bytes|
  {
    if bytes != [] {
      PlainStaysOk(d, PlainByte(d, p, bytes[0]), bytes[1..]);
    }
  }

  /** The parses agree but for the rows that `p` had before and the offsets. */
  predicate SameTail(p: Plain, q: Plain, before: seq<Row>) {
    && (p.reader == q.reader || (AtRecordStart(p.reader) && AtRecordStart(q.reader)))
    && p.text == q.text && p.fields == q.fields && p.rows == before + q.rows
  }

  /**
   After a record end the automaton behaves like a fresh one on the remaining bytes, also when
   the record ended in a CR whose LF is still to come.
   */
  lemma {:induction false} TailIsFresh(d: Delimiter, p: Plain, q: Plain, before: seq<Row>, bytes: seq<byte>)
    requires SameTail(p, q, before)
    ensures SameTail(PlainBytes(d, p, bytes), PlainBytes(d, q, bytes), before)
    decreases |bytes|
  {
    if bytes != [] {
      var p', q' := PlainByte(d, p, bytes[0]), PlainByte(d, q, bytes[0]);
      assert before + q.rows + [q.fields + [q.text]] == before + (q.rows + [q.fields + [q.text]]);
      assert SameTail(p', q', before);
      TailIsFresh(d, p', q', before, bytes[1..]);
    }
  }

  /** What the statement below says of one row start. */
  predicate Boundary(d: Delimiter, p: Plain, bytes: seq<byte>, i: nat, start: nat) {
    && p.offset < start <= p.offset + |bytes|
    && var mid := PlainBytes(d, p, bytes[..start - p.offset]);
       PlainOk(mid) && AtRecordStart(mid.reader) && |mid.rows| == i && mid.starts[i] == start == mid.offset
  }

  lemma {:induction false} StartsAreBoundaries(d: Delimiter, p: Plain, bytes: seq<byte>, i: nat)
    requires PlainOk(p) && |p.starts| <= i < |PlainBytes(d, p, bytes).starts|
    ensures Boundary(d, p, bytes, i, PlainBytes(d, p, bytes).starts[i])
    decreases |bytes|
  {
    hide PlainByte, PlainOk, Boundary;
    if bytes != [] {
      var p' := PlainByte(d, p, bytes[0]);
      PlainByteOk(d, p, bytes[0]);
      PlainStaysOk(d, p', bytes[1..]);
      if i < |p'.starts| {
        FirstBoundary(d, p, bytes, i);
      } else {
        StartsAreBoundaries(d, p', bytes[1..], i);
        LaterBoundary(d, p, bytes, i, PlainBytes(d, p, bytes).starts[i]);
      }
    }
  }

  lemma PlainByteOk(d: Delimiter, p: Plain, b: byte)
    requires PlainOk(p)
    ensures var q := PlainByte(d, p, b); PlainOk(q) && p.starts <= q.starts && q.offset == p.offset + 1
  {
    hide Next;
    NextGoesOn(d, p.reader, b);
  }

  lemma NextGoesOn(d: Delimiter, s: ReaderState, b: byte)
    requires s != End
    ensures var (next, _) := Next(d, s, b); next != End && (next == StartRecord ==> AtRecordStart(s) && IsTerminator(b) && !Next(d, s, b).1)
  {
  }

  lemma FirstBoundary(d: Delimiter, p: Plain, bytes: seq<byte>, i: nat)
    requires PlainOk(p) && bytes != [] && |p.starts| <= i < |PlainByte(d, p, bytes[0]).starts|
    ensures Boundary(d, p, bytes, i, PlainByte(d, p, bytes[0]).starts[i])
  {
    var p' := PlainByte(d, p, bytes[0]);
    PlainByteOk(d, p, bytes[0]);
    assert bytes[..1] == [bytes[0]] && [bytes[0]][1..] == [];
    hide Next;
    assert PlainBytes(d, p, [bytes[0]]) == p' by { assert PlainBytes(d, p', []) == p'; }
  }

  lemma LaterBoundary(d: Delimiter, p: Plain, bytes: seq<byte>, i: nat, start: nat)
    requires bytes != [] && PlainByte(d, p, bytes[0]).offset == p.offset + 1
    requires Boundary(d, PlainByte(d, p, bytes[0]), bytes[1..], i, start)
    ensures Boundary(d, p, bytes, i, start)
  {
    hide PlainByte, PlainOk;
    assert bytes[..start - p.offset][1..] == bytes[1..][..start - p.offset - 1];
  }

  /**
   A fresh parse of the source from the start of row `i` yields exactly the rows from `i` on.
   This is what makes a checkpoint usable.
   */
  lemma RowsFromStart(d: Delimiter, bytes: seq<byte>, from: nat, i: nat)
    requires from <= |bytes|
    requires var p := PlainBytes(d, Fresh(from), bytes[from..]); i < |p.starts|
    ensures var p := PlainBytes(d, Fresh(from), bytes[from..]);
            && from <= p.starts[i] <= |bytes|
            && var q := PlainBytes(d, Fresh(p.starts[i]), bytes[p.starts[i]..]);
               && i <= |p.rows| && p.rows[i..] == q.rows
               && i <= |PlainEnd(p).rows| && PlainEnd(p).rows[i..] == PlainEnd(q).rows
  {
    hide PlainByte, PlainBytes;
    var tail := bytes[from..];
    var p := PlainBytes(d, Fresh(from), tail);
    PlainStaysOk(d, Fresh(from), tail);
    var start := p.starts[i];
    if i == 0 {
      assert start == from;
      assert p.rows[0..] == p.rows && PlainEnd(p).rows[0..] == PlainEnd(p).rows;
    } else {
      StartsAreBoundaries(d, Fresh(from), tail, i);
      var a, b := tail[..start - from], bytes[start..];
      assert tail == a + b;
      PlainConcat(d, Fresh(from), a, b);
      var mid := PlainBytes(d, Fresh(from), a);
      assert mid.rows == mid.rows + Fresh(start).rows;
      TailIsFresh(d, mid, Fresh(start), mid.rows, b);
      assert p == PlainBytes(d, mid, b);
    }
  }

  // ---------------------------------------------------------------- writing and reading back

  function Doubled(text: seq<byte>): seq<byte> {
    if text == [] then [] else (if text[0] == QUOTE then [QUOTE, QUOTE] else [text[0]]) + Doubled(text[1..])
  }

  function WriteField(text: seq<byte>): seq<byte> {
    [QUOTE] + Doubled(text) + [QUOTE]
  }

  /** The fields of one row, each followed by the delimiter or, at the end, by CRLF. */
  function WriteFields(d: Delimiter, fields: Row): seq<byte> {
    if fields == [] then []
    else WriteField(fields[0]) + (if |fields| == 1 then [CR, LF] else [d]) + WriteFields(d, fields[1..])
  }

  function WriteRows(d: Delimiter, rows: seq<Row>): seq<byte> {
    if rows == [] then [] else WriteFields(d, rows[0]) + WriteRows(d, rows[1..])
  }

  lemma {:induction false} ReadsDoubled(d: Delimiter, p: Plain, text: seq<byte>)
    requires p.reader == InQuotedField
    ensures PlainBytes(d, p, Doubled(text)) == p.(text := p.text + text, offset := p.offset + |Doubled(text)|)
    decreases |text|
  {
    if text == [] {
      assert p.text + [] == p.text;
    } else {
      var head := if text[0] == QUOTE then [QUOTE, QUOTE] else [text[0]];
      PlainConcat(d, p, head, Doubled(text[1..]));
      var q := PlainBytes(d, p, head);
      assert q == p.(text := p.text + [text[0]], offset := p.offset + |head|) by {
        if text[0] == QUOTE {
          var r := PlainByte(d, p, QUOTE);
          assert r == p.(reader := AfterQuote, offset := p.offset + 1) by { assert p.text + [] == p.text; }
          assert head[1..] == [QUOTE] && [QUOTE][1..] == [];
          assert PlainBytes(d, r, [QUOTE]) == PlainBytes(d, PlainByte(d, r, QUOTE), []);
        } else {
          assert head[1..] == [];
        }
      }
      ReadsDoubled(d, q, text[1..]);
      assert p.text + [text[0]] + text[1..] == p.text + text;
    }
  }

  lemma ReadsField(d: Delimiter, p: Plain, text: seq<byte>)
    requires (AtRecordStart(p.reader) || p.reader == EndFieldDelim) && p.text == []
    ensures PlainBytes(d, p, WriteField(text)) == p.(reader := AfterQuote, text := text, offset := p.offset + |WriteField(text)|)
  {
    var open := PlainByte(d, p, QUOTE);
    assert open == p.(reader := InQuotedField, offset := p.offset + 1) by { assert p.text + [] == p.text; }
    var body := Doubled(text) + [QUOTE];
    assert WriteField(text) == [QUOTE] + body;
    assert ([QUOTE] + body)[1..] == body;
    assert PlainBytes(d, p, [QUOTE] + body) == PlainBytes(d, open, body);
    PlainConcat(d, open, Doubled(text), [QUOTE]);
    ReadsDoubled(d, open, text);
    var mid := PlainBytes(d, open, Doubled(text));
    assert [] + text == text && [QUOTE][1..] == [];
    assert PlainBytes(d, mid, [QUOTE]) == PlainBytes(d, PlainByte(d, mid, QUOTE), []);
    assert mid.text + [] == mid.text;
  }

  lemma ReadsLineEnd(d: Delimiter, p: Plain)
    requires p.reader == AfterQuote
    ensures PlainBytes(d, p, [CR, LF]) ==
            Plain(StartRecord, [], [], p.rows + [p.fields + [p.text]], p.starts + [p.offset + 1], p.offset + 2)
  {
    assert p.text + [] == p.text;
    assert ValidDelimiter(d);
    assert Next(d, p.reader, CR) == (Crlf, false);
    var q := PlainByte(d, p, CR);
    assert q == Plain(Crlf, [], [], p.rows + [p.fields + [p.text]], p.starts + [p.offset + 1], p.offset + 1);
    assert [CR, LF][1..] == [LF] && [LF][1..] == [];
    assert PlainBytes(d, q, [LF]) == PlainBytes(d, PlainByte(d, q, LF), []);
  }

  lemma ReadsDelimiter(d: Delimiter, p: Plain)
    requires p.reader == AfterQuote
    ensures PlainBytes(d, p, [d]) ==
            Plain(EndFieldDelim, [], p.fields + [p.text], p.rows, p.starts, p.offset + 1)
  {
    assert p.text + [] == p.text;
    assert ValidDelimiter(d) && Next(d, p.reader, d) == (EndFieldDelim, false);
    assert [d][1..] == [];
    assert PlainBytes(d, p, [d]) == PlainBytes(d, PlainByte(d, p, d), []);
  }

  lemma {:induction false} ReadsFields(d: Delimiter, p: Plain, fields: Row)
    requires fields != [] && p.text == []
    requires if p.fields == [] then AtRecordStart(p.reader) else p.reader == EndFieldDelim
    ensures var q := PlainBytes(d, p, WriteFields(d, fields));
            q.reader == StartRecord && q.text == [] && q.fields == [] && q.rows == p.rows + [p.fields + fields]
    decreases |fields|
  {
    hide PlainByte, PlainBytes, WriteField;
    var field := WriteField(fields[0]);
    var end := if |fields| == 1 then [CR, LF] else [d];
    var rest := WriteFields(d, fields[1..]);
    assert WriteFields(d, fields) == field + (end + rest);
    PlainConcat(d, p, field, end + rest);
    ReadsField(d, p, fields[0]);
    var q := PlainBytes(d, p, field);
    PlainConcat(d, q, end, rest);
    if |fields| == 1 {
      ReadsLineEnd(d, q);
      assert fields == [fields[0]] && rest == [] && end + rest == end;
    } else {
      ReadsDelimiter(d, q);
      var r := PlainBytes(d, q, end);
      ReadsFields(d, r, fields[1..]);
      assert p.fields + [fields[0]] + fields[1..] == p.fields + fields;
    }
  }

  lemma {:induction false} ReadsRows(d: Delimiter, p: Plain, rows: seq<Row>)
    requires forall i :: 0 <= i < |rows| ==> rows[i] != []
    requires AtRecordStart(p.reader) && p.text == [] && p.fields == []
    ensures var q := PlainBytes(d, p, WriteRows(d, rows));
            AtRecordStart(q.reader) && q.rows == p.rows + rows
    decreases |rows|
  {
    if rows != [] {
      PlainConcat(d, p, WriteFields(d, rows[0]), WriteRows(d, rows[1..]));
      ReadsFields(d, p, rows[0]);
      var q := PlainBytes(d, p, WriteFields(d, rows[0]));
      ReadsRows(d, q, rows[1..]);
      assert p.rows + [[] + rows[0]] + rows[1..] == p.rows + rows by { assert [] + rows[0] == rows[0]; }
    }
  }

  /** Whatever the fields contain, a fully quoted file reads back as the rows it was written from. */
  lemma WrittenFileReadsBack(d: Delimiter, rows: seq<Row>)
    requires forall i :: 0 <= i < |rows| ==> rows[i] != []
    ensures Rows(d, WriteRows(d, rows)) == rows
  {
    ReadsRows(d, Fresh(0), rows);
  }

  lemma WrittenBegins(d: Delimiter, rows: seq<Row>)
    requires rows != [] && rows[0] != []
    ensures WriteRows(d, rows) != [] && WriteRows(d, rows)[0] == QUOTE
  {
  }
}
