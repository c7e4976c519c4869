/**
 The sparse index that `CsvScanner` builds, as a function of the bytes it has parsed.

 `ScanByte` follows the scanner byte by byte.  `Summary` says what the index has to be, given
 the plain whole-file parse of the same bytes, and `Admits` says which parses are accepted.
 */
module CsvScan {
  import opened Common
  import opened CsvReader

  type Text = seq<byte>

  /** `validText` and `decode` stand for UTF-8 validation and lossy decoding. */
  datatype Options = Options(
    delimiter: Delimiter, header: bool, strict: bool, interval: nat,
    maxFieldBytes: nat, maxColumns: nat, maxCells: nat, maxBatchBytes: nat, maxDiagnostics: nat,
    validText: Text -> bool, decode: Text -> Text)
  {
    predicate Valid() {
      interval > 0 && maxFieldBytes > 0 && maxColumns > 0 && maxCells > 0 && maxBatchBytes > 0
    }

    function Decoded(text: Text): Text {
      if validText(text) then text else decode(text)
    }
  }

  datatype DiagnosticKind = RaggedRow | InvalidText | MalformedQuote

  datatype Diagnostic = Diagnostic(kind: DiagnosticKind, row: Option<nat>, offset: nat)

  /** A column is named by its header cell or by its one-based position. */
  datatype Name = Given(text: Text) | Numbered(position: nat)

  datatype Checkpoint = Checkpoint(row: nat, offset: nat)

  datatype Scan = Scan(
    reader: ReaderState, text: Text, offset: nat, recordStart: nat, fieldCount: nat,
    headerNames: seq<Text>, headerPending: bool, rows: nat, columns: seq<Name>, schemaVersion: nat,
    checkpoints: seq<Checkpoint>, issues: seq<Diagnostic>)

  function StartScan(o: Options, offset: nat): Scan {
    Scan(StartRecord, [], offset, offset, 0, [], o.header, 0, [], 0, [], [])
  }

  // ---------------------------------------------------------------- the scanner, byte by byte

  function Report(o: Options, s: Scan, d: Diagnostic): (r: Result<Scan>)
    ensures r.Ok? ==> r.value == s.(issues := s.issues + [d])
  {
    if o.strict then Err(ParseFailed) else Ok(s.(issues := s.issues + [d]))
  }

  /** `finish_field`. */
  function FinishField(o: Options, s: Scan): (r: Result<Scan>)
    ensures r.Ok? ==> s.issues <= r.value.issues
    ensures r.Ok? ==> r.value.reader == s.reader && r.value.offset == s.offset && r.value.text == []
  {
    if s.fieldCount + 1 > o.maxColumns then Err(ResourceLimit)
    else
      var counted := s.(fieldCount := s.fieldCount + 1);
      var reported :- if o.validText(s.text) then Ok(counted)
                      else Report(o, counted, Diagnostic(InvalidText, if s.headerPending then None else Some(s.rows), s.recordStart));
      Ok(if s.headerPending then reported.(text := [], headerNames := s.headerNames + [o.Decoded(s.text)])
         else reported.(text := []))
  }

  function NewName(index: nat, names: seq<Text>): Name {
    if index < |names| && names[index] != [] then Given(names[index]) else Numbered(index + 1)
  }

  function NewNames(first: nat, count: nat, names: seq<Text>): (r: seq<Name>)
    ensures |r| == count && forall i :: 0 <= i < count ==> r[i] == NewName(first + i, names)
  {
    seq(count, i requires 0 <= i => NewName(first + i, names))
  }

  /** `ensure_columns`: never shrinks, and raises the schema version when it grows. */
  function EnsureColumns(o: Options, s: Scan, count: nat, names: seq<Text>): Result<Scan> {
    if count > o.maxColumns then Err(ResourceLimit)
    else if count <= |s.columns| then Ok(s)
    else
      Ok(s.(columns := s.columns + NewNames(|s.columns|, count - |s.columns|, names),
            schemaVersion := s.schemaVersion + 1))
  }

  /** `finish_record` for the header row. */
  function NameColumns(o: Options, s: Scan): (r: Result<Scan>)
    ensures r.Ok? ==> s.issues <= r.value.issues
  {
    var named :- EnsureColumns(o, s, s.fieldCount, s.headerNames);
    Ok(named.(headerPending := false, headerNames := []))
  }

  /** `finish_record` for a data row. */
  function IndexRow(o: Options, s: Scan): (r: Result<Scan>)
    requires o.Valid()
    ensures r.Ok? ==> s.issues <= r.value.issues
  {
    var indexed := if s.rows % o.interval == 0
                   then s.(checkpoints := s.checkpoints + [Checkpoint(s.rows, s.recordStart)]) else s;
    var widened :- WidenFor(o, indexed);
    Ok(widened.(rows := s.rows + 1))
  }

  function WidenFor(o: Options, s: Scan): (r: Result<Scan>)
    ensures r.Ok? ==> s.issues <= r.value.issues
  {
    if s.columns == [] then EnsureColumns(o, s, s.fieldCount, [])
    else if s.fieldCount == |s.columns| then Ok(s)
    else
      var reported :- Report(o, s, Diagnostic(RaggedRow, Some(s.rows), s.recordStart));
      if s.fieldCount > |s.columns| then EnsureColumns(o, reported, s.fieldCount, []) else Ok(reported)
  }

  function FinishRecord(o: Options, s: Scan): (r: Result<Scan>)
    requires o.Valid()
    ensures r.Ok? ==> s.issues <= r.value.issues
    ensures r.Ok? ==> r.value.reader == s.reader && r.value.offset == s.offset && r.value.text == s.text
  {
    var next :- if s.headerPending then NameColumns(o, s) else IndexRow(o, s);
    Ok(next.(fieldCount := 0, recordStart := s.offset))
  }

  function ScanByte(o: Options, s: Scan, b: byte): (r: Result<Scan>)
    requires o.Valid()
    ensures r.Ok? ==> s.issues <= r.value.issues && r.value.offset == s.offset + 1
  {
    var (next, copied) := Next(o.delimiter, s.reader, b);
    if copied && |s.text| + 1 > o.maxFieldBytes then Err(ResourceLimit)
    else
      var read := s.(reader := next, text := s.text + if copied then [b] else [], offset := s.offset + 1);
      if !EndsField(next) then Ok(read)
      else
        var field :- FinishField(o, read);
        if EndsRecord(next) then FinishRecord(o, field) else Ok(field)
  }

  function ScanBytes(o: Options, s: Scan, bytes: seq<byte>): (r: Result<Scan>)
    requires o.Valid()
    ensures r.Ok? ==> s.issues <= r.value.issues && r.value.offset == s.offset + |bytes|
    decreases |bytes|
  {
    if bytes == [] then Ok(s)
    else
      var next :- ScanByte(o, s, bytes[0]);
      ScanBytes(o, next, bytes[1..])
  }

  /** The reader's part of `finish`: an open record is closed. */
  function ScanEnd(o: Options, s: Scan): (r: Result<Scan>)
    requires o.Valid()
    ensures r.Ok? ==> s.issues <= r.value.issues
  {
    if OpenAtEnd(s.reader) then
      var field :- FinishField(o, s.(reader := EndRecord));
      FinishRecord(o, field)
    else Ok(s)
  }

  // ---------------------------------------------------------------- what the index must be

  function DataRows(o: Options, rows: seq<Row>): nat {
    if o.header && rows != [] then |rows| - 1 else |rows|
  }

  /** The widest row; the header row counts. */
  function Width(rows: seq<Row>): nat {
    if rows == [] then 0 else Max(Width(rows[..|rows| - 1]), |rows[|rows| - 1]|)
  }

  /** How many rows were wider than all rows before them. */
  function Widenings(rows: seq<Row>): nat {
    if rows == [] then 0
    else Widenings(rows[..|rows| - 1]) + if |rows[|rows| - 1]| > Width(rows[..|rows| - 1]) then 1 else 0
  }

  function ColumnName(o: Options, rows: seq<Row>, index: nat): Name {
    if o.header && rows != [] && index < |rows[0]| && o.Decoded(rows[0][index]) != [] then Given(o.Decoded(rows[0][index]))
    else Numbered(index + 1)
  }

  function Columns(o: Options, rows: seq<Row>): seq<Name> {
    seq(Width(rows), i requires 0 <= i => ColumnName(o, rows, i))
  }

  /** The index into the plain rows of data row `row`. */
  function PlainIndex(o: Options, row: nat): nat {
    if o.header then row + 1 else row
  }

  /** One checkpoint at every multiple of the interval below the number of data rows. */
  function CheckpointCount(o: Options, rows: nat): nat
    requires o.Valid()
  {
    (rows + o.interval - 1) / o.interval
  }

  function RowNumber(o: Options, index: nat): Option<nat> {
    if !o.header then Some(index) else if index == 0 then None else Some(index - 1)
  }

  function TextIssues(o: Options, fields: Row, row: Option<nat>, start: nat): seq<Diagnostic> {
    if fields == [] then []
    else
      TextIssues(o, fields[..|fields| - 1], row, start)
      + if o.validText(fields[|fields| - 1]) then [] else [Diagnostic(InvalidText, row, start)]
  }

  function RaggedIssue(o: Options, before: seq<Row>, row: Row, start: nat): seq<Diagnostic> {
    if before != [] && |row| != Width(before) then [Diagnostic(RaggedRow, RowNumber(o, |before|), start)] else []
  }

  function RowIssues(o: Options, rows: seq<Row>, starts: seq<nat>): seq<Diagnostic>
    requires |rows| <= |starts|
  {
    if rows == [] then []
    else
      var before, last, start := rows[..|rows| - 1], rows[|rows| - 1], starts[|rows| - 1];
      RowIssues(o, before, starts) + TextIssues(o, last, RowNumber(o, |before|), start) + RaggedIssue(o, before, last, start)
  }

  function Issues(o: Options, p: Plain): seq<Diagnostic>
    requires PlainOk(p)
  {
    RowIssues(o, p.rows, p.starts) + TextIssues(o, p.fields, RowNumber(o, |p.rows|), p.starts[|p.rows|])
  }

  predicate RowFits(o: Options, row: Row) {
    |row| <= o.maxColumns && forall i :: 0 <= i < |row| ==> |row[i]| <= o.maxFieldBytes
  }

  /** The parses the scanner accepts: within the limits and, in strict mode, without an issue. */
  predicate Admits(o: Options, p: Plain)
    requires PlainOk(p)
  {
    && |p.text| <= o.maxFieldBytes && RowFits(o, p.fields)
    && (forall i :: 0 <= i < |p.rows| ==> RowFits(o, p.rows[i]))
    && (o.strict ==> Issues(o, p) == [])
  }

  function Checkpoints(o: Options, p: Plain): seq<Checkpoint>
    requires o.Valid() && PlainOk(p)
  {
    CheckpointsInRange(o, DataRows(o, p.rows));
    seq(CheckpointCount(o, DataRows(o, p.rows)), i requires 0 <= i < CheckpointCount(o, DataRows(o, p.rows)) =>
      var row: nat := i * o.interval;
      assert row < DataRows(o, p.rows);
      Checkpoint(row, p.starts[PlainIndex(o, row)]))
  }

  lemma CheckpointsInRange(o: Options, rows: nat)
    requires o.Valid()
    ensures forall i: nat :: i < CheckpointCount(o, rows) <==> i * o.interval < rows
  {
    var k := o.interval;
    var q := (rows + k - 1) / k;
    assert q * k <= rows + k - 1 < q * k + k;
    forall i: nat ensures i < q <==> i * k < rows {
      if i < q {
        ScaledOrder(i + 1, q, k);
      } else {
        ScaledOrder(q, i, k);
      }
    }
  }

  function HeaderNames(o: Options, fields: Row): seq<Text> {
    seq(|fields|, i requires 0 <= i < |fields| => o.Decoded(fields[i]))
  }

  /** The whole scanner state, given the plain parse of the bytes scanned so far. */
  function Summary(o: Options, p: Plain): Scan
    requires o.Valid() && PlainOk(p)
  {
    var pending := o.header && p.rows == [];
    Scan(p.reader, p.text, p.offset, p.starts[|p.rows|], |p.fields|,
         if pending then HeaderNames(o, p.fields) else [], pending,
         DataRows(o, p.rows), Columns(o, p.rows), Widenings(p.rows), Checkpoints(o, p), Issues(o, p))
  }

  // ---------------------------------------------------------------- the scanner builds that index

  /** The parse with the open text ended as a field. */
  function WithField(p: Plain): Plain {
    p.(reader := EndFieldDelim, fields := p.fields + [p.text], text := [])
  }

  /** The parse with its open row, which has a field, closed. */
  function WithRow(p: Plain): Plain {
    p.(reader := EndRecord, fields := [], rows := p.rows + [p.fields], starts := p.starts + [p.offset])
  }

  /** Either the next state is the summary of the next parse, or that parse is not admitted. */
  predicate Builds(o: Options, r: Result<Scan>, q: Plain, reader: ReaderState)
    requires o.Valid() && PlainOk(q)
  {
    if Admits(o, q) then r == Ok(Summary(o, q).(reader := reader))
    else r.Err? && (r.error == ResourceLimit || (o.strict && r.error == ParseFailed))
  }

  /** The issue that the open text adds when it ends as a field. */
  function NewIssue(o: Options, p: Plain): seq<Diagnostic>
    requires PlainOk(p)
  {
    if o.validText(p.text) then [] else [Diagnostic(InvalidText, RowNumber(o, |p.rows|), p.starts[|p.rows|])]
  }

  lemma AdmitsField(o: Options, p: Plain)
    requires PlainOk(p) && Admits(o, p)
    ensures PlainOk(WithField(p))
    ensures Issues(o, WithField(p)) == Issues(o, p) + NewIssue(o, p)
    ensures Admits(o, WithField(p)) <==> |p.fields| + 1 <= o.maxColumns && (o.strict ==> NewIssue(o, p) == [])
  {
    var q := WithField(p);
    assert q.fields[..|p.fields|] == p.fields;
    assert forall i :: 0 <= i < |p.fields| ==> q.fields[i] == p.fields[i];
    hide RowIssues;
    var row, start := RowNumber(o, |p.rows|), p.starts[|p.rows|];
    assert TextIssues(o, q.fields, row, start) == TextIssues(o, p.fields, row, start) + NewIssue(o, p);
    if |q.fields| <= o.maxColumns {
      assert forall i :: 0 <= i < |q.fields| ==> |q.fields[i]| <= o.maxFieldBytes;
    }
  }

  lemma FieldKeepsSummary(o: Options, p: Plain, reader: ReaderState)
    requires o.Valid() && PlainOk(p) && Admits(o, p)
    ensures PlainOk(WithField(p)) && Builds(o, FinishField(o, Summary(o, p).(reader := reader)), WithField(p), reader)
  {
    AdmitsField(o, p);
    hide Admits, Issues, Columns, Widenings;
    var q := WithField(p);
    assert Checkpoints(o, q) == Checkpoints(o, p);
    assert HeaderNames(o, q.fields) == HeaderNames(o, p.fields) + [o.Decoded(p.text)];
    assert Issues(o, p) + [] == Issues(o, p);
  }

  lemma {:induction false} RowIssuesPrefix(o: Options, rows: seq<Row>, starts: seq<nat>, more: seq<nat>)
    requires |rows| <= |starts|
    ensures RowIssues(o, rows, starts + more) == RowIssues(o, rows, starts)
    decreases |rows|
  {
    if rows != [] {
      RowIssuesPrefix(o, rows[..|rows| - 1], starts, more);
    }
  }

  lemma RowIssuesStep(o: Options, p: Plain)
    requires PlainOk(p) && p.fields != [] && p.text == []
    ensures PlainOk(WithRow(p))
    ensures Issues(o, WithRow(p)) == Issues(o, p) + RaggedIssue(o, p.rows, p.fields, p.starts[|p.rows|])
  {
    var q := WithRow(p);
    assert q.rows[..|p.rows|] == p.rows && q.rows[|p.rows|] == p.fields && q.starts[|p.rows|] == p.starts[|p.rows|];
    RowIssuesPrefix(o, p.rows, p.starts, [p.offset]);
    assert Issues(o, q) == RowIssues(o, q.rows, q.starts) + [];
  }

  lemma ColumnsStep(o: Options, before: seq<Row>, row: Row)
    requires row != []
    ensures var after, names := before + [row], if o.header && before == [] then HeaderNames(o, row) else [];
            && Width(after) == Max(Width(before), |row|)
            && Columns(o, after) == Columns(o, before)
                                    + NewNames(Width(before), Width(after) - Width(before), names)
            && Widenings(after) == Widenings(before) + if |row| > Width(before) then 1 else 0
  {
    var after, names := before + [row], if o.header && before == [] then HeaderNames(o, row) else [];
    assert after[..|before|] == before && after[|before|] == row;
    hide Width, Widenings, ColumnName, NewName;
    forall i: nat | i < Width(after)
      ensures ColumnName(o, after, i) == if i < Width(before) then ColumnName(o, before, i) else NewName(i, names)
    {
      ColumnNameStep(o, before, row, i);
    }
  }

  lemma ColumnNameStep(o: Options, before: seq<Row>, row: Row, i: nat)
    requires i < Max(Width(before), |row|)
    ensures var names := if o.header && before == [] then HeaderNames(o, row) else [];
            ColumnName(o, before + [row], i) == if i < Width(before) then ColumnName(o, before, i) else NewName(i, names)
  {
    if before != [] {
      FirstFits(before);
      assert (before + [row])[0] == before[0];
    }
  }

  lemma {:induction false} FirstFits(rows: seq<Row>)
    requires rows != []
    ensures |rows[0]| <= Width(rows)
    decreases |rows|
  {
    if |rows| > 1 {
      FirstFits(rows[..|rows| - 1]);
    }
  }

  lemma {:induction false} WidthBound(o: Options, rows: seq<Row>)
    requires forall i :: 0 <= i < |rows| ==> |rows[i]| <= o.maxColumns
    ensures Width(rows) <= o.maxColumns
    decreases |rows|
  {
    if rows != [] {
      WidthBound(o, rows[..|rows| - 1]);
    }
  }

  lemma CheckpointsStep(o: Options, p: Plain)
    requires o.Valid() && PlainOk(p) && p.fields != [] && p.text == []
    ensures PlainOk(WithRow(p))
    ensures var rows, pending := DataRows(o, p.rows), o.header && p.rows == [];
            Checkpoints(o, WithRow(p)) ==
            Checkpoints(o, p) + if !pending && rows % o.interval == 0 then [Checkpoint(rows, p.starts[|p.rows|])] else []
  {
    var q := WithRow(p);
    var rows := DataRows(o, p.rows);
    var c := CheckpointCount(o, rows);
    CheckpointsInRange(o, rows);
    if o.header && p.rows == [] {
      assert Checkpoints(o, q) == Checkpoints(o, p);
    } else {
      CheckpointCountStep(o, rows);
      CheckpointsInRange(o, rows + 1);
      assert DataRows(o, q.rows) == rows + 1;
      forall i: nat | i < c ensures Checkpoints(o, q)[i] == Checkpoints(o, p)[i] {
        assert i * o.interval < rows;
        assert q.starts[PlainIndex(o, i * o.interval)] == p.starts[PlainIndex(o, i * o.interval)];
      }
    }
  }

  lemma CheckpointCountStep(o: Options, rows: nat)
    requires o.Valid()
    ensures var c := CheckpointCount(o, rows);
            if rows % o.interval == 0 then CheckpointCount(o, rows + 1) == c + 1 && c * o.interval == rows
            else CheckpointCount(o, rows + 1) == c
  {
    var k := o.interval;
    var q, r := rows / k, rows % k;
    assert rows == q * k + r;
    if r == 0 {
      DivideExactly(rows + k - 1, k, q, k - 1);
      DivideExactly(rows + k, k, q + 1, 0);
    } else {
      DivideExactly(rows + k - 1, k, q + 1, r - 1);
      DivideExactly(rows + k, k, q + 1, r);
    }
  }

  lemma AdmitsRow(o: Options, p: Plain)
    requires PlainOk(p) && Admits(o, p) && p.fields != [] && p.text == []
    ensures PlainOk(WithRow(p))
    ensures Issues(o, WithRow(p)) == Issues(o, p) + RaggedIssue(o, p.rows, p.fields, p.starts[|p.rows|])
    ensures Admits(o, WithRow(p)) <==> (o.strict ==> RaggedIssue(o, p.rows, p.fields, p.starts[|p.rows|]) == [])
    ensures |p.fields| <= o.maxColumns && Width(p.rows) <= o.maxColumns
  {
    RowIssuesStep(o, p);
    WidthBound(o, p.rows);
    hide Issues, RaggedIssue;
    var q := WithRow(p);
    assert forall i :: 0 <= i < |p.rows| ==> q.rows[i] == p.rows[i];
  }

  lemma HeaderKeepsSummary(o: Options, p: Plain, reader: ReaderState)
    requires o.Valid() && PlainOk(p) && Admits(o, p) && p.fields != [] && p.text == []
    requires o.header && p.rows == []
    ensures PlainOk(WithRow(p)) && Builds(o, FinishRecord(o, Summary(o, p).(reader := reader)), WithRow(p), reader)
  {
    AdmitsRow(o, p);
    ColumnsStep(o, p.rows, p.fields);
    CheckpointsStep(o, p);
    hide Admits, Issues, Checkpoints;
    assert Issues(o, p) + [] == Issues(o, p) && Checkpoints(o, p) + [] == Checkpoints(o, p);
    assert Columns(o, p.rows) == [];
  }

  lemma DataKeepsSummary(o: Options, p: Plain, reader: ReaderState)
    requires o.Valid() && PlainOk(p) && Admits(o, p) && p.fields != [] && p.text == []
    requires !o.header || p.rows != []
    ensures PlainOk(WithRow(p)) && Builds(o, FinishRecord(o, Summary(o, p).(reader := reader)), WithRow(p), reader)
  {
    hide Admits, Issues, Columns, Checkpoints, Width, Widenings, CheckpointCount, WidenFor, RaggedIssue, FinishRecord;
    AdmitsRow(o, p);
    ColumnsStep(o, p.rows, p.fields);
    CheckpointsStep(o, p);
    ColumnsSize(o, p);
    assert Columns(o, p.rows) + [] == Columns(o, p.rows) && Checkpoints(o, p) + [] == Checkpoints(o, p);
    var s := Summary(o, p).(reader := reader);
    var indexed := s.(checkpoints := Checkpoints(o, WithRow(p)));
    FinishDataRow(o, s, indexed);
    WidenKeeps(o, indexed, p);
  }

  lemma ColumnsSize(o: Options, p: Plain)
    requires PlainOk(p)
    ensures |Columns(o, p.rows)| == Width(p.rows) && (Width(p.rows) == 0 <==> p.rows == [])
  {
    if p.rows != [] {
      FirstFits(p.rows);
    }
  }

  lemma FinishDataRow(o: Options, s: Scan, indexed: Scan)
    requires o.Valid() && !s.headerPending
    requires indexed == s.(checkpoints := s.checkpoints
                                          + if s.rows % o.interval == 0 then [Checkpoint(s.rows, s.recordStart)] else [])
    ensures var w := WidenFor(o, indexed);
            FinishRecord(o, s) == if w.Err? then w
                                  else Ok(w.value.(rows := s.rows + 1, fieldCount := 0, recordStart := s.offset))
  {
    hide WidenFor;
    assert s.checkpoints + [] == s.checkpoints;
  }

  /** What `WidenFor` does to the summary of a parse, whatever the other fields are. */
  lemma WidenKeeps(o: Options, s: Scan, p: Plain)
    requires PlainOk(p) && (!o.header || p.rows != [])
    requires s.columns == Columns(o, p.rows) && s.fieldCount == |p.fields| > 0
    requires |s.columns| == Width(p.rows) && (Width(p.rows) == 0 <==> p.rows == [])
    requires s.rows == DataRows(o, p.rows) && s.recordStart == p.starts[|p.rows|]
    requires |p.fields| <= o.maxColumns
    ensures var ragged := RaggedIssue(o, p.rows, p.fields, p.starts[|p.rows|]);
            var wider := |p.fields| > Width(p.rows);
            WidenFor(o, s) ==
            if o.strict && ragged != [] then Err(ParseFailed)
            else Ok(s.(issues := s.issues + ragged,
                       columns := if wider then s.columns + NewNames(Width(p.rows), |p.fields| - Width(p.rows), [])
                                  else s.columns,
                       schemaVersion := if wider then s.schemaVersion + 1 else s.schemaVersion))
  {
    hide Columns, Width, NewName;
    assert s.issues + [] == s.issues;
  }

  lemma RowKeepsSummary(o: Options, p: Plain, reader: ReaderState)
    requires o.Valid() && PlainOk(p) && Admits(o, p) && p.fields != [] && p.text == []
    ensures PlainOk(WithRow(p)) && Builds(o, FinishRecord(o, Summary(o, p).(reader := reader)), WithRow(p), reader)
  {
    if o.header && p.rows == [] {
      HeaderKeepsSummary(o, p, reader);
    } else {
      DataKeepsSummary(o, p, reader);
    }
  }

  /** The parse after a byte, before the byte's field or row end is acted on. */
  function Advanced(d: Delimiter, p: Plain, b: byte): Plain {
    var (next, copied) := Next(d, p.reader, b);
    p.(reader := if AtRecordStart(next) then EndFieldDelim else next,
       text := p.text + if copied then [b] else [], offset := p.offset + 1)
  }

  lemma PlainByteParts(d: Delimiter, p: Plain, b: byte)
    requires PlainOk(p)
    ensures var next, a := Next(d, p.reader, b).0, Advanced(d, p, b);
            && PlainOk(a) && PlainOk(PlainByte(d, p, b))
            && PlainByte(d, p, b).reader == next
            && PlainByte(d, p, b) == (if EndsRecord(next) then WithRow(WithField(a)).(reader := next)
                                      else if EndsField(next) then WithField(a)
                                      else a.(reader := next))
  {
    assert p.text + [] == p.text;
  }

  lemma AdmitsAdvanced(o: Options, p: Plain, b: byte, reader: ReaderState)
    requires PlainOk(p) && PlainOk(Advanced(o.delimiter, p, b).(reader := reader))
    ensures var a := Advanced(o.delimiter, p, b).(reader := reader);
            Admits(o, a) <==> Admits(o, p) && |a.text| <= o.maxFieldBytes
    ensures Issues(o, Advanced(o.delimiter, p, b).(reader := reader)) == Issues(o, p)
  {
    hide RowIssues, TextIssues;
  }

  lemma AdmitsMonotone(o: Options, p: Plain)
    requires PlainOk(p)
    ensures PlainOk(WithField(p)) && (Admits(o, WithField(p)) && |p.text| <= o.maxFieldBytes ==> Admits(o, p))
    ensures p.fields != [] && p.text == [] ==> PlainOk(WithRow(p)) && (Admits(o, WithRow(p)) ==> Admits(o, p))
  {
    var q := WithField(p);
    assert forall i :: 0 <= i < |p.fields| ==> q.fields[i] == p.fields[i];
    if Admits(o, q) && o.strict {
      IssuesOfField(o, p);
    }
    if p.fields != [] && p.text == [] {
      RowIssuesStep(o, p);
      var r := WithRow(p);
      assert r.rows[|p.rows|] == p.fields;
      assert forall i :: 0 <= i < |p.rows| ==> r.rows[i] == p.rows[i];
    }
  }

  lemma IssuesOfField(o: Options, p: Plain)
    requires PlainOk(p)
    ensures PlainOk(WithField(p)) && Issues(o, WithField(p)) == Issues(o, p) + NewIssue(o, p)
  {
    var q := WithField(p);
    assert q.fields[..|p.fields|] == p.fields;
    hide RowIssues;
    var row, start := RowNumber(o, |p.rows|), p.starts[|p.rows|];
    assert TextIssues(o, q.fields, row, start) == TextIssues(o, p.fields, row, start) + NewIssue(o, p);
  }

  lemma ByteKeepsSummary(o: Options, p: Plain, b: byte)
    requires o.Valid() && PlainOk(p) && Admits(o, p)
    ensures var q := PlainByte(o.delimiter, p, b);
            PlainOk(q) && Builds(o, ScanByte(o, Summary(o, p), b), q, q.reader)
  {
    if EndsField(Next(o.delimiter, p.reader, b).0) {
      EndingByteKeepsSummary(o, p, b);
    } else {
      InnerByteKeepsSummary(o, p, b);
    }
  }

  lemma InnerByteKeepsSummary(o: Options, p: Plain, b: byte)
    requires o.Valid() && PlainOk(p) && Admits(o, p)
    requires !EndsField(Next(o.delimiter, p.reader, b).0)
    ensures var q := PlainByte(o.delimiter, p, b);
            PlainOk(q) && Builds(o, ScanByte(o, Summary(o, p), b), q, q.reader)
  {
    hide Issues, Admits, Columns, Widenings, Checkpoints, FinishField, FinishRecord, PlainByte;
    PlainByteParts(o.delimiter, p, b);
    var next := Next(o.delimiter, p.reader, b).0;
    AdmitsAdvanced(o, p, b, next);
    AdvancedSummary(o, p, b, next);
    AdmittedText(o, p);
  }

  lemma AdmittedText(o: Options, p: Plain)
    requires PlainOk(p) && Admits(o, p)
    ensures |p.text| <= o.maxFieldBytes
  {
  }

  lemma EndingByteKeepsSummary(o: Options, p: Plain, b: byte)
    requires o.Valid() && PlainOk(p) && Admits(o, p)
    requires EndsField(Next(o.delimiter, p.reader, b).0)
    ensures var q := PlainByte(o.delimiter, p, b);
            PlainOk(q) && Builds(o, ScanByte(o, Summary(o, p), b), q, q.reader)
  {
    hide Issues, Admits, Columns, Widenings, Checkpoints, FinishField, FinishRecord, PlainByte;
    PlainByteParts(o.delimiter, p, b);
    var next, a := Next(o.delimiter, p.reader, b).0, Advanced(o.delimiter, p, b);
    AdmittedText(o, p);
    assert a.text == p.text by { assert p.text + [] == p.text; }
    AdmitsAdvanced(o, p, b, a.reader);
    AdvancedSummary(o, p, b, a.reader);
    EndsKeepSummary(o, a, next);
    ReaderIrrelevant(o, if EndsRecord(next) then WithRow(WithField(a)) else WithField(a), next);
    ScanEndingByte(o, Summary(o, p), b);
  }

  lemma ScanEndingByte(o: Options, s: Scan, b: byte)
    requires o.Valid() && EndsField(Next(o.delimiter, s.reader, b).0)
    ensures var next := Next(o.delimiter, s.reader, b).0;
            var field := FinishField(o, s.(reader := next, offset := s.offset + 1));
            ScanByte(o, s, b) == if field.Ok? && EndsRecord(next) then FinishRecord(o, field.value) else field
  {
    hide FinishField, FinishRecord;
    assert s.text + [] == s.text;
  }

  lemma ReaderIrrelevant(o: Options, p: Plain, reader: ReaderState)
    requires o.Valid() && PlainOk(p) && PlainOk(p.(reader := reader))
    ensures Admits(o, p.(reader := reader)) == Admits(o, p)
    ensures Summary(o, p.(reader := reader)) == Summary(o, p).(reader := reader)
  {
    var q := p.(reader := reader);
    hide RowIssues, TextIssues, CheckpointCount;
    assert Issues(o, q) == Issues(o, p) && Checkpoints(o, q) == Checkpoints(o, p);
  }

  lemma AdvancedSummary(o: Options, p: Plain, b: byte, reader: ReaderState)
    requires o.Valid() && PlainOk(p) && PlainOk(Advanced(o.delimiter, p, b).(reader := reader))
    ensures var a := Advanced(o.delimiter, p, b).(reader := reader);
            Summary(o, a) == Summary(o, p).(reader := reader, text := a.text, offset := a.offset)
  {
    var a := Advanced(o.delimiter, p, b).(reader := reader);
    hide RowIssues, TextIssues, CheckpointCount;
    assert Checkpoints(o, a) == Checkpoints(o, p);
  }

  /** Ending a field, and with it perhaps the row. */
  lemma EndsKeepSummary(o: Options, a: Plain, next: ReaderState)
    requires o.Valid() && PlainOk(a) && Admits(o, a) && EndsField(next)
    ensures PlainOk(WithField(a)) && PlainOk(WithRow(WithField(a)))
    ensures var field := FinishField(o, Summary(o, a).(reader := next));
            var q := if EndsRecord(next) then WithRow(WithField(a)) else WithField(a);
            var r := if field.Ok? && EndsRecord(next) then FinishRecord(o, field.value) else field;
            Builds(o, r, q, next)
  {
    hide Admits, Issues, FinishField, FinishRecord;
    FieldKeepsSummary(o, a, next);
    AdmitsMonotone(o, WithField(a));
    if EndsRecord(next) && Admits(o, WithField(a)) {
      RowKeepsSummary(o, WithField(a), next);
    }
  }

  lemma AdmitsBefore(o: Options, p: Plain, b: byte)
    requires o.Valid() && PlainOk(p)
    ensures var q := PlainByte(o.delimiter, p, b);
            PlainOk(q) && (Admits(o, q) ==> Admits(o, p))
  {
    hide Issues, PlainByte;
    PlainByteParts(o.delimiter, p, b);
    var next, a := Next(o.delimiter, p.reader, b).0, Advanced(o.delimiter, p, b);
    AdmitsAdvanced(o, p, b, a.reader);
    if EndsField(next) {
      AdmitsBeforeEnd(o, a, next);
    } else {
      AdmitsAdvanced(o, p, b, next);
    }
  }

  lemma AdmitsBeforeEnd(o: Options, a: Plain, next: ReaderState)
    requires o.Valid() && PlainOk(a) && EndsField(next)
    ensures PlainOk(WithField(a)) && PlainOk(WithRow(WithField(a)))
    ensures var q := if EndsRecord(next) then WithRow(WithField(a)).(reader := next) else WithField(a);
            PlainOk(q) && (Admits(o, q) ==> Admits(o, a))
  {
    hide Issues;
    var f := WithField(a);
    AdmitsMonotone(o, f);
    AdmitsMonotone(o, a);
    if EndsRecord(next) {
      ReaderIrrelevant(o, WithRow(f), next);
    }
    assert f.fields[|a.fields|] == a.text;
  }

  lemma {:induction false} AdmitsEarlier(o: Options, p: Plain, bytes: seq<byte>)
    requires o.Valid() && PlainOk(p)
    ensures var q := PlainBytes(o.delimiter, p, bytes); PlainOk(q) && (Admits(o, q) ==> Admits(o, p))
    decreases |bytes|
  {
    hide Admits;
    if bytes != [] {
      AdmitsBefore(o, p, bytes[0]);
      AdmitsEarlier(o, PlainByte(o.delimiter, p, bytes[0]), bytes[1..]);
    }
  }

  /** Scanning any further bytes accepts them exactly if their plain parse is admitted, and then builds its summary. */
  lemma {:induction false} ScanBuildsIndex(o: Options, p: Plain, bytes: seq<byte>)
    requires o.Valid() && PlainOk(p) && Admits(o, p)
    ensures var q := PlainBytes(o.delimiter, p, bytes);
            PlainOk(q) && Builds(o, ScanBytes(o, Summary(o, p), bytes), q, q.reader)
    decreases |bytes|
  {
    hide Admits, Summary, ScanByte, PlainByte;
    PlainStaysOk(o.delimiter, p, bytes);
    if bytes == [] {
      assert Summary(o, p).(reader := p.reader) == Summary(o, p) by { SummaryReader(o, p); }
    } else {
      ByteKeepsSummary(o, p, bytes[0]);
      var q := PlainByte(o.delimiter, p, bytes[0]);
      SummaryReader(o, q);
      if Admits(o, q) {
        ScanBuildsIndex(o, q, bytes[1..]);
      } else {
        AdmitsEarlier(o, q, bytes[1..]);
      }
    }
  }

  lemma SummaryReader(o: Options, p: Plain)
    requires o.Valid() && PlainOk(p)
    ensures Summary(o, p).reader == p.reader && Summary(o, p).(reader := p.reader) == Summary(o, p)
  {
  }

  lemma EndBuildsIndex(o: Options, p: Plain)
    requires o.Valid() && PlainOk(p) && Admits(o, p)
    ensures PlainOk(PlainEnd(p)) && Builds(o, ScanEnd(o, Summary(o, p)), PlainEnd(p), PlainEnd(p).reader)
  {
    if OpenAtEnd(p.reader) {
      EndsKeepSummary(o, p, EndRecord);
    }
  }

  lemma FreshSummary(o: Options, offset: nat)
    requires o.Valid()
    ensures PlainOk(Fresh(offset)) && Admits(o, Fresh(offset)) && Summary(o, Fresh(offset)) == StartScan(o, offset)
  {
    var p := Fresh(offset);
    assert CheckpointCount(o, 0) == 0 by { DivideExactly(o.interval - 1, o.interval, 0, o.interval - 1); }
    hide CheckpointCount;
  }
}
