/**
 Writing delimiter-separated text in every way that the reader allows, and reading it back: fields
 quoted or bare, rows ended by LF, CR or CRLF, the last row ended or not (`build_reader` in
 `src/csv.rs`, section 2 of RFC 4180).
 */
module CsvText {
  import opened Common
  import opened CsvReader

  /** A field and whether it is written in quotes. */
  datatype Written = Written(text: seq<byte>, quoted: bool)

  /** Without quotes a field holds no delimiter and no line end, and does not begin with a quote; quotes further on stand for themselves. */
  predicate Bare(d: Delimiter, text: seq<byte>) {
    (text != [] ==> text[0] != QUOTE) && forall i :: 0 <= i < |text| ==> text[i] != d && !IsTerminator(text[i])
  }

  datatype Line = Line(fields: seq<Written>, ending: seq<byte>)

  predicate FieldsOk(d: Delimiter, fields: seq<Written>) {
    && fields != [] && (forall i :: 0 <= i < |fields| ==> fields[i].quoted || Bare(d, fields[i].text))
    && fields != [Written([], false)]
  }

  /** A line that is not blank, with one of the three line ends. */
  predicate LineOk(d: Delimiter, l: Line) {
    FieldsOk(d, l.fields) && (l.ending == [LF] || l.ending == [CR] || l.ending == [CR, LF])
  }

  function WriteOne(w: Written): seq<byte> {
    if w.quoted then WriteField(w.text) else w.text
  }

  function WriteFieldsOf(d: Delimiter, fields: seq<Written>): seq<byte>
    requires fields != []
  {
    WriteOne(fields[0]) + if |fields| == 1 then [] else [d] + WriteFieldsOf(d, fields[1..])
  }

  function WriteLines(d: Delimiter, lines: seq<Line>): seq<byte>
    requires forall i :: 0 <= i < |lines| ==> LineOk(d, lines[i])
  {
    if lines == [] then []
    else
      assert LineOk(d, lines[0]);
      WriteFieldsOf(d, lines[0].fields) + lines[0].ending + WriteLines(d, lines[1..])
  }

  function Texts(fields: seq<Written>): (r: Row)
    ensures |r| == |fields|
  {
    seq(|fields|, i requires 0 <= i < |fields| => fields[i].text)
  }

  function RowsOf(lines: seq<Line>): (r: seq<Row>)
    ensures |r| == |lines|
  {
    seq(|lines|, i requires 0 <= i < |lines| => Texts(lines[i].fields))
  }

  // ---------------------------------------------------------------- reading

  /** A parse between two fields. */
  predicate BeforeField(p: Plain) {
    (AtRecordStart(p.reader) || p.reader == EndFieldDelim) && p.text == []
  }

  /** A parse in which a field is complete but not yet ended. */
  predicate HasField(p: Plain, fields: Row, rows: seq<Row>, text: seq<byte>) {
    p.fields == fields && p.rows == rows && p.text == text && p.reader != InQuotedField && p.reader != End
  }

  lemma {:induction false} ReadsBareRest(d: Delimiter, p: Plain, text: seq<byte>)
    requires p.reader == InField && forall i :: 0 <= i < |text| ==> text[i] != d && !IsTerminator(text[i])
    ensures PlainBytes(d, p, text) == p.(text := p.text + text, offset := p.offset + |text|)
    decreases |text|
  {
    if text == [] {
      assert p.text + [] == p.text;
    } else {
      ReadsBareRest(d, PlainByte(d, p, text[0]), text[1..]);
      assert p.text + [text[0]] + text[1..] == p.text + text;
    }
  }

  lemma ReadsOne(d: Delimiter, p: Plain, w: Written)
    requires BeforeField(p) && (w.quoted || Bare(d, w.text))
    ensures var q := PlainBytes(d, p, WriteOne(w));
            HasField(q, p.fields, p.rows, w.text) && (AtRecordStart(q.reader) ==> !w.quoted && w.text == [] && q.reader == p.reader)
  {
    if w.quoted {
      ReadsField(d, p, w.text);
    } else if w.text != [] {
      assert Next(d, p.reader, w.text[0]) == (InField, true);
      var q := PlainByte(d, p, w.text[0]);
      assert q == p.(reader := InField, text := [w.text[0]], offset := p.offset + 1) by { assert [] + [w.text[0]] == [w.text[0]]; }
      ReadsBareRest(d, q, w.text[1..]);
      assert [w.text[0]] + w.text[1..] == w.text;
    } else {
      assert PlainBytes(d, p, []) == p;
    }
  }

  lemma ReadsNextDelimiter(d: Delimiter, p: Plain, fields: Row, rows: seq<Row>, text: seq<byte>)
    requires HasField(p, fields, rows, text)
    ensures var q := PlainBytes(d, p, [d]); q.reader == EndFieldDelim && q.text == [] && q.fields == fields + [text] && q.rows == rows
  {
    assert ValidDelimiter(d) && Next(d, p.reader, d) == (EndFieldDelim, false);
    assert [d][1..] == [] && p.text + [] == p.text;
    assert PlainBytes(d, p, [d]) == PlainBytes(d, PlainByte(d, p, d), []);
  }

  lemma ReadsEnding(d: Delimiter, p: Plain, fields: Row, rows: seq<Row>, text: seq<byte>, ending: seq<byte>)
    requires HasField(p, fields, rows, text) && !AtRecordStart(p.reader)
    requires ending == [LF] || ending == [CR] || ending == [CR, LF]
    ensures var q := PlainBytes(d, p, ending);
            AtRecordStart(q.reader) && q.text == [] && q.fields == [] && q.rows == rows + [fields + [text]]
  {
    assert ValidDelimiter(d) && p.text + [] == p.text;
    var q := PlainByte(d, p, ending[0]);
    assert AtRecordStart(q.reader) && q.text == [] && q.fields == [] && q.rows == rows + [fields + [text]];
    assert PlainBytes(d, p, ending) == PlainBytes(d, q, ending[1..]);
    if ending == [CR, LF] {
      assert ending[1..] == [LF] && [LF][1..] == [];
      assert PlainBytes(d, q, [LF]) == PlainBytes(d, PlainByte(d, q, LF), []);
    } else {
      assert ending[1..] == [] && PlainBytes(d, q, []) == q;
    }
  }

  /** A blank line, and the LF of a CRLF, is no row. */
  lemma {:induction false} BlankLinesAreSkipped(d: Delimiter, p: Plain, ends: seq<byte>)
    requires AtRecordStart(p.reader) && p.text == [] && p.fields == [] && forall i :: 0 <= i < |ends| ==> IsTerminator(ends[i])
    ensures var q := PlainBytes(d, p, ends);
            AtRecordStart(q.reader) && q.text == [] && q.fields == [] && q.rows == p.rows && q.starts == p.starts
    decreases |ends|
  {
    if ends != [] {
      assert Next(d, p.reader, ends[0]) == (StartRecord, false) && p.text + [] == p.text;
      BlankLinesAreSkipped(d, PlainByte(d, p, ends[0]), ends[1..]);
    }
  }

  /** The fields of a line, up to but not including its end. */
  lemma {:induction false} ReadsFieldsOf(d: Delimiter, p: Plain, fields: seq<Written>)
    requires BeforeField(p) && fields != [] && (forall i :: 0 <= i < |fields| ==> fields[i].quoted || Bare(d, fields[i].text))
    requires AtRecordStart(p.reader) ==> fields != [Written([], false)]
    ensures var q, last := PlainBytes(d, p, WriteFieldsOf(d, fields)), |fields| - 1;
            HasField(q, p.fields + Texts(fields[..last]), p.rows, fields[last].text) && !AtRecordStart(q.reader)
    decreases |fields|
  {
    ReadsOne(d, p, fields[0]);
    hide PlainBytes, PlainByte, WriteOne, Bare;
    var q := PlainBytes(d, p, WriteOne(fields[0]));
    if |fields| == 1 {
      assert WriteFieldsOf(d, fields) == WriteOne(fields[0]);
      assert p.fields + Texts(fields[..0]) == p.fields;
      assert fields == [fields[0]];
    } else {
      var rest := WriteFieldsOf(d, fields[1..]);
      assert WriteFieldsOf(d, fields) == WriteOne(fields[0]) + ([d] + rest);
      PlainConcat(d, p, WriteOne(fields[0]), [d] + rest);
      PlainConcat(d, q, [d], rest);
      ReadsNextDelimiter(d, q, p.fields, p.rows, fields[0].text);
      ReadsFieldsOf(d, PlainBytes(d, q, [d]), fields[1..]);
      FirstTexts(p.fields, fields);
    }
  }

  lemma FirstTexts(before: Row, fields: seq<Written>)
    requires |fields| > 1
    ensures before + [fields[0].text] + Texts(fields[1..][..|fields| - 2]) == before + Texts(fields[..|fields| - 1])
  {
    var last := |fields| - 1;
    assert fields[1..][..last - 1] == fields[..last][1..];
    assert [fields[0].text] + Texts(fields[..last][1..]) == Texts(fields[..last]);
  }

  lemma AllTexts(fields: seq<Written>)
    requires fields != []
    ensures [] + Texts(fields[..|fields| - 1]) + [fields[|fields| - 1].text] == Texts(fields)
  {
  }

  lemma ReadsLine(d: Delimiter, p: Plain, l: Line)
    requires AtRecordStart(p.reader) && p.text == [] && p.fields == [] && LineOk(d, l)
    ensures var q := PlainBytes(d, p, WriteFieldsOf(d, l.fields) + l.ending);
            AtRecordStart(q.reader) && q.text == [] && q.fields == [] && q.rows == p.rows + [Texts(l.fields)]
  {
    var text, last := WriteFieldsOf(d, l.fields), |l.fields| - 1;
    ReadsFieldsOf(d, p, l.fields);
    hide PlainBytes, PlainByte, Bare, WriteFieldsOf, Texts;
    PlainConcat(d, p, text, l.ending);
    ReadsEnding(d, PlainBytes(d, p, text), [] + Texts(l.fields[..last]), p.rows, l.fields[last].text, l.ending);
    AllTexts(l.fields);
  }

  lemma FirstRow(lines: seq<Line>)
    requires lines != []
    ensures RowsOf(lines) == [Texts(lines[0].fields)] + RowsOf(lines[1..])
  {
  }

  lemma {:induction false} ReadsLines(d: Delimiter, p: Plain, lines: seq<Line>)
    requires AtRecordStart(p.reader) && p.text == [] && p.fields == [] && forall i :: 0 <= i < |lines| ==> LineOk(d, lines[i])
    ensures var q := PlainBytes(d, p, WriteLines(d, lines));
            AtRecordStart(q.reader) && q.text == [] && q.fields == [] && q.rows == p.rows + RowsOf(lines)
    decreases |lines|
  {
    if lines == [] {
      assert PlainBytes(d, p, []) == p && p.rows + RowsOf([]) == p.rows;
    } else {
      assert LineOk(d, lines[0]);
      var first, rest := WriteFieldsOf(d, lines[0].fields) + lines[0].ending, WriteLines(d, lines[1..]);
      assert WriteLines(d, lines) == first + rest;
      hide PlainBytes, PlainByte, LineOk, WriteFieldsOf, WriteLines, RowsOf, Texts;
      ReadsLine(d, p, lines[0]);
      PlainConcat(d, p, first, rest);
      FirstRow(lines);
      ReadsLines(d, PlainBytes(d, p, first), lines[1..]);
      assert p.rows + [Texts(lines[0].fields)] + RowsOf(lines[1..]) == p.rows + RowsOf(lines);
    }
  }

  /** Text written in any of these ways, with or without an end of its last line, is read as its fields. */
  lemma AnyTextReadsBack(d: Delimiter, lines: seq<Line>, tail: seq<Written>)
    requires (forall i :: 0 <= i < |lines| ==> LineOk(d, lines[i])) && (tail != [] ==> FieldsOk(d, tail))
    ensures Rows(d, WriteLines(d, lines) + if tail == [] then [] else WriteFieldsOf(d, tail))
         == RowsOf(lines) + if tail == [] then [] else [Texts(tail)]
  {
    var text, p := WriteLines(d, lines), Fresh(0);
    ReadsLines(d, p, lines);
    var q := PlainBytes(d, p, text);
    assert p.rows + RowsOf(lines) == RowsOf(lines);
    if tail == [] {
      assert text + [] == text && PlainEnd(q) == q;
    } else {
      PlainConcat(d, p, text, WriteFieldsOf(d, tail));
      ReadsFieldsOf(d, q, tail);
      AllTexts(tail);
      var r := PlainBytes(d, q, WriteFieldsOf(d, tail));
      assert OpenAtEnd(r.reader);
      hide PlainBytes, WriteFieldsOf, WriteLines;
      assert [] + Texts(tail[..|tail| - 1]) == Texts(tail[..|tail| - 1]);
    }
  }
}
