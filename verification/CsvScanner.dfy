/**
 `CsvScanner`: the incremental scan of a source that arrives in chunks, with BOM detection, the
 quote tracker that runs ahead of the reader, and the diagnostic cap.

 The class invariant ties every field to the bytes received so far and to nothing else, so the
 chunk boundaries leave no trace.
 */
module CsvScanner {
  import opened Common
  import opened CsvReader
  import opened CsvScan

  const SCRATCH_BYTES := 16 * 1024

  // ---------------------------------------------------------------- what a source means

  /** Too little has been seen to tell whether the source begins with a byte order mark. */
  predicate Waiting(seen: seq<byte>, ended: bool) {
    !ended && |seen| < 3 && seen <= BOM
  }

  function Base(seen: seq<byte>): (base: nat)
    ensures base <= |seen|
  {
    if BOM <= seen then 3 else 0
  }

  /** The plain parse behind the byte order mark, if there is one. */
  function Read(o: Options, seen: seq<byte>): Plain {
    PlainBytes(o.delimiter, Fresh(Base(seen)), seen[Base(seen)..])
  }

  function Quotes(o: Options, seen: seq<byte>): (Tracker, seq<nat>) {
    TrackAll(o.delimiter, NO_QUOTES, seen[Base(seen)..], Base(seen))
  }

  /** The plain parse of the bytes that have reached the reader. */
  function Parsed(o: Options, seen: seq<byte>, ended: bool): Plain {
    if Waiting(seen, ended) then Fresh(0) else Read(o, seen)
  }

  function Indexed(o: Options, seen: seq<byte>, ended: bool): Plain {
    if ended then PlainEnd(Parsed(o, seen, ended)) else Parsed(o, seen, ended)
  }

  function Tracked(o: Options, seen: seq<byte>, ended: bool): (Tracker, seq<nat>) {
    if Waiting(seen, ended) then (NO_QUOTES, []) else Quotes(o, seen)
  }

  function Malformed(offsets: seq<nat>): seq<Diagnostic> {
    seq(|offsets|, i requires 0 <= i < |offsets| => Diagnostic(MalformedQuote, None, offsets[i]))
  }

  function Unclosed(t: Tracker): seq<Diagnostic> {
    if t.state.Quoted? then [Diagnostic(MalformedQuote, None, t.state.opening)] else []
  }

  function QuoteIssues(o: Options, seen: seq<byte>, ended: bool): seq<Diagnostic> {
    var (tracker, offsets) := Tracked(o, seen, ended);
    Malformed(offsets) + if ended then Unclosed(tracker) else []
  }

  lemma ReadOk(o: Options, seen: seq<byte>)
    ensures var p := Read(o, seen); PlainOk(p) && p.offset == |seen|
  {
    PlainStaysOk(o.delimiter, Fresh(Base(seen)), seen[Base(seen)..]);
  }

  lemma ParsedOk(o: Options, seen: seq<byte>, ended: bool)
    ensures PlainOk(Parsed(o, seen, ended)) && PlainOk(Indexed(o, seen, ended))
  {
    ReadOk(o, seen);
  }

  /** The sources (and, with `ended` false, the prefixes of sources) that are accepted. */
  predicate Accepts(o: Options, seen: seq<byte>, ended: bool) {
    ParsedOk(o, seen, ended);
    Admits(o, Indexed(o, seen, ended)) && (o.strict ==> QuoteIssues(o, seen, ended) == [])
  }

  /** The index of a source or of a prefix of one. */
  function IndexOf(o: Options, seen: seq<byte>, ended: bool): Scan
    requires o.Valid()
  {
    ParsedOk(o, seen, ended);
    var summary := Summary(o, Indexed(o, seen, ended));
    if ended then summary.(reader := End) else summary
  }

  /** The bytes `c` have been read without a reason to reject them. */
  predicate Readable(o: Options, c: seq<byte>) {
    ReadOk(o, c);
    Admits(o, Read(o, c)) && (o.strict ==> Quotes(o, c).1 == [])
  }

  lemma ReadOn(o: Options, c: seq<byte>, bytes: seq<byte>)
    requires Base(c + bytes) == Base(c)
    ensures Read(o, c + bytes) == PlainBytes(o.delimiter, Read(o, c), bytes)
    ensures var (mid, first) := Quotes(o, c);
            var (last, second) := TrackAll(o.delimiter, mid, bytes, |c|);
            Quotes(o, c + bytes) == (last, first + second)
  {
    var base := Base(c);
    assert (c + bytes)[base..] == c[base..] + bytes;
    PlainConcat(o.delimiter, Fresh(base), c[base..], bytes);
    TrackConcat(o.delimiter, NO_QUOTES, c[base..], bytes, base);
  }

  lemma ReadableEarlier(o: Options, c: seq<byte>, bytes: seq<byte>)
    requires o.Valid() && Base(c + bytes) == Base(c) && Readable(o, c + bytes)
    ensures Readable(o, c)
  {
    ReadOk(o, c);
    ReadOn(o, c, bytes);
    AdmitsEarlier(o, Read(o, c), bytes);
  }

  lemma ReadableBeforeEnd(o: Options, c: seq<byte>)
    requires o.Valid() && Accepts(o, c, true)
    ensures Readable(o, c)
  {
    ReadOk(o, c);
    var p := Read(o, c);
    if OpenAtEnd(p.reader) {
      AdmitsBeforeEnd(o, p, EndRecord);
      assert PlainEnd(p) == WithRow(WithField(p)).(reader := EndRecord);
    }
    assert |QuoteIssues(o, c, true)| >= |Quotes(o, c).1|;
  }

  lemma NothingRead(o: Options, c: seq<byte>)
    requires o.Valid() && (c == [] || c == BOM)
    ensures Readable(o, c) && PlainOk(Read(o, c)) && Read(o, c) == Fresh(|c|) && Summary(o, Read(o, c)) == StartScan(o, |c|)
    ensures Quotes(o, c) == (NO_QUOTES, [])
  {
    FreshSummary(o, |c|);
    assert c[Base(c)..] == [];
  }

  // ---------------------------------------------------------------- reading field by field

  /** The scanner after one `read_field` call, its event included. */
  function AfterRead(o: Options, s: Scan, r: FieldRead): Result<Scan>
    requires o.Valid()
  {
    if |s.text| + |r.text| > o.maxFieldBytes then Err(ResourceLimit)
    else
      var read := s.(reader := r.state, text := s.text + r.text, offset := s.offset + r.consumed);
      if !r.result.Field? then Ok(read)
      else
        var field :- FinishField(o, read);
        if r.result.recordEnd then FinishRecord(o, field) else Ok(field)
  }

  /** Reading field by field is scanning byte by byte, whatever the scratch size. */
  lemma {:induction false} ReadFieldIsScan(o: Options, s: Scan, input: seq<byte>, room: nat)
    requires o.Valid() && s.reader != End && input != [] && room > 0 && |s.text| <= o.maxFieldBytes
    ensures var r := ReadField(o.delimiter, s.reader, input, room);
            ScanBytes(o, s, input) == var next := AfterRead(o, s, r);
                                      if next.Err? then next else ScanBytes(o, next.value, input[r.consumed..])
    decreases |input|
  {
    hide FinishField, FinishRecord, Next, ReadField, ScanByte, AfterRead;
    var (next, copied) := Next(o.delimiter, s.reader, input[0]);
    var text := if copied then [input[0]] else [];
    if |s.text| + |text| <= o.maxFieldBytes && !EndsField(next) && |input| > 1 && |text| < room {
      NextNeverEnds(o.delimiter, s.reader, input[0]);
      var read := s.(reader := next, text := s.text + text, offset := s.offset + 1);
      var rest := ReadField(o.delimiter, next, input[1..], room - |text|);
      ReadFieldIsScan(o, read, input[1..], room - |text|);
      ReadGoesOn(o.delimiter, s.reader, input, room);
      AfterReadLater(o, s, text, FieldRead(next, InputEmpty, 1, text), rest);
      InnerByte(o, s, input[0]);
      assert input[1..][rest.consumed..] == input[1 + rest.consumed..];
    } else {
      AfterOneByte(o, s, input, room);
    }
  }

  /** A read that neither ends a field, nor the input, nor fills the output with its first byte. */
  lemma ReadGoesOn(d: Delimiter, s: ReaderState, input: seq<byte>, room: nat)
    requires s != End && |input| > 1 && room > 0
    requires var (next, copied) := Next(d, s, input[0]); !EndsField(next) && |(if copied then [input[0]] else [])| < room
    ensures var (next, copied) := Next(d, s, input[0]);
            var text := if copied then [input[0]] else [];
            && next != End
            && var rest := ReadField(d, next, input[1..], room - |text|);
               ReadField(d, s, input, room) == FieldRead(rest.state, rest.result, 1 + rest.consumed, text + rest.text)
  {
    NextNeverEnds(d, s, input[0]);
    hide Next;
  }

  /** A read that stops behind its first byte. */
  lemma ReadStops(d: Delimiter, s: ReaderState, input: seq<byte>, room: nat)
    requires s != End && input != [] && room > 0
    requires var (next, copied) := Next(d, s, input[0]);
             EndsField(next) || |input| == 1 || |(if copied then [input[0]] else [])| == room
    ensures var (next, copied) := Next(d, s, input[0]);
            var r := ReadField(d, s, input, room);
            && r.state == next && r.consumed == 1 && r.text == (if copied then [input[0]] else [])
            && (r.result.Field? <==> EndsField(next)) && (r.result.Field? ==> r.result.recordEnd == EndsRecord(next))
  {
    hide Next;
  }

  lemma InnerByte(o: Options, s: Scan, b: byte)
    requires o.Valid()
    requires var (next, copied) := Next(o.delimiter, s.reader, b);
             !EndsField(next) && |s.text| + |(if copied then [b] else [])| <= o.maxFieldBytes
    ensures var (next, copied) := Next(o.delimiter, s.reader, b);
            ScanByte(o, s, b) == Ok(s.(reader := next, text := s.text + if copied then [b] else [], offset := s.offset + 1))
  {
    hide Next, FinishField, FinishRecord;
  }

  /** A byte does to the scanner what a read that stops behind it does. */
  lemma ByteIsRead(o: Options, s: Scan, b: byte, r: FieldRead)
    requires o.Valid() && s.reader != End && |s.text| <= o.maxFieldBytes
    requires var (next, copied) := Next(o.delimiter, s.reader, b);
             && r.state == next && r.consumed == 1 && r.text == (if copied then [b] else [])
             && (r.result.Field? <==> EndsField(next)) && (r.result.Field? ==> r.result.recordEnd == EndsRecord(next))
    ensures ScanByte(o, s, b) == AfterRead(o, s, r)
  {
    NextNeverEnds(o.delimiter, s.reader, b);
    hide Next, FinishField, FinishRecord;
  }

  lemma NextNeverEnds(d: Delimiter, s: ReaderState, b: byte)
    requires s != End
    ensures var (next, copied) := Next(d, s, b); next != End && (copied ==> !EndsField(next))
  {
  }

  /** A read that goes on after its first byte ends as the read of the remaining bytes ends. */
  lemma AfterReadLater(o: Options, s: Scan, text: seq<byte>, first: FieldRead, rest: FieldRead)
    requires o.Valid() && first.consumed == 1 && first.text == text && |s.text| + |text| <= o.maxFieldBytes
    ensures AfterRead(o, s, FieldRead(rest.state, rest.result, 1 + rest.consumed, text + rest.text))
         == AfterRead(o, s.(reader := first.state, text := s.text + text, offset := s.offset + 1), rest)
  {
    hide FinishField, FinishRecord;
    assert s.text + (text + rest.text) == s.text + text + rest.text;
  }

  lemma TooLongByte(o: Options, s: Scan, b: byte)
    requires o.Valid() && |s.text| <= o.maxFieldBytes
    requires |s.text| + |(if Next(o.delimiter, s.reader, b).1 then [b] else [])| > o.maxFieldBytes
    ensures ScanByte(o, s, b) == Err(ResourceLimit)
  {
    hide Next, FinishField, FinishRecord;
  }

  lemma AfterOneByte(o: Options, s: Scan, input: seq<byte>, room: nat)
    requires o.Valid() && s.reader != End && input != [] && room > 0 && |s.text| <= o.maxFieldBytes
    requires var (next, copied) := Next(o.delimiter, s.reader, input[0]);
             var text := if copied then [input[0]] else [];
             |s.text| + |text| > o.maxFieldBytes || EndsField(next) || |input| == 1 || |text| == room
    ensures var r := ReadField(o.delimiter, s.reader, input, room);
            ScanBytes(o, s, input) == var next := AfterRead(o, s, r);
                                      if next.Err? then next else ScanBytes(o, next.value, input[r.consumed..])
  {
    hide FinishField, FinishRecord, Next, ReadField, ScanByte;
    var (next, copied) := Next(o.delimiter, s.reader, input[0]);
    var r := ReadField(o.delimiter, s.reader, input, room);
    if EndsField(next) || |input| == 1 || |(if copied then [input[0]] else [])| == room {
      hide AfterRead;
      ReadStops(o.delimiter, s.reader, input, room);
      ByteIsRead(o, s, input[0], r);
    } else {
      ReadGoesOn(o.delimiter, s.reader, input, room);
      TooLongByte(o, s, input[0]);
    }
  }

  lemma TrackerStep(d: Delimiter, s: ReaderState, t: Tracker, b: byte, offset: nat)
    requires s != End && InStep(s, t)
    ensures InStep(Next(d, s, b).0, Track(d, t, b, offset).0)
  {
    assert ValidDelimiter(d);
  }

  /** The reader and the tracker never disagree about the state of the source. */
  lemma {:induction false} TrackerFollowsReader(d: Delimiter, p: Plain, t: Tracker, bytes: seq<byte>, offset: nat)
    requires PlainOk(p) && InStep(p.reader, t)
    ensures InStep(PlainBytes(d, p, bytes).reader, TrackAll(d, t, bytes, offset).0)
    decreases |bytes|
  {
    hide InStep, Track, Next;
    if bytes != [] {
      TrackerStep(d, p.reader, t, bytes[0], offset);
      PlainKeepsOk(d, p, bytes[0]);
      TrackerFollowsReader(d, PlainByte(d, p, bytes[0]), Track(d, t, bytes[0], offset).0, bytes[1..], offset + 1);
    }
  }

  /** A byte that has no business where it stands: a quote inside a bare field, or text behind a closing quote. */
  predicate Stray(d: Delimiter, s: ReaderState, b: byte) {
    (s == InField && b == QUOTE) || (s == AfterQuote && b != QUOTE && b != d && !IsTerminator(b))
  }

  lemma TrackedStray(d: Delimiter, s: ReaderState, t: Tracker, b: byte, offset: nat)
    requires InStep(s, t)
    ensures Track(d, t, b, offset).1 <==> Stray(d, s, b)
  {
  }

  /** The byte at offset `k` of a chunk that stands at `offset` is stray. */
  predicate StrayAt(d: Delimiter, p: Plain, bytes: seq<byte>, offset: nat, k: nat) {
    offset <= k < offset + |bytes| && Stray(d, PlainBytes(d, p, bytes[..k - offset]).reader, bytes[k - offset])
  }

  lemma FirstStray(d: Delimiter, p: Plain, bytes: seq<byte>, offset: nat, k: nat)
    requires bytes != []
    ensures StrayAt(d, p, bytes, offset, k)
       <==> (k == offset && Stray(d, p.reader, bytes[0])) || StrayAt(d, PlainByte(d, p, bytes[0]), bytes[1..], offset + 1, k)
  {
    hide PlainByte, Stray;
    if k == offset {
      assert bytes[..0] == [] && PlainBytes(d, p, []) == p;
    } else if offset < k < offset + |bytes| {
      assert bytes[..k - offset][1..] == bytes[1..][..k - offset - 1];
      assert PlainBytes(d, p, bytes[..k - offset]) == PlainBytes(d, PlainByte(d, p, bytes[0]), bytes[1..][..k - offset - 1]);
    }
  }

  predicate Ascending(offsets: seq<nat>) {
    forall i, j :: 0 <= i < j < |offsets| ==> offsets[i] < offsets[j]
  }

  /** The tracker reports exactly the stray bytes, in order. */
  lemma {:induction false} ReportsAreStray(d: Delimiter, p: Plain, t: Tracker, bytes: seq<byte>, offset: nat)
    requires PlainOk(p) && InStep(p.reader, t)
    ensures var reports := TrackAll(d, t, bytes, offset).1;
            && Ascending(reports)
            && (forall k: nat :: k in reports <==> StrayAt(d, p, bytes, offset, k))
    decreases |bytes|
  {
    hide InStep, Track, Next, Stray, StrayAt, PlainByte, Ascending;
    assert p.reader != End;
    hide PlainOk;
    if bytes == [] {
      forall k: nat ensures !StrayAt(d, p, [], offset, k) {
        NothingStray(d, p, offset, k);
      }
      NoneAscend();
    } else {
      TrackerStep(d, p.reader, t, bytes[0], offset);
      PlainKeepsOk(d, p, bytes[0]);
      TrackedStray(d, p.reader, t, bytes[0], offset);
      var q, rest := PlainByte(d, p, bytes[0]), TrackAll(d, Track(d, t, bytes[0], offset).0, bytes[1..], offset + 1).1;
      ReportsAreStray(d, q, Track(d, t, bytes[0], offset).0, bytes[1..], offset + 1);
      forall k: nat ensures StrayAt(d, p, bytes, offset, k)
                       <==> (k == offset && Stray(d, p.reader, bytes[0])) || StrayAt(d, q, bytes[1..], offset + 1, k) {
        FirstStray(d, p, bytes, offset, k);
      }
      forall k | k in rest ensures k > offset {
        LaterStray(d, q, bytes[1..], offset + 1, k);
      }
      var here: seq<nat> := if Stray(d, p.reader, bytes[0]) then [offset] else [];
      assert TrackAll(d, t, bytes, offset).1 == here + rest;
      hide TrackAll;
      AscendingCons(here, rest, offset);
      forall k: nat ensures k in here + rest <==> StrayAt(d, p, bytes, offset, k) {
        assert k in here + rest <==> k in here || k in rest;
      }
    }
  }

  lemma NoneAscend()
    ensures Ascending([])
  {
  }

  lemma AscendingCons(here: seq<nat>, rest: seq<nat>, offset: nat)
    requires (here == [] || here == [offset]) && (forall k :: k in rest ==> k > offset)
    requires Ascending(rest)
    ensures Ascending(here + rest)
  {
    assert forall j :: 0 <= j < |rest| ==> rest[j] in rest;
  }

  lemma NothingStray(d: Delimiter, p: Plain, offset: nat, k: nat)
    ensures !StrayAt(d, p, [], offset, k)
  {
  }

  lemma LaterStray(d: Delimiter, p: Plain, bytes: seq<byte>, offset: nat, k: nat)
    requires StrayAt(d, p, bytes, offset, k)
    ensures k >= offset
  {
  }

  lemma PlainKeepsOk(d: Delimiter, p: Plain, b: byte)
    requires PlainOk(p)
    ensures PlainOk(PlainByte(d, p, b)) && PlainByte(d, p, b).reader == Next(d, p.reader, b).0
  {
  }

  /** A quote is reported unclosed at the end exactly when the reader closes a quoted field there. */
  lemma UnclosedIsOpenField(o: Options, seen: seq<byte>)
    ensures Unclosed(Tracked(o, seen, true).0) != [] <==> Parsed(o, seen, true).reader == InQuotedField
  {
    TrackerFollowsReader(o.delimiter, Fresh(Base(seen)), NO_QUOTES, seen[Base(seen)..], Base(seen));
    ReadOk(o, seen);
  }

  /** Reading further bytes, all facts together. */
  lemma ReadMore(o: Options, c: seq<byte>, bytes: seq<byte>)
    requires o.Valid() && Base(c + bytes) == Base(c) && Readable(o, c)
    ensures PlainOk(Read(o, c)) && PlainOk(Read(o, c + bytes))
    ensures var s := Summary(o, Read(o, c)); s.offset == |c| && s.reader != End && |s.text| <= o.maxFieldBytes
    ensures var spec, more := ScanBytes(o, Summary(o, Read(o, c)), bytes), TrackAll(o.delimiter, Quotes(o, c).0, bytes, |c|);
            && (Readable(o, c + bytes) <==> spec.Ok? && (o.strict ==> more.1 == []))
            && (spec.Ok? ==> spec.value == Summary(o, Read(o, c + bytes)))
            && (spec.Err? ==> spec.error == ResourceLimit || (o.strict && spec.error == ParseFailed))
            && Quotes(o, c + bytes).0 == more.0
            && Malformed(Quotes(o, c + bytes).1) == Malformed(Quotes(o, c).1) + Malformed(more.1)
  {
    hide Admits, Read, Quotes, ScanBytes, PlainBytes, TrackAll, Summary, Malformed, Base;
    ReadOk(o, c);
    ReadOk(o, c + bytes);
    ReadOn(o, c, bytes);
    ReadScans(o, c, bytes);
    var first, second := Quotes(o, c).1, TrackAll(o.delimiter, Quotes(o, c).0, bytes, |c|).1;
    MalformedConcat(first, second);
  }

  lemma MalformedConcat(first: seq<nat>, second: seq<nat>)
    ensures Malformed(first) + Malformed(second) == Malformed(first + second)
  {
  }

  /** What scanning does with the further bytes. */
  lemma ReadScans(o: Options, c: seq<byte>, bytes: seq<byte>)
    requires o.Valid() && Base(c + bytes) == Base(c) && PlainOk(Read(o, c)) && PlainOk(Read(o, c + bytes)) && Admits(o, Read(o, c))
    requires Read(o, c).offset == |c|
    ensures var s := Summary(o, Read(o, c)); s.offset == |c| && s.reader != End && |s.text| <= o.maxFieldBytes
    ensures var spec := ScanBytes(o, Summary(o, Read(o, c)), bytes);
            if Admits(o, Read(o, c + bytes)) then spec == Ok(Summary(o, Read(o, c + bytes)))
            else spec.Err? && (spec.error == ResourceLimit || (o.strict && spec.error == ParseFailed))
  {
    ReadOn(o, c, bytes);
    ScanBuildsIndex(o, Read(o, c), bytes);
    SummaryReader(o, Read(o, c + bytes));
    SummaryOffset(o, Read(o, c));
    AdmittedText(o, Read(o, c));
    hide Admits, Read, Quotes, ScanBytes, PlainBytes, TrackAll, Summary, Base;
  }

  lemma SummaryOffset(o: Options, p: Plain)
    requires o.Valid() && PlainOk(p)
    ensures var s := Summary(o, p); s.offset == p.offset && s.reader == p.reader != End && s.text == p.text
  {
  }

  /** Ending the source, all facts together. */
  lemma ReadEnds(o: Options, c: seq<byte>)
    requires o.Valid() && Readable(o, c)
    ensures PlainOk(Read(o, c))
    ensures var spec := ScanEnd(o, Summary(o, Read(o, c)));
            && (Accepts(o, c, true) <==> spec.Ok? && (o.strict ==> Unclosed(Quotes(o, c).0) == []))
            && (spec.Ok? ==> spec.value.(reader := End) == IndexOf(o, c, true))
            && (spec.Err? ==> spec.error == ResourceLimit || (o.strict && spec.error == ParseFailed))
    ensures Tracked(o, c, true) == Quotes(o, c)
    ensures QuoteIssues(o, c, true) == Malformed(Quotes(o, c).1) + Unclosed(Quotes(o, c).0)
  {
    ReadOk(o, c);
    EndBuildsIndex(o, Read(o, c));
    hide Admits, Read, Quotes, ScanEnd, PlainBytes, TrackAll;
    var offsets := Quotes(o, c).1;
    assert o.strict ==> offsets == [] && Malformed(offsets) == [];
  }

  /** Between two chunks, either all bytes have been read or, while waiting, none. */
  lemma BetweenChunks(o: Options, seen: seq<byte>, c: seq<byte>)
    requires o.Valid() && c == if Waiting(seen, false) then [] else seen
    ensures PlainOk(Read(o, c)) && Read(o, c).reader != End
    ensures Accepts(o, seen, false) <==> Readable(o, c)
    ensures IndexOf(o, seen, false) == Summary(o, Read(o, c))
    ensures Tracked(o, seen, false) == Quotes(o, c)
    ensures QuoteIssues(o, seen, false) == Malformed(Quotes(o, c).1)
  {
    ReadOk(o, c);
    NothingRead(o, []);
    hide Summary, Admits, Read, Quotes, PlainBytes;
    var offsets := Quotes(o, c).1;
    assert Malformed(offsets) + [] == Malformed(offsets) && |Malformed(offsets)| == |offsets|;
  }

  lemma BaseKept(c: seq<byte>, bytes: seq<byte>)
    requires !Waiting(c, false)
    ensures Base(c + bytes) == Base(c) && forall ended :: !Waiting(c + bytes, ended)
  {
  }

  lemma RejectedEarlier(o: Options, c: seq<byte>, rest: seq<byte>, ended: bool)
    requires o.Valid() && Base(c + rest) == Base(c) && !Readable(o, c) && !Waiting(c + rest, ended)
    ensures !Accepts(o, c + rest, ended)
  {
    ReadOk(o, c + rest);
    if Accepts(o, c + rest, ended) {
      if ended {
        ReadableBeforeEnd(o, c + rest);
      } else {
        assert |QuoteIssues(o, c + rest, false)| == |Quotes(o, c + rest).1|;
      }
      ReadableEarlier(o, c, rest);
    }
  }

  /** Up to the cap every issue is kept; beyond it, as many as the cap allows. */
  predicate Kept(o: Options, diagnostics: seq<Diagnostic>, issues: seq<Diagnostic>, quoteIssues: seq<Diagnostic>) {
    && |diagnostics| == Min(o.maxDiagnostics, |issues| + |quoteIssues|)
    && (|issues| + |quoteIssues| <= o.maxDiagnostics ==> multiset(diagnostics) == multiset(issues) + multiset(quoteIssues))
  }

  /** The scanner state after the bytes `c` have been read. */
  predicate ReadState(o: Options, c: seq<byte>, view: Scan, tracker: Tracker, quoteIssues: seq<Diagnostic>) {
    && o.Valid() && Readable(o, c) && PlainOk(Read(o, c))
    && view == Summary(o, Read(o, c))
    && tracker == Quotes(o, c).0 && quoteIssues == Malformed(Quotes(o, c).1)
  }

  /** Skipping the byte order mark moves the offsets and nothing else. */
  lemma BomRead(o: Options, view: Scan, tracker: Tracker, quoteIssues: seq<Diagnostic>)
    requires ReadState(o, [], view, tracker, quoteIssues)
    ensures ReadState(o, BOM, view.(offset := 3, recordStart := 3), tracker, quoteIssues)
  {
    NothingRead(o, []);
    NothingRead(o, BOM);
    hide Summary, Read, Quotes, Readable;
  }

  // ---------------------------------------------------------------- the scanner object

  class CsvScanner {
    const options: Options
    var reader: ReaderState
    var tracker: Tracker
    var bomPrefix: seq<byte>
    var bomResolved: bool
    var bytesReceived: nat
    var parserOffset: nat
    var recordStartOffset: nat
    var field: Text
    var recordFields: nat
    var headerNames: seq<Text>
    var headerPending: bool
    var rows: nat
    var columns: seq<Name>
    var schemaVersion: nat
    var checkpoints: seq<Checkpoint>
    var diagnostics: seq<Diagnostic>
    var finished: bool

    /** All bytes received, and all issues found, also those beyond the diagnostic cap. */
    ghost var seen: seq<byte>
    ghost var issues: seq<Diagnostic>
    ghost var quoteIssues: seq<Diagnostic>

    ghost function View(): Scan
      reads this
    {
      Scan(reader, field, parserOffset, recordStartOffset, recordFields, headerNames, headerPending, rows, columns,
           schemaVersion, checkpoints, issues)
    }

    ghost predicate Retained()
      reads this
    {
      Kept(options, diagnostics, issues, quoteIssues)
    }

    ghost predicate Valid()
      reads this
    {
      && options.Valid()
      && bytesReceived == |seen|
      && bomResolved == !Waiting(seen, finished)
      && bomPrefix == (if bomResolved then [] else seen)
      && Accepts(options, seen, finished)
      && View() == IndexOf(options, seen, finished)
      && tracker == Tracked(options, seen, finished).0
      && quoteIssues == QuoteIssues(options, seen, finished)
      && Retained()
    }

    constructor (o: Options)
      requires o.Valid()
      ensures Valid() && options == o && seen == [] && !finished
    {
      options := o;
      reader, tracker := StartRecord, NO_QUOTES;
      bomPrefix, bomResolved, bytesReceived := [], false, 0;
      parserOffset, recordStartOffset := 0, 0;
      field, recordFields := [], 0;
      headerNames, headerPending := [], o.header;
      rows, columns, schemaVersion := 0, [], 0;
      checkpoints, diagnostics, finished := [], [], false;
      seen, issues, quoteIssues := [], [], [];
      new;
      FreshSummary(o, 0);
    }

    /** `handle_diagnostic`. */
    method HandleDiagnostic(d: Diagnostic) returns (r: Result<()>)
      requires Retained()
      modifies this`diagnostics, this`issues, this`quoteIssues
      ensures Retained()
      ensures r == if options.strict then Err(ParseFailed) else Ok(())
      ensures r.Err? ==> issues == old(issues) && quoteIssues == old(quoteIssues)
      ensures r.Ok? && d.kind == MalformedQuote ==> issues == old(issues) && quoteIssues == old(quoteIssues) + [d]
      ensures r.Ok? && d.kind != MalformedQuote ==> issues == old(issues) + [d] && quoteIssues == old(quoteIssues)
    {
      if options.strict {
        return Err(ParseFailed);
      }
      if |diagnostics| < options.maxDiagnostics {
        diagnostics := diagnostics + [d];
      }
      if d.kind == MalformedQuote {
        quoteIssues := quoteIssues + [d];
      } else {
        issues := issues + [d];
      }
      return Ok(());
    }

    /** The fields that parsing may change. */
    ghost predicate ParseResult(r: Result<()>, spec: Result<Scan>)
      reads this
    {
      && Retained()
      && if spec.Err? then r == Err(spec.error) else r == Ok(()) && View() == spec.value
    }

    method EnsureColumnsTo(count: nat, names: seq<Text>) returns (r: Result<()>)
      requires Retained()
      modifies this`columns, this`schemaVersion
      ensures ParseResult(r, EnsureColumns(options, old(View()), count, names))
    {
      if count > options.maxColumns {
        return Err(ResourceLimit);
      }
      if count <= |columns| {
        return Ok(());
      }
      var first := |columns|;
      var index := first;
      while index < count
        invariant first <= index <= count && |columns| == index
        invariant columns[..first] == old(columns) && schemaVersion == old(schemaVersion)
        invariant forall i :: first <= i < index ==> columns[i] == NewName(i, names)
      {
        columns := columns + [NewName(index, names)];
        index := index + 1;
      }
      assert columns == old(columns) + NewNames(first, count - first, names);
      schemaVersion := schemaVersion + 1;
      return Ok(());
    }

    method EndField() returns (r: Result<()>)
      requires Retained()
      modifies this`recordFields, this`field, this`headerNames, this`diagnostics, this`issues, this`quoteIssues
      ensures ParseResult(r, FinishField(options, old(View()))) && quoteIssues == old(quoteIssues)
    {
      recordFields := recordFields + 1;
      if recordFields > options.maxColumns {
        return Err(ResourceLimit);
      }
      var valid := options.validText(field);
      if !valid {
        var d := Diagnostic(InvalidText, if headerPending then None else Some(rows), recordStartOffset);
        var reported := HandleDiagnostic(d);
        if reported.Err? {
          return reported;
        }
      }
      if headerPending {
        headerNames := headerNames + [if valid then field else options.decode(field)];
      }
      field := [];
      return Ok(());
    }

    /** `finish_record` on a data row, up to the reset of the record. */
    method IndexDataRow() returns (r: Result<()>)
      requires options.Valid() && Retained()
      modifies this`checkpoints, this`columns, this`schemaVersion, this`rows, this`diagnostics, this`issues, this`quoteIssues
      ensures ParseResult(r, IndexRow(options, old(View()))) && quoteIssues == old(quoteIssues)
    {
      hide WidenFor, Kept;
      if rows % options.interval == 0 {
        checkpoints := checkpoints + [Checkpoint(rows, recordStartOffset)];
      }
      r := WidenSchema();
      if r.Err? {
        return r;
      }
      rows := rows + 1;
      return Ok(());
    }

    /** The schema check of a data row: a row of another width is reported, a wider one adds columns. */
    method WidenSchema() returns (r: Result<()>)
      requires Retained()
      modifies this`columns, this`schemaVersion, this`diagnostics, this`issues, this`quoteIssues
      ensures ParseResult(r, WidenFor(options, old(View()))) && quoteIssues == old(quoteIssues)
    {
      hide EnsureColumns, Kept;
      if columns == [] {
        r := EnsureColumnsTo(recordFields, []);
      } else if recordFields != |columns| {
        r := HandleDiagnostic(Diagnostic(RaggedRow, Some(rows), recordStartOffset));
        if r.Ok? && recordFields > |columns| {
          r := EnsureColumnsTo(recordFields, []);
        }
      } else {
        r := Ok(());
      }
    }

    method EndRecordRow() returns (r: Result<()>)
      requires options.Valid() && Retained()
      modifies this`recordFields, this`headerNames, this`headerPending, this`checkpoints, this`columns, this`schemaVersion,
               this`rows, this`recordStartOffset, this`diagnostics, this`issues, this`quoteIssues
      ensures ParseResult(r, FinishRecord(options, old(View()))) && quoteIssues == old(quoteIssues)
    {
      hide EnsureColumns, IndexRow;
      if headerPending {
        r := EnsureColumnsTo(recordFields, headerNames);
        if r.Err? {
          return r;
        }
        headerNames, headerPending := [], false;
      } else {
        r := IndexDataRow();
        if r.Err? {
          return r;
        }
      }
      recordFields := 0;
      recordStartOffset := parserOffset;
      return Ok(());
    }

    /** What one `read_field` result does to the scanner. */
    method TakeRead(read: FieldRead) returns (r: Result<()>)
      requires options.Valid() && Retained() && |field| <= options.maxFieldBytes
      modifies this`reader, this`field, this`parserOffset, this`recordFields, this`headerNames, this`headerPending,
               this`checkpoints, this`columns, this`schemaVersion, this`rows, this`recordStartOffset,
               this`diagnostics, this`issues, this`quoteIssues
      ensures ParseResult(r, AfterRead(options, old(View()), read)) && quoteIssues == old(quoteIssues)
      ensures r.Ok? ==> reader == read.state && |field| <= options.maxFieldBytes
    {
      hide FinishField, FinishRecord;
      if |field| + |read.text| > options.maxFieldBytes {
        return Err(ResourceLimit);
      }
      reader, field, parserOffset := read.state, field + read.text, parserOffset + read.consumed;
      if read.result.Field? {
        r := EndField();
        if r.Err? {
          return r;
        }
        if read.result.recordEnd {
          r := EndRecordRow();
          return r;
        }
      }
      return Ok(());
    }

    /** The parser's share of `process_bytes`: field by field until the chunk is used up. */
    method ReadChunk(bytes: seq<byte>) returns (r: Result<()>)
      requires options.Valid() && Retained() && reader != End && |field| <= options.maxFieldBytes
      modifies this`reader, this`field, this`parserOffset, this`recordFields, this`headerNames, this`headerPending,
               this`checkpoints, this`columns, this`schemaVersion, this`rows, this`recordStartOffset,
               this`diagnostics, this`issues, this`quoteIssues
      ensures ParseResult(r, ScanBytes(options, old(View()), bytes)) && quoteIssues == old(quoteIssues)
    {
      hide AfterRead, ReadField, ScanByte;
      ghost var spec := ScanBytes(options, View(), bytes);
      var input := bytes;
      while input != []
        invariant Retained() && reader != End && |field| <= options.maxFieldBytes && quoteIssues == old(quoteIssues)
        invariant ScanBytes(options, View(), input) == spec
        decreases |input|
      {
        ReadFieldIsScan(options, View(), input, SCRATCH_BYTES);
        var read := ReadField(options.delimiter, reader, input, SCRATCH_BYTES);
        r := TakeRead(read);
        if r.Err? {
          return r;
        }
        input := input[read.consumed..];
      }
      return Ok(());
    }

    ghost predicate HasRead(c: seq<byte>)
      reads this
    {
      ReadState(options, c, View(), tracker, quoteIssues) && Retained()
    }

    /** `process_bytes`: `c` is what was read before. */
    method ProcessBytes(base: nat, bytes: seq<byte>, ghost c: seq<byte>) returns (r: Result<()>)
      requires HasRead(c) && Base(c + bytes) == Base(c)
      modifies this`reader, this`field, this`parserOffset, this`recordFields, this`headerNames, this`headerPending,
               this`checkpoints, this`columns, this`schemaVersion, this`rows, this`recordStartOffset,
               this`diagnostics, this`issues, this`quoteIssues, this`tracker
      ensures base != |c| ==> r == Err(InvalidArgument)
      ensures base == |c| ==> (r.Ok? <==> Readable(options, c + bytes)) && (r.Ok? ==> HasRead(c + bytes))
      ensures base == |c| && r.Err? ==> Rejected(r.error)
    {
      hide Summary, Admits, Read, Quotes, Malformed, ScanBytes, PlainBytes, TrackAll, Base, Readable;
      ReadMore(options, c, bytes);
      if base != parserOffset {
        return Err(InvalidArgument);
      }
      var consumed := TrackAll(options.delimiter, tracker, bytes, base);
      r := ReportQuotes(consumed.1);
      if r.Err? {
        return r;
      }
      tracker := consumed.0;
      r := ReadChunk(bytes);
    }

    /** The errors that a rejected source can end in. */
    predicate Rejected(e: ErrorCode) {
      e == ResourceLimit || (options.strict && e == ParseFailed)
    }

    method ReportQuotes(offsets: seq<nat>) returns (r: Result<()>)
      requires Retained()
      modifies this`diagnostics, this`issues, this`quoteIssues
      ensures Retained() && issues == old(issues)
      ensures r == if options.strict && offsets != [] then Err(ParseFailed) else Ok(())
      ensures r.Ok? ==> quoteIssues == old(quoteIssues) + Malformed(offsets)
    {
      var i := 0;
      while i < |offsets|
        invariant 0 <= i <= |offsets| && Retained() && issues == old(issues) && (options.strict ==> i == 0)
        invariant quoteIssues == old(quoteIssues) + Malformed(offsets[..i])
      {
        r := HandleDiagnostic(Diagnostic(MalformedQuote, None, offsets[i]));
        if r.Err? {
          return r;
        }
        assert Malformed(offsets[..i + 1]) == Malformed(offsets[..i]) + [Diagnostic(MalformedQuote, None, offsets[i])];
        i := i + 1;
      }
      assert offsets[..i] == offsets;
      return Ok(());
    }

    /** One pass of the loop in `finish` that closes an open record. */
    method CloseRecord() returns (r: Result<()>)
      requires options.Valid() && Retained() && OpenAtEnd(reader)
      modifies this`reader, this`field, this`recordFields, this`headerNames, this`headerPending, this`checkpoints,
               this`columns, this`schemaVersion, this`rows, this`recordStartOffset, this`diagnostics, this`issues, this`quoteIssues
      ensures ParseResult(r, ScanEnd(options, old(View()))) && quoteIssues == old(quoteIssues)
      ensures r.Ok? ==> reader == EndRecord
    {
      hide FinishField, FinishRecord;
      reader := EndRecord;
      r := EndField();
      if r.Ok? {
        r := EndRecordRow();
      }
    }

    /** The loop of `finish`: it ends in its second pass at the latest. */
    method DrainReader() returns (r: Result<()>)
      requires options.Valid() && Retained() && reader != End
      modifies this`reader, this`field, this`recordFields, this`headerNames, this`headerPending, this`checkpoints,
               this`columns, this`schemaVersion, this`rows, this`recordStartOffset, this`diagnostics, this`issues,
               this`quoteIssues, this`finished
      ensures Retained() && quoteIssues == old(quoteIssues)
      ensures var spec := ScanEnd(options, old(View()));
              if spec.Err? then r == Err(spec.error)
              else r == Ok(()) && finished && View() == spec.value.(reader := End)
    {
      hide FinishField, FinishRecord;
      ghost var spec := ScanEnd(options, View());
      var passes := 0;
      while passes < 4
        invariant 0 <= passes <= 1 && reader != End && Retained() && quoteIssues == old(quoteIssues)
        invariant passes == 1 ==> reader == EndRecord && spec == Ok(View())
        invariant passes == 0 ==> View() == old(View())
        decreases 4 - passes
      {
        var (next, result) := ReadEnd(reader);
        if result.Field? {
          r := CloseRecord();
          if r.Err? {
            return r;
          }
        } else {
          reader, finished := next, true;
          return Ok(());
        }
        passes := passes + 1;
      }
      assert false;
    }

    /** `finish`. */
    method Finish(ghost c: seq<byte>) returns (r: Result<()>)
      requires HasRead(c) && reader != End
      modifies this`reader, this`field, this`recordFields, this`headerNames, this`headerPending, this`checkpoints,
               this`columns, this`schemaVersion, this`rows, this`recordStartOffset, this`diagnostics, this`issues,
               this`quoteIssues, this`finished
      ensures r.Ok? <==> Accepts(options, c, true)
      ensures r.Err? ==> Rejected(r.error)
      ensures r.Ok? ==> && finished && Retained() && View() == IndexOf(options, c, true)
                        && tracker == Tracked(options, c, true).0 && quoteIssues == QuoteIssues(options, c, true)
    {
      hide Summary, Admits, Read, Quotes, Malformed, PlainBytes, TrackAll, Base, Readable, IndexOf, Accepts, QuoteIssues, Tracked,
        FinishField, FinishRecord, ScanEnd;
      ReadEnds(options, c);
      ghost var read := quoteIssues;
      if tracker.state.Quoted? {
        r := HandleDiagnostic(Diagnostic(MalformedQuote, None, tracker.state.opening));
        if r.Err? {
          return r;
        }
      }
      assert read + [] == read && quoteIssues == read + Unclosed(tracker);
      r := DrainReader();
    }

    /** Between chunks, the bytes that count as read are all of them or none. */
    lemma UnfinishedHasRead()
      requires Valid() && !finished
      ensures HasRead(if bomResolved then seen else []) && reader != End
    {
      var c := if bomResolved then seen else [];
      BetweenChunks(options, seen, c);
      SummaryReader(options, Read(options, c));
      hide Summary, Admits, Read, Quotes, PlainBytes, Accepts, IndexOf, Tracked, QuoteIssues, Malformed, Readable;
    }

    /** After a chunk that is not the last one the scanner is ready for the next. */
    lemma ReadyForMore()
      requires bytesReceived == |seen| && bomResolved == !Waiting(seen, false) && !finished
      requires HasRead(if bomResolved then seen else []) && bomPrefix == (if bomResolved then [] else seen)
      ensures Valid()
    {
      var c := if bomResolved then seen else [];
      BetweenChunks(options, seen, c);
      hide Summary, Admits, Read, Quotes, PlainBytes, Accepts, IndexOf, Tracked, QuoteIssues, Malformed, Readable;
    }

    /** The prefix loop of `feed_chunk`: how many bytes of the chunk it takes. */
    method GatherPrefix(bytes: seq<byte>) returns (cursor: nat)
      requires |bomPrefix| < 3 && bomPrefix <= BOM
      modifies this`bomPrefix
      ensures cursor <= |bytes| && bomPrefix == old(bomPrefix) + bytes[..cursor] && |bomPrefix| <= 3
      ensures bomPrefix <= BOM && |bomPrefix| < 3 ==> cursor == |bytes|
    {
      cursor := 0;
      while cursor < |bytes| && |bomPrefix| < 3
        invariant cursor <= |bytes| && bomPrefix == old(bomPrefix) + bytes[..cursor] && |bomPrefix| <= 3
        invariant bomPrefix <= BOM
      {
        bomPrefix := bomPrefix + [bytes[cursor]];
        cursor := cursor + 1;
        if !(bomPrefix <= BOM) {
          break;
        }
      }
    }

    /** The BOM part of `feed_chunk`, in a chunk that is the last one if `eof`. */
    method ResolveBom(bytes: seq<byte>, eof: bool, ghost before: seq<byte>) returns (r: Result<()>, cursor: nat)
      requires !bomResolved && HasRead([]) && bomPrefix == before && Waiting(before, false)
      modifies this`bomPrefix, this`bomResolved, this`reader, this`field, this`parserOffset, this`recordFields,
               this`headerNames, this`headerPending, this`checkpoints, this`columns, this`schemaVersion, this`rows,
               this`recordStartOffset, this`diagnostics, this`issues, this`quoteIssues, this`tracker
      ensures cursor <= |bytes| && bomResolved == !Waiting(before + bytes, eof)
      ensures r.Err? ==> Rejected(r.error) && bomResolved && Base(before + bytes) == Base(before + bytes[..cursor])
                         && !Readable(options, before + bytes[..cursor])
      ensures r.Ok? && !bomResolved ==> bomPrefix == before + bytes && HasRead([]) && cursor == |bytes|
      ensures r.Ok? && bomResolved ==> bomPrefix == [] && HasRead(before + bytes[..cursor])
                                       && Base(before + bytes) == Base(before + bytes[..cursor])
    {
      hide ReadState, Readable, Kept;
      cursor := GatherPrefix(bytes);
      ghost var prefix := before + bytes[..cursor];
      assert before + bytes == prefix + bytes[cursor..];
      if !(bomPrefix <= BOM) || |bomPrefix| == 3 || eof {
        bomResolved := true;
        if bomPrefix == BOM {
          BomRead(options, View(), tracker, quoteIssues);
          parserOffset, recordStartOffset, bomPrefix := 3, 3, [];
          r := Ok(());
        } else {
          var first := bomPrefix;
          bomPrefix := [];
          assert [] + first == first && Base([]) == Base(first);
          r := ProcessBytes(0, first, []);
        }
      } else {
        r := Ok(());
      }
    }

    /** The bytes of one chunk, up to the end-of-file handling. */
    method ReadSource(absoluteOffset: nat, bytes: seq<byte>, eof: bool, ghost before: seq<byte>) returns (r: Result<()>)
      requires HasRead(if bomResolved then before else []) && bomPrefix == (if bomResolved then [] else before)
      requires bomResolved == !Waiting(before, false) && absoluteOffset == |before|
      modifies this`bomPrefix, this`bomResolved, this`reader, this`field, this`parserOffset, this`recordFields,
               this`headerNames, this`headerPending, this`checkpoints, this`columns, this`schemaVersion, this`rows,
               this`recordStartOffset, this`diagnostics, this`issues, this`quoteIssues, this`tracker
      ensures r.Err? ==> Rejected(r.error) && !Accepts(options, before + bytes, eof)
      ensures r.Ok? ==> && bomResolved == !Waiting(before + bytes, eof)
                        && HasRead(if bomResolved then before + bytes else [])
                        && bomPrefix == (if bomResolved then [] else before + bytes)
    {
      hide Read, Quotes, Accepts, Readable, Base, Kept, Summary, Malformed;
      var cursor: nat := 0;
      assert bytes[..0] == [] && before + [] == before;
      if !bomResolved {
        r, cursor := ResolveBom(bytes, eof, before);
        assert before + bytes[..cursor] + bytes[cursor..] == before + bytes;
        if r.Err? {
          RejectedEarlier(options, before + bytes[..cursor], bytes[cursor..], eof);
          return r;
        }
      } else {
        BaseKept(before, bytes);
        r := Ok(());
      }
      ghost var c := before + bytes[..cursor];
      assert c + bytes[cursor..] == before + bytes;
      if bomResolved && cursor < |bytes| {
        r := ProcessBytes(absoluteOffset + cursor, bytes[cursor..], c);
        if r.Err? {
          assert before + bytes + [] == before + bytes;
          RejectedEarlier(options, before + bytes, [], eof);
        }
      } else {
        assert cursor == |bytes| ==> c == before + bytes;
      }
    }

    /**
     `feed_chunk`.  A chunk is accepted exactly if all bytes received so far are; the fields then
     depend on those bytes alone.  The offset the reader expects is never a reason to fail.
     */
    method FeedChunk(absoluteOffset: nat, bytes: seq<byte>, eof: bool) returns (r: Result<()>)
      requires Valid()
      modifies this
      ensures old(finished) ==> r == Err(HandleClosed) && unchanged(this)
      ensures !old(finished) && absoluteOffset != old(bytesReceived) ==> r == Err(InvalidArgument) && unchanged(this)
      ensures !old(finished) && absoluteOffset == old(bytesReceived) ==>
                && (r.Ok? <==> Accepts(options, old(seen) + bytes, eof))
                && (r.Ok? ==> Valid() && seen == old(seen) + bytes && finished == eof)
                && (r.Err? ==> Rejected(r.error))
    {
      hide Valid, Accepts;
      if finished {
        return Err(HandleClosed);
      }
      if absoluteOffset != bytesReceived {
        return Err(InvalidArgument);
      }
      r := TakeChunk(absoluteOffset, bytes, eof);
    }

    /** A chunk that follows the bytes received. */
    method TakeChunk(absoluteOffset: nat, bytes: seq<byte>, eof: bool) returns (r: Result<()>)
      requires Valid() && !finished && absoluteOffset == bytesReceived
      modifies this
      ensures r.Ok? <==> Accepts(options, old(seen) + bytes, eof)
      ensures r.Ok? ==> Valid() && seen == old(seen) + bytes && finished == eof
      ensures r.Err? ==> Rejected(r.error)
    {
      hide ReadState, Kept, Accepts, Read, Quotes, Summary, IndexOf, Tracked, QuoteIssues;
      UnfinishedHasRead();
      bytesReceived := bytesReceived + |bytes|;
      r := ReadSource(absoluteOffset, bytes, eof, seen);
      seen := seen + bytes;
      if r.Err? {
        return r;
      }
      if eof {
        r := FinishSource();
      } else {
        BetweenChunks(options, seen, if bomResolved then seen else []);
        ReadyForMore();
      }
    }

    /** `finish` behind the last chunk. */
    method FinishSource() returns (r: Result<()>)
      requires options.Valid() && HasRead(seen) && bytesReceived == |seen| && bomResolved && !Waiting(seen, true) && bomPrefix == []
      modifies this`reader, this`field, this`recordFields, this`headerNames, this`headerPending, this`checkpoints,
               this`columns, this`schemaVersion, this`rows, this`recordStartOffset, this`diagnostics, this`issues,
               this`quoteIssues, this`finished
      ensures r.Ok? <==> Accepts(options, seen, true)
      ensures r.Ok? ==> Valid() && finished
      ensures r.Err? ==> Rejected(r.error)
    {
      hide ReadState, Kept, Accepts, Read, Quotes, Summary, IndexOf, Tracked, QuoteIssues, Waiting;
      ReaderOpen(seen);
      r := Finish(seen);
    }

    lemma ReaderOpen(c: seq<byte>)
      requires HasRead(c)
      ensures reader != End
    {
      ReadOk(options, c);
    }
  }

  // ---------------------------------------------------------------- whole sources

  function Joined(chunks: seq<seq<byte>>): seq<byte> {
    if chunks == [] then [] else chunks[0] + Joined(chunks[1..])
  }

  /**
   `MemorySource::open_with_chunk_size` for any way of cutting a source into chunks: the result
   is a function of the joined bytes.
   */
  method ScanSource(o: Options, chunks: seq<seq<byte>>) returns (r: Result<()>, scanner: CsvScanner)
    requires o.Valid() && chunks != []
    ensures fresh(scanner) && scanner.options == o
    ensures r.Ok? <==> Accepts(o, Joined(chunks), true)
    ensures r.Ok? ==> scanner.Valid() && scanner.finished && scanner.seen == Joined(chunks)
  {
    hide Accepts, IndexOf, Tracked, QuoteIssues, Waiting, Base;
    scanner := new CsvScanner(o);
    var i := 0;
    assert chunks[0..] == chunks;
    while i < |chunks|
      invariant i <= |chunks| && scanner.Valid() && fresh(scanner) && scanner.options == o
      invariant scanner.seen + Joined(chunks[i..]) == Joined(chunks) && scanner.finished == (i == |chunks|)
    {
      ghost var before := scanner.seen;
      assert chunks[i..][1..] == chunks[i + 1..];
      assert before + (chunks[i] + Joined(chunks[i + 1..])) == before + chunks[i] + Joined(chunks[i + 1..]);
      r := scanner.FeedChunk(scanner.bytesReceived, chunks[i], i + 1 == |chunks|);
      if r.Err? {
        RejectedPrefix(o, before + chunks[i], Joined(chunks[i + 1..]), i + 1 == |chunks|);
        return r, scanner;
      }
      i := i + 1;
    }
    assert Joined(chunks[i..]) == [] && scanner.seen + [] == scanner.seen;
    r := Ok(());
  }

  /** A rejected prefix makes every source that extends it a rejected one. */
  lemma RejectedPrefix(o: Options, seen: seq<byte>, rest: seq<byte>, ended: bool)
    requires o.Valid() && !Accepts(o, seen, ended) && (ended ==> rest == [])
    ensures !Accepts(o, seen + rest, true)
  {
    if ended {
      assert seen + rest == seen;
    } else {
      var c := if Waiting(seen, false) then [] else seen;
      BetweenChunks(o, seen, c);
      NothingRead(o, []);
      BaseKept(seen, rest);
      RejectedEarlier(o, seen, rest, true);
    }
  }
}
