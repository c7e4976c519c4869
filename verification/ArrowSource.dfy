/**
 A decoded Arrow IPC source, its range reads, and the deltas by which a Stream is published while it
 is still being decoded (`ArrowIpcSource` and `ArrowStreamDelta` in `src/arrow.rs`).
 */
module ArrowSource {
  import opened Common
  import opened ArrowRange

  datatype Schema = Schema(id: nat, width: nat, accepted: bool)

  /** `stream` tells the container; `exact` whether the extent is final. */
  datatype Source = Source(
    stream: bool, schema: Schema, batches: seq<Batch>, rowOffsets: seq<nat>, decodedBytes: nat, exact: bool, limits: Limits)

  datatype Delta = Delta(
    schema: Schema, limits: Limits, batchStart: nat, batches: seq<Batch>, cumulativeRows: nat, cumulativeDecodedBytes: nat, exact: bool)

  /** What arrow-rs guarantees of every batch it decodes against this schema. */
  predicate WellFormed(batches: seq<Batch>, schema: Schema) {
    forall i :: 0 <= i < |batches| && batches[i].schema == schema.id ==> BatchOk(batches[i], schema.id, schema.width)
  }

  function Offsets(batches: seq<Batch>): (r: seq<nat>)
    ensures |r| == |batches| + 1 && forall i :: 0 <= i < |r| ==> r[i] == RowsBefore(batches, i)
  {
    seq(|batches| + 1, i requires 0 <= i <= |batches| => RowsBefore(batches, i))
  }

  /** The row index and the byte count are those of the batches. */
  predicate SourceOk(s: Source) {
    && BatchesOk(s.batches, s.schema.id, s.schema.width) && s.rowOffsets == Offsets(s.batches)
    && s.decodedBytes == MemoryOf(s.batches) <= s.limits.maxDecodedBytes
  }

  // ---------------------------------------------------------------- building and appending

  /** Rows and bytes of the first `n` batches on top of a start; `cap` is checked after every batch. */
  function Tally(batches: seq<Batch>, n: nat, schema: nat, rows: nat, memory: nat, usizeMax: nat, cap: Option<nat>): Result<(nat, nat)>
    requires n <= |batches|
  {
    if n == 0 then Ok((rows, memory))
    else
      var before :- Tally(batches, n - 1, schema, rows, memory, usizeMax, cap);
      var b := batches[n - 1];
      if b.schema != schema then Err(ParseFailed)
      else if before.0 + b.rows > usizeMax || before.1 + b.memory > usizeMax then Err(ResourceLimit)
      else if cap.Some? && before.1 + b.memory > cap.value then Err(ResourceLimit)
      else Ok((before.0 + b.rows, before.1 + b.memory))
  }

  /** `from_batches_with_extent`. */
  function Build(stream: bool, schema: Schema, batches: seq<Batch>, limits: Limits, exact: bool): Result<Source> {
    if !schema.accepted then Err(UnsupportedFeature)
    else
      var total :- Tally(batches, |batches|, schema.id, 0, 0, limits.usizeMax, Some(limits.maxDecodedBytes));
      Ok(Source(stream, schema, batches, Offsets(batches), total.1, exact, limits))
  }

  /** `from_stream_delta`. */
  function FromDelta(d: Delta): Result<Source> {
    if d.batchStart != 0 then Err(InvalidArgument)
    else
      var s :- Build(true, d.schema, d.batches, d.limits, d.exact);
      if Rows(d.batches) != d.cumulativeRows || s.decodedBytes != d.cumulativeDecodedBytes then Err(RuntimeFailure) else Ok(s)
  }

  /** `append_stream_delta`. */
  function Appended(s: Source, d: Delta): Result<Source> {
    if !s.stream || d.batchStart != |s.batches| || d.schema != s.schema || d.limits != s.limits then Err(InvalidArgument)
    else
      var total :- Tally(d.batches, |d.batches|, s.schema.id, Rows(s.batches), s.decodedBytes, s.limits.usizeMax, None);
      if total != (d.cumulativeRows, d.cumulativeDecodedBytes) then Err(RuntimeFailure)
      else if total.1 > s.limits.maxDecodedBytes then Err(ResourceLimit)
      else
        Ok(s.(batches := s.batches + d.batches, rowOffsets := Offsets(s.batches + d.batches), decodedBytes := total.1, exact := d.exact))
  }

  lemma {:induction false} TallyIsSum(batches: seq<Batch>, n: nat, schema: nat, rows: nat, memory: nat, usizeMax: nat, cap: Option<nat>)
    requires n <= |batches|
    ensures var r := Tally(batches, n, schema, rows, memory, usizeMax, cap);
            r.Ok? ==> && r.value == (rows + RowsBefore(batches, n), memory + MemoryOf(batches[..n]))
                      && (forall i :: 0 <= i < n ==> batches[i].schema == schema)
                      && (cap.Some? && n > 0 ==> r.value.1 <= cap.value)
  {
    if n > 0 {
      TallyIsSum(batches, n - 1, schema, rows, memory, usizeMax, cap);
      assert batches[..n][..n - 1] == batches[..n - 1];
    }
  }

  lemma BuildIsOk(stream: bool, schema: Schema, batches: seq<Batch>, limits: Limits, exact: bool)
    requires WellFormed(batches, schema)
    ensures var r := Build(stream, schema, batches, limits, exact); r.Ok? ==> SourceOk(r.value)
  {
    TallyIsSum(batches, |batches|, schema.id, 0, 0, limits.usizeMax, Some(limits.maxDecodedBytes));
    assert batches[..|batches|] == batches;
  }

  lemma {:induction false} RowsConcat(a: seq<Batch>, b: seq<Batch>, n: nat)
    requires n <= |b|
    ensures RowsBefore(a + b, |a| + n) == Rows(a) + RowsBefore(b, n)
  {
    if n == 0 {
      RowsPrefix(a, b, |a|);
    } else {
      RowsConcat(a, b, n - 1);
    }
  }

  lemma {:induction false} RowsPrefix(a: seq<Batch>, b: seq<Batch>, n: nat)
    requires n <= |a|
    ensures RowsBefore(a + b, n) == RowsBefore(a, n)
  {
    if n > 0 {
      RowsPrefix(a, b, n - 1);
    }
  }

  lemma {:induction false} MemoryConcat(a: seq<Batch>, b: seq<Batch>)
    ensures MemoryOf(a + b) == MemoryOf(a) + MemoryOf(b)
  {
    if b == [] {
      assert a + b == a;
    } else {
      assert (a + b)[..|a + b| - 1] == a + b[..|b| - 1];
      MemoryConcat(a, b[..|b| - 1]);
    }
  }

  lemma AppendIsOk(s: Source, d: Delta)
    requires SourceOk(s) && WellFormed(d.batches, s.schema)
    ensures var r := Appended(s, d);
            r.Ok? ==> SourceOk(r.value) && r.value.decodedBytes == s.decodedBytes + MemoryOf(d.batches) == d.cumulativeDecodedBytes
  {
    var r := Appended(s, d);
    if r.Ok? {
      TallyIsSum(d.batches, |d.batches|, s.schema.id, Rows(s.batches), s.decodedBytes, s.limits.usizeMax, None);
      assert d.batches[..|d.batches|] == d.batches;
      MemoryConcat(s.batches, d.batches);
    }
  }

  // ---------------------------------------------------------------- exactly when they succeed

  predicate AllOf(batches: seq<Batch>, schema: nat) {
    forall i :: 0 <= i < |batches| ==> batches[i].schema == schema
  }

  lemma {:induction false} TallySucceeds(batches: seq<Batch>, n: nat, schema: nat, rows: nat, memory: nat, usizeMax: nat, cap: Option<nat>)
    requires 0 < n <= |batches|
    ensures Tally(batches, n, schema, rows, memory, usizeMax, cap).Ok?
       <==> && AllOf(batches[..n], schema) && rows + RowsBefore(batches, n) <= usizeMax && memory + MemoryOf(batches[..n]) <= usizeMax
            && (cap.Some? ==> memory + MemoryOf(batches[..n]) <= cap.value)
  {
    assert batches[..n][..n - 1] == batches[..n - 1];
    var r := Tally(batches, n - 1, schema, rows, memory, usizeMax, cap);
    TallyIsSum(batches, n - 1, schema, rows, memory, usizeMax, cap);
    assert forall i :: 0 <= i < n ==> batches[..n][i] == batches[i];
    assert forall i :: 0 <= i < n - 1 ==> batches[..n - 1][i] == batches[i];
    assert AllOf(batches[..n], schema) <==> forall i :: 0 <= i < n ==> batches[i].schema == schema;
    assert AllOf(batches[..n - 1], schema) <==> forall i :: 0 <= i < n - 1 ==> batches[i].schema == schema;
    if n > 1 {
      TallySucceeds(batches, n - 1, schema, rows, memory, usizeMax, cap);
    }
  }

  /** A source is built exactly from batches of its schema that fit; it has the batches, their row offsets and their bytes. */
  lemma BuildExactly(stream: bool, schema: Schema, batches: seq<Batch>, limits: Limits, exact: bool)
    ensures var r := Build(stream, schema, batches, limits, exact);
            && (r.Ok? <==> && schema.accepted && AllOf(batches, schema.id)
                           && Rows(batches) <= limits.usizeMax && MemoryOf(batches) <= Min(limits.maxDecodedBytes, limits.usizeMax))
            && (r.Ok? ==> r.value == Source(stream, schema, batches, Offsets(batches), MemoryOf(batches), exact, limits))
            && (r == Err(UnsupportedFeature) <==> !schema.accepted)
  {
    assert batches[..|batches|] == batches;
    TallyIsSum(batches, |batches|, schema.id, 0, 0, limits.usizeMax, Some(limits.maxDecodedBytes));
    if batches != [] {
      TallySucceeds(batches, |batches|, schema.id, 0, 0, limits.usizeMax, Some(limits.maxDecodedBytes));
    }
    TallyErrors(batches, |batches|, schema.id, 0, 0, limits.usizeMax, Some(limits.maxDecodedBytes));
    hide Tally;
  }

  lemma {:induction false} TallyErrors(batches: seq<Batch>, n: nat, schema: nat, rows: nat, memory: nat, usizeMax: nat, cap: Option<nat>)
    requires n <= |batches|
    ensures var r := Tally(batches, n, schema, rows, memory, usizeMax, cap); r.Err? ==> r.error in {ParseFailed, ResourceLimit}
  {
    if n > 0 {
      TallyErrors(batches, n - 1, schema, rows, memory, usizeMax, cap);
    }
  }

  /** A first delta opens a source exactly if it starts at the first batch and counts its batches right. */
  lemma FirstDeltaExactly(d: Delta)
    ensures var r := FromDelta(d);
            && (r.Ok? <==> && d.batchStart == 0 && Build(true, d.schema, d.batches, d.limits, d.exact).Ok?
                           && d.cumulativeRows == Rows(d.batches) && d.cumulativeDecodedBytes == MemoryOf(d.batches))
            && (r.Ok? ==> r == Build(true, d.schema, d.batches, d.limits, d.exact))
  {
    BuildExactly(true, d.schema, d.batches, d.limits, d.exact);
    hide Build;
  }

  /** A later delta is taken exactly if it starts where the source ends, belongs to it, counts right and fits. */
  lemma AppendExactly(s: Source, d: Delta)
    requires SourceOk(s)
    ensures var r, rows, bytes := Appended(s, d), Rows(s.batches) + Rows(d.batches), s.decodedBytes + MemoryOf(d.batches);
            && (r.Ok? <==> && s.stream && d.batchStart == |s.batches| && d.schema == s.schema && d.limits == s.limits
                           && AllOf(d.batches, s.schema.id)
                           && (d.batches != [] ==> rows <= s.limits.usizeMax && bytes <= s.limits.usizeMax)
                           && d.cumulativeRows == rows && d.cumulativeDecodedBytes == bytes <= s.limits.maxDecodedBytes)
            && (r.Ok? ==> r.value == Source(true, s.schema, s.batches + d.batches, Offsets(s.batches + d.batches), bytes, d.exact, s.limits))
  {
    assert d.batches[..|d.batches|] == d.batches;
    TallyIsSum(d.batches, |d.batches|, s.schema.id, Rows(s.batches), s.decodedBytes, s.limits.usizeMax, None);
    if d.batches != [] {
      TallySucceeds(d.batches, |d.batches|, s.schema.id, Rows(s.batches), s.decodedBytes, s.limits.usizeMax, None);
    } else {
      assert Tally(d.batches, 0, s.schema.id, Rows(s.batches), s.decodedBytes, s.limits.usizeMax, None).Ok?;
    }
    hide Tally, SourceOk;
  }

  // ---------------------------------------------------------------- exactly-once publication

  /** The decoder's side of a Stream: what is decoded, and how much of it has been taken. */
  datatype Ingest = Ingest(schema: Schema, limits: Limits, batches: seq<Batch>, rows: nat, memory: nat, published: nat, announced: bool)

  datatype Step = Decode(batch: Batch) | Take | Complete

  /** The decoder and the source that its deltas have built. */
  datatype Publication = Publication(ingest: Ingest, source: Option<Source>, done: bool)

  predicate IngestOk(i: Ingest) {
    && i.schema.accepted && BatchesOk(i.batches, i.schema.id, i.schema.width)
    && i.rows == Rows(i.batches) <= i.limits.usizeMax
    && i.memory == MemoryOf(i.batches) <= Min(i.limits.maxDecodedBytes, i.limits.usizeMax)
    && i.published <= |i.batches| && (!i.announced ==> i.published == 0)
  }

  /** What `feed` checks before it keeps a decoded batch. */
  predicate MayDecode(i: Ingest, b: Batch) {
    && BatchOk(b, i.schema.id, i.schema.width) && i.rows + b.rows <= i.limits.usizeMax
    && i.memory + b.memory <= Min(i.limits.maxDecodedBytes, i.limits.usizeMax)
  }

  function Decoded(i: Ingest, b: Batch): Ingest {
    i.(batches := i.batches + [b], rows := i.rows + b.rows, memory := i.memory + b.memory)
  }

  /** The batches not yet taken, with the totals so far. */
  function Unpublished(i: Ingest, exact: bool): Delta
    requires i.published <= |i.batches|
  {
    Delta(i.schema, i.limits, i.published, i.batches[i.published..], i.rows, i.memory, exact)
  }

  /** `take_stream_delta`. */
  function Taken(i: Ingest): (Ingest, Option<Delta>)
    requires i.published <= |i.batches|
  {
    if i.announced && i.published == |i.batches| then (i, None)
    else
      (i.(published := |i.batches|, announced := true),
       Some(Unpublished(i, false)))
  }

  /** `take_completed_stream_delta`, of the source that the decoder completed. */
  function TakenAtEnd(i: Ingest): (Ingest, Delta)
    requires i.published <= |i.batches|
  {
    (i.(published := |i.batches|, announced := true), Unpublished(i, true))
  }

  function Applied(source: Option<Source>, d: Delta): Result<Source> {
    if source.None? then FromDelta(d) else Appended(source.value, d)
  }

  predicate Enabled(p: Publication, e: Step) {
    !p.done && p.ingest.published <= |p.ingest.batches| && (e.Decode? ==> MayDecode(p.ingest, e.batch))
  }

  function Next(p: Publication, e: Step): Result<Publication>
    requires Enabled(p, e)
  {
    match e
    case Decode(b) => Ok(p.(ingest := Decoded(p.ingest, b)))
    case Take =>
      var (i, d) := Taken(p.ingest);
      if d.None? then Ok(p)
      else
        var s :- Applied(p.source, d.value);
        Ok(p.(ingest := i, source := Some(s)))
    case Complete =>
      var (i, d) := TakenAtEnd(p.ingest);
      var s :- Applied(p.source, d);
      Ok(Publication(i, Some(s), true))
  }

  /** The published source is the source of the first `published` batches, in one go. */
  predicate PublicationOk(p: Publication) {
    && IngestOk(p.ingest)
    && (p.source.Some? <==> p.ingest.announced) && (p.done ==> p.ingest.announced && p.ingest.published == |p.ingest.batches|)
    && (p.source.Some? ==>
          Build(true, p.ingest.schema, p.ingest.batches[..p.ingest.published], p.ingest.limits, p.done) == Ok(p.source.value)
          && SourceOk(p.source.value))
  }

  /** A run of batches that fit gives its sums. */
  lemma {:induction false} TallyFits(batches: seq<Batch>, n: nat, schema: nat, rows: nat, memory: nat, usizeMax: nat, cap: Option<nat>)
    requires n <= |batches| && forall i :: 0 <= i < n ==> batches[i].schema == schema
    requires rows + RowsBefore(batches, n) <= usizeMax && memory + MemoryOf(batches[..n]) <= usizeMax
    requires cap.Some? ==> memory + MemoryOf(batches[..n]) <= cap.value
    ensures Tally(batches, n, schema, rows, memory, usizeMax, cap) == Ok((rows + RowsBefore(batches, n), memory + MemoryOf(batches[..n])))
  {
    if n > 0 {
      assert batches[..n][..n - 1] == batches[..n - 1];
      TallyFits(batches, n - 1, schema, rows, memory, usizeMax, cap);
    }
  }

  lemma BuildFits(stream: bool, schema: Schema, batches: seq<Batch>, limits: Limits, exact: bool)
    requires schema.accepted && BatchesOk(batches, schema.id, schema.width)
    requires Rows(batches) <= limits.usizeMax && MemoryOf(batches) <= Min(limits.maxDecodedBytes, limits.usizeMax)
    ensures Build(stream, schema, batches, limits, exact)
         == Ok(Source(stream, schema, batches, Offsets(batches), MemoryOf(batches), exact, limits))
  {
    assert batches[..|batches|] == batches;
    TallyFits(batches, |batches|, schema.id, 0, 0, limits.usizeMax, Some(limits.maxDecodedBytes));
  }

  lemma RestTally(i: Ingest, published: seq<Batch>, rest: seq<Batch>)
    requires IngestOk(i) && published + rest == i.batches
    ensures Tally(rest, |rest|, i.schema.id, Rows(published), MemoryOf(published), i.limits.usizeMax, None) == Ok((i.rows, i.memory))
  {
    hide Tally, RowsBefore, MemoryOf;
    RowsConcat(published, rest, |rest|);
    MemoryConcat(published, rest);
    assert rest[..|rest|] == rest;
    forall k | 0 <= k < |rest| ensures rest[k].schema == i.schema.id {
      assert rest[k] == i.batches[|published| + k];
    }
    TallyFits(rest, |rest|, i.schema.id, Rows(published), MemoryOf(published), i.limits.usizeMax, None);
  }

  lemma UnpublishedAppends(i: Ingest, s: Source, exact: bool)
    requires IngestOk(i) && SourceOk(s) && s.stream && s.schema == i.schema && s.limits == i.limits
    requires s.batches == i.batches[..i.published]
    ensures Appended(s, Unpublished(i, exact)) == Ok(Source(true, i.schema, i.batches, Offsets(i.batches), i.memory, exact, i.limits))
  {
    hide Tally, RowsBefore, MemoryOf, BatchesOk, BatchOk;
    var rest := i.batches[i.published..];
    assert s.batches + rest == i.batches;
    RestTally(i, s.batches, rest);
    hide Offsets;
  }

  /** A delta that carries all that is not yet published is accepted and completes the source. */
  lemma DeltaApplies(p: Publication, exact: bool)
    requires PublicationOk(p) && !p.done
    ensures var i := p.ingest;
            Applied(p.source, Unpublished(i, exact)) == Build(true, i.schema, i.batches, i.limits, exact)
            && Build(true, i.schema, i.batches, i.limits, exact).Ok?
  {
    hide Tally, Offsets, Appended;
    var i := p.ingest;
    BuildFits(true, i.schema, i.batches, i.limits, exact);
    if p.source.Some? {
      BuildKeepsInputs(true, i.schema, i.batches[..i.published], i.limits, p.done);
      UnpublishedAppends(i, p.source.value, exact);
    } else {
      assert i.batches[i.published..] == i.batches;
    }
  }

  lemma BuildKeepsInputs(stream: bool, schema: Schema, batches: seq<Batch>, limits: Limits, exact: bool)
    ensures var r := Build(stream, schema, batches, limits, exact);
            r.Ok? ==> r.value.stream == stream && r.value.schema == schema && r.value.batches == batches && r.value.limits == limits
  {
  }

  lemma DecodeKeeps(i: Ingest, b: Batch)
    requires IngestOk(i) && MayDecode(i, b)
    ensures IngestOk(Decoded(i, b)) && Decoded(i, b).batches[..i.published] == i.batches[..i.published]
  {
    RowsConcat(i.batches, [b], 1);
    MemoryConcat(i.batches, [b]);
  }

  /** Every step succeeds and keeps the published source in line. */
  lemma StepKeeps(p: Publication, e: Step)
    requires PublicationOk(p) && Enabled(p, e)
    ensures Next(p, e).Ok? && PublicationOk(Next(p, e).value)
  {
    match e
    case Decode(b) => DecodeKeeps(p.ingest, b);
    case Take =>
      DeltaApplies(p, false);
      hide Build, Applied, SourceOk;
      assert p.ingest.batches[..|p.ingest.batches|] == p.ingest.batches;
      BuildIsOk(true, p.ingest.schema, p.ingest.batches, p.ingest.limits, false);
    case Complete =>
      DeltaApplies(p, true);
      hide Build, Applied, SourceOk;
      assert p.ingest.batches[..|p.ingest.batches|] == p.ingest.batches;
      BuildIsOk(true, p.ingest.schema, p.ingest.batches, p.ingest.limits, true);
  }

  /** Taking a delta publishes all that is decoded, in a source that may still grow; if nothing is new it does nothing. */
  lemma TakePublishesAll(p: Publication)
    requires PublicationOk(p) && Enabled(p, Take)
    ensures Next(p, Take).Ok?
    ensures var c := Next(p, Take).value;
            && c.ingest.batches == p.ingest.batches && c.ingest.published == |p.ingest.batches| && c.ingest.announced && !c.done
            && c.source.Some? && c.source.value.batches == p.ingest.batches && !c.source.value.exact
            && (p.ingest.announced && p.ingest.published == |p.ingest.batches| ==> c == p)
  {
    StepKeeps(p, Take);
    var i := p.ingest;
    assert i.batches[..|i.batches|] == i.batches;
    BuildExactly(true, i.schema, i.batches, i.limits, false);
    if !(i.announced && i.published == |i.batches|) {
      DeltaApplies(p, false);
    }
    hide Build, SourceOk, IngestOk, Applied;
  }

  /** The last delta publishes all that is decoded, in a source that is final. */
  lemma CompletePublishesAll(p: Publication)
    requires PublicationOk(p) && Enabled(p, Complete)
    ensures Next(p, Complete).Ok?
    ensures var c := Next(p, Complete).value;
            && c.ingest.batches == p.ingest.batches && c.ingest.published == |p.ingest.batches| && c.done
            && c.source.Some? && c.source.value.batches == p.ingest.batches && c.source.value.exact
  {
    StepKeeps(p, Complete);
    DeltaApplies(p, true);
    BuildExactly(true, p.ingest.schema, p.ingest.batches, p.ingest.limits, true);
    hide Build, SourceOk, IngestOk, Applied;
  }

  predicate Follows(p: Publication, es: seq<Step>)
    decreases |es|
  {
    es == [] || (Enabled(p, es[0]) && Next(p, es[0]).Ok? && Follows(Next(p, es[0]).value, es[1..]))
  }

  function Run(p: Publication, es: seq<Step>): Publication
    requires Follows(p, es)
    decreases |es|
  {
    if es == [] then p else Run(Next(p, es[0]).value, es[1..])
  }

  /** The batches that a sequence of steps decodes. */
  function DecodedBy(es: seq<Step>): seq<Batch> {
    if es == [] then [] else (if es[0].Decode? then [es[0].batch] else []) + DecodedBy(es[1..])
  }

  lemma StepDecodes(p: Publication, e: Step)
    requires Enabled(p, e)
    ensures var n := Next(p, e);
            n.Ok? ==> && n.value.ingest.schema == p.ingest.schema && n.value.ingest.limits == p.ingest.limits
                      && n.value.ingest.batches == p.ingest.batches + if e.Decode? then [e.batch] else []
  {
    hide Applied;
  }

  lemma {:induction false} RunKeeps(p: Publication, es: seq<Step>)
    requires PublicationOk(p) && Follows(p, es)
    ensures PublicationOk(Run(p, es)) && Run(p, es).ingest.schema == p.ingest.schema && Run(p, es).ingest.limits == p.ingest.limits
    ensures Run(p, es).ingest.batches == p.ingest.batches + DecodedBy(es)
    decreases |es|
  {
    hide PublicationOk, IngestOk, Next, Enabled;
    if es != [] {
      StepKeeps(p, es[0]);
      StepDecodes(p, es[0]);
      RunKeeps(Next(p, es[0]).value, es[1..]);
    }
  }

  /**
   Exactly once: however decoding and taking deltas alternate, the deltas are all accepted and at the
   end have built what building from all decoded batches in one go gives.
   */
  lemma DeltasBuildTheSource(schema: Schema, limits: Limits, es: seq<Step>)
    requires schema.accepted
    requires var p := Publication(Ingest(schema, limits, [], 0, 0, 0, false), None, false); Follows(p, es) && Run(p, es).done
    ensures var p := Publication(Ingest(schema, limits, [], 0, 0, 0, false), None, false);
            Run(p, es).source.Some? && Build(true, schema, DecodedBy(es), limits, true) == Ok(Run(p, es).source.value)
  {
    var p := Publication(Ingest(schema, limits, [], 0, 0, 0, false), None, false);
    RunKeeps(p, es);
    var end := Run(p, es);
    assert end.ingest.batches == DecodedBy(es);
    assert end.ingest.batches[..end.ingest.published] == end.ingest.batches;
  }
}
