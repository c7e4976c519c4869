/**
 The stream validator against a whole-buffer reading of the encapsulated message format.

 `Parse` reads a complete stream message by message with absolute offsets and one-shot
 prefix reads.  It has no notion of a chunk, a partial header or a pending prefix.
 */
module StreamReference {
  import opened Common
  import opened StreamWire

  /** `finish`: a stream may stop after its end marker or between two messages. */
  predicate AtBoundary(s: State) {
    s.FinishedState? || s == HEADER
  }

  function Finish(w: Wire): Result<Totals> {
    if !w.totals.schemaSeen then Err(ParseFailed)
    else if AtBoundary(w.state) then Ok(w.totals)
    else Err(ParseFailed)
  }

  /** The length of the header word at the start of `bytes`: with or without a continuation marker. */
  function HeaderLength(bytes: seq<byte>): nat {
    if |bytes| >= 4 && bytes[..4] == CONTINUATION then 8 else 4
  }

  /** The totals after a message whose whole body is at hand. */
  function ReadBody(env: Env, t: Totals, v: Validation, body: seq<byte>): (r: Option<Totals>)
    requires Placed(v.specs, v.bodyLength) && |body| == v.bodyLength
  {
    var declared := Preflight(env.limits, v.specs, body, t.declared);
    if declared.Err? then None
    else
      var decoded := if v.compressed then declared.value - t.declared else v.bodyLength;
      var done := Complete(env, t.(declared := declared.value), v.kind, decoded);
      if done.Err? then None else Some(done.value)
  }

  /** Reads one whole message; the result is the offset behind it and the totals after it. */
  function ParseMessage(env: Env, t: Totals, bytes: seq<byte>, start: nat, length: nat): (r: Option<(nat, Totals)>)
    requires env.limits.Fits() && start + length <= |bytes|
    ensures r.Some? ==> start + length <= r.value.0 <= |bytes|
  {
    var v := Validate(env, bytes[start..start + length], t.schemaSeen);
    if v.Err? || start + length + v.value.bodyLength > |bytes| then None
    else
      var end := start + length + v.value.bodyLength;
      var done := ReadBody(env, t.(schemaSeen := t.schemaSeen || v.value.isSchema), v.value, bytes[start + length..end]);
      if done.None? then None else Some((end, done.value))
  }

  /** Reads a whole stream. */
  function Parse(env: Env, t: Totals, bytes: seq<byte>): Option<Totals>
    requires env.limits.Fits()
    decreases |bytes|
  {
    if bytes == [] then Some(t)
    else
      var start := HeaderLength(bytes);
      if |bytes| < start || bytes[..4] == MAGIC then None
      else
        var length := LittleEndian(bytes[start - 4..start]);
        if length == 0 then (if |bytes| == start then Some(t) else None)
        else if length > env.limits.maxMetadataBytes || start + length > |bytes| then None
        else
          match ParseMessage(env, t, bytes, start, length)
          case None => None
          case Some((end, t')) => Parse(env, t', bytes[end..])
  }

  /** What feeding the rest of a stream comes to: its totals, or nothing if it is rejected. */
  function Outcome(r: Result<Wire>): Option<Totals> {
    if r.Ok? && AtBoundary(r.value.state) then Some(r.value.totals) else None
  }

  /** One state either sees its last byte, and then one `Take` is made, or the stream ends inside it. */
  lemma Stage(env: Env, w: Wire, input: seq<byte>)
    requires !w.state.FinishedState? && (input != [] || w.state != HEADER)
    ensures var wanted := Wanted(w.state);
            Outcome(Feed(env, w, input)) ==
            if |input| < wanted then None
            else
              var next := Take(env, w, input[..wanted]);
              if next.Err? then None
              else Outcome(Feed(env, next.value, input[wanted..]))
  {
    if |input| < Wanted(w.state) && input != [] {
      assert input[..|input|] == input && input[|input|..] == [];
      var next := Take(env, w, input);
      if next.Ok? {
        assert Feed(env, next.value, []) == next;
      }
    }
  }

  /** The body state that `AfterValidation` enters. */
  function EnterBody(v: Validation, metadataLength: nat, t: Totals): Wire
    requires Placed(v.specs, v.bodyLength) && 0 < v.bodyLength
  {
    FreshTracked(v.specs, v.bodyLength);
    Wire(BodyState(metadataLength, v.bodyLength, 0, Fresh(v.specs), v.kind, if v.compressed then 0 else v.bodyLength), t)
  }

  lemma BodyStage(env: Env, t: Totals, v: Validation, metadataLength: nat, body: seq<byte>)
    requires env.limits.Fits()
    requires Placed(v.specs, v.bodyLength) && 0 < v.bodyLength == |body| && (!v.compressed ==> v.specs == [])
    ensures var taken := Take(env, EnterBody(v, metadataLength, t), body);
            match ReadBody(env, t, v, body)
            case None => taken.Err?
            case Some(t') => taken == Ok(Wire(HEADER, t'))
  {
    WholeBody(env, t, v.specs, body, if v.compressed then 0 else v.bodyLength);
  }

  lemma WholeBody(env: Env, t: Totals, specs: seq<Spec>, body: seq<byte>, decoded: nat)
    requires env.limits.Fits() && Placed(specs, |body|) && (specs != [] ==> decoded == 0)
    ensures var a := AccountFragment(env.limits, Fresh(specs), body, 0, t.declared, decoded);
            var p := Preflight(env.limits, specs, body, t.declared);
            if p.Err? then a.Err?
            else a.Ok? && a.value.declared == p.value
                 && a.value.decoded == decoded + p.value - t.declared
                 && !(exists i :: 0 <= i < |a.value.pending| && !a.value.pending[i].accounted)
  {
    if specs != [] {
      FreshTracked(specs, |body|);
      AccountWholeBody(env.limits, specs, body, t.declared, 0);
      AccountTracks(env.limits, Fresh(specs), body, 0, t.declared, 0);
      var a := AccountFragment(env.limits, Fresh(specs), body, 0, t.declared, 0);
      if a.Ok? {
        NothingLeftOpen(a.value.pending, |body|);
      }
    }
  }

  lemma EnterBodyStage(env: Env, t: Totals, v: Validation, metadataLength: nat, input: seq<byte>)
    requires env.limits.Fits()
    requires Placed(v.specs, v.bodyLength) && 0 < v.bodyLength && (!v.compressed ==> v.specs == [])
    ensures Outcome(Feed(env, EnterBody(v, metadataLength, t), input)) ==
            if |input| < v.bodyLength then None
            else match ReadBody(env, t, v, input[..v.bodyLength])
              case None => None
              case Some(t') => Outcome(Feed(env, Wire(HEADER, t'), input[v.bodyLength..]))
  {
    Stage(env, EnterBody(v, metadataLength, t), input);
    if |input| >= v.bodyLength {
      BodyStage(env, t, v, metadataLength, input[..v.bodyLength]);
    }
  }

  /** A validated message with the bytes behind its metadata, read whole. */
  function ReadRest(env: Env, t: Totals, v: Validation, rest: seq<byte>): Option<Totals>
    requires Placed(v.specs, v.bodyLength)
  {
    if |rest| < v.bodyLength then None
    else
      ReadBody(env, t.(schemaSeen := t.schemaSeen || v.isSchema), v, rest[..v.bodyLength])
  }

  lemma EmptyBody(env: Env, t: Totals, v: Validation, metadataLength: nat, rest: seq<byte>)
    requires Placed(v.specs, v.bodyLength) && v.bodyLength == 0
    ensures var next := AfterValidation(env, t, v, metadataLength);
            match ReadRest(env, t, v, rest)
            case None => next.Err?
            case Some(done) => next == Ok(Wire(HEADER, done))
  {
    assert |v.specs| == 0 || v.specs[0].length >= 8;
  }

  /** What the automaton makes of the bytes behind the metadata, given the state that follows the metadata. */
  lemma AfterValidationStage(env: Env, t: Totals, v: Validation, metadataLength: nat, rest: seq<byte>, next: Result<Wire>)
    requires env.limits.Fits()
    requires Placed(v.specs, v.bodyLength) && (!v.compressed ==> v.specs == [])
    requires next == AfterValidation(env, t, v, metadataLength)
    ensures (if next.Err? then None else Outcome(Feed(env, next.value, rest)))
            == var done := ReadRest(env, t, v, rest);
               if done.None? then None else Outcome(Feed(env, Wire(HEADER, done.value), rest[v.bodyLength..]))
  {
    if v.bodyLength > 0 {
      var t' := t.(schemaSeen := t.schemaSeen || v.isSchema);
      assert next == Ok(EnterBody(v, metadataLength, t'));
      EnterBodyStage(env, t', v, metadataLength, rest);
    } else {
      EmptyBody(env, t, v, metadataLength, rest);
      assert rest[0..] == rest;
    }
  }

  lemma TakeMetadata(env: Env, t: Totals, metadata: seq<byte>)
    requires env.limits.Fits()
    requires 0 < |metadata|
    ensures Take(env, Wire(MetadataState([], |metadata|), t), metadata) == AfterMetadata(env, t, metadata)
  {
    assert [] + metadata == metadata;
  }

  /** The outcome when feeding continues after a parsed message. */
  function Continue(env: Env, parsed: Option<(nat, Totals)>, bytes: seq<byte>): Option<Totals>
    requires parsed.Some? ==> parsed.value.0 <= |bytes|
  {
    if parsed.None? then None else Outcome(Feed(env, Wire(HEADER, parsed.value.1), bytes[parsed.value.0..]))
  }

  lemma MessageRest(env: Env, t: Totals, bytes: seq<byte>, start: nat, length: nat, v: Validation)
    requires env.limits.Fits() && start + length <= |bytes|
    requires Validate(env, bytes[start..start + length], t.schemaSeen) == Ok(v)
    ensures ParseMessage(env, t, bytes, start, length) ==
            var done := ReadRest(env, t, v, bytes[start + length..]);
            if done.None? then None else Some((start + length + v.bodyLength, done.value))
  {
    var end := start + length + v.bodyLength;
    if end <= |bytes| {
      assert bytes[start + length..][..v.bodyLength] == bytes[start + length..end];
    }
  }

  /** `Stage` for a state that sees its last byte. */
  lemma StageWith(env: Env, w: Wire, piece: seq<byte>, rest: seq<byte>, next: Result<Wire>)
    requires !w.state.FinishedState? && |piece| == Wanted(w.state) && next == Take(env, w, piece)
    ensures Outcome(Feed(env, w, piece + rest)) == if next.Err? then None else Outcome(Feed(env, next.value, rest))
  {
    Stage(env, w, piece + rest);
    assert (piece + rest)[..|piece|] == piece && (piece + rest)[|piece|..] == rest;
  }

  lemma ValidatedStage(env: Env, t: Totals, v: Validation, bytes: seq<byte>, at: nat, metadataLength: nat,
                       next: Result<Wire>, parsed: Option<(nat, Totals)>)
    requires env.limits.Fits() && at <= |bytes|
    requires Placed(v.specs, v.bodyLength) && (!v.compressed ==> v.specs == [])
    requires next == AfterValidation(env, t, v, metadataLength)
    requires parsed == var done := ReadRest(env, t, v, bytes[at..]);
                       if done.None? then None else Some((at + v.bodyLength, done.value))
    ensures parsed.Some? ==> parsed.value.0 <= |bytes|
    ensures (if next.Err? then None else Outcome(Feed(env, next.value, bytes[at..]))) == Continue(env, parsed, bytes)
  {
    hide Feed;
    var rest := bytes[at..];
    AfterValidationStage(env, t, v, metadataLength, rest, next);
    if |rest| >= v.bodyLength {
      assert rest[v.bodyLength..] == bytes[at + v.bodyLength..];
    }
  }

  lemma MessageStage(env: Env, t: Totals, bytes: seq<byte>, start: nat, length: nat,
                     w: Wire, parsed: Option<(nat, Totals)>)
    requires env.limits.Fits() && 0 < length && start + length <= |bytes|
    requires w == Wire(MetadataState([], length), t) && parsed == ParseMessage(env, t, bytes, start, length)
    ensures Outcome(Feed(env, w, bytes[start..])) == Continue(env, parsed, bytes)
  {
    hide Feed, Take, Validate;
    var metadata, rest := bytes[start..start + length], bytes[start + length..];
    assert bytes[start..] == metadata + rest;
    TakeMetadata(env, t, metadata);
    var next := AfterMetadata(env, t, metadata);
    StageWith(env, w, metadata, rest, next);
    var v := Validate(env, metadata, t.schemaSeen);
    if v.Ok? {
      MessageRest(env, t, bytes, start, length, v.value);
      ValidatedStage(env, t, v.value, bytes, start + length, length, next, parsed);
    }
  }

  function WithTotals(next: Result<State>, t: Totals): Result<Wire> {
    if next.Err? then Err(next.error) else Ok(Wire(next.value, t))
  }

  /** From a message boundary, what the automaton concludes is what the whole-buffer reader concludes. */
  lemma {:induction false} FeedIsParse(env: Env, t: Totals, bytes: seq<byte>)
    requires env.limits.Fits()
    ensures Outcome(Feed(env, Wire(HEADER, t), bytes)) == Parse(env, t, bytes)
    decreases |bytes|
  {
    hide Take, ParseMessage, LittleEndian, AfterHeader;
    if bytes == [] {
      return;
    }
    var w := Wire(HEADER, t);
    Stage(env, w, bytes);
    if |bytes| >= 4 {
      TakeWord(env, t, bytes);
      if bytes[..4] == CONTINUATION {
        Stage(env, Wire(HeaderState(CONTINUATION, 8), t), bytes[4..]);
        if |bytes| >= 8 {
          assert bytes[4..][..4] == bytes[4..8] && bytes[4..][4..] == bytes[8..];
          HeaderIsParse(env, t, bytes, 8);
        }
      } else {
        HeaderIsParse(env, t, bytes, 4);
      }
    }
  }

  lemma TakeWord(env: Env, t: Totals, bytes: seq<byte>)
    requires |bytes| >= 4
    ensures Take(env, Wire(HEADER, t), bytes[..4]) == WithTotals(AfterHeader(env, bytes[..4]), t)
    ensures bytes[..4] == CONTINUATION ==> AfterHeader(env, bytes[..4]) == Ok(HeaderState(CONTINUATION, 8))
    ensures bytes[..4] == CONTINUATION && |bytes| >= 8 ==>
              Take(env, Wire(HeaderState(CONTINUATION, 8), t), bytes[4..8])
              == WithTotals(AfterHeader(env, bytes[..8]), t)
  {
    hide LittleEndian, AfterBody, AfterMetadata;
    assert [] + bytes[..4] == bytes[..4];
    if bytes[..4] == CONTINUATION && |bytes| >= 8 {
      assert CONTINUATION + bytes[4..8] == bytes[..8];
    }
  }

  lemma {:induction false} HeaderIsParse(env: Env, t: Totals, bytes: seq<byte>, start: nat)
    requires env.limits.Fits()
    requires 4 <= start == HeaderLength(bytes) <= |bytes|
    ensures Parse(env, t, bytes) ==
            var next := AfterHeader(env, bytes[..start]);
            if next.Err? then None
            else Outcome(Feed(env, Wire(next.value, t), bytes[start..]))
    decreases |bytes|, 0
  {
    hide Feed, ParseMessage, Parse, AfterHeader, LittleEndian;
    var length := LittleEndian(bytes[start - 4..start]);
    if 0 < length <= env.limits.maxMetadataBytes && bytes[..4] != MAGIC {
      if start + length <= |bytes| {
        var parsed := ParseMessage(env, t, bytes, start, length);
        if parsed.Some? {
          FeedIsParse(env, parsed.value.1, bytes[parsed.value.0..]);
        }
      }
      MessageHeader(env, t, bytes, start, length);
    } else {
      EndOfStream(env, t, bytes, start);
    }
  }

  /** What the complete prefix of a message says. */
  lemma WholeHeader(env: Env, bytes: seq<byte>, start: nat)
    requires 4 <= start == HeaderLength(bytes) <= |bytes|
    ensures AfterHeader(env, bytes[..start])
         == var length := LittleEndian(bytes[start - 4..start]);
            if bytes[..4] == MAGIC then Err(ParseFailed)
            else if length == 0 then Ok(FinishedState)
            else if length > env.limits.maxMetadataBytes then Err(ResourceLimit)
            else Ok(MetadataState([], length))
  {
    hide LittleEndian;
    assert bytes[..start][start - 4..] == bytes[start - 4..start];
    assert bytes[..start][..4] == bytes[..4];
  }

  /** One turn of the parser. */
  lemma ParseOnce(env: Env, t: Totals, bytes: seq<byte>)
    requires env.limits.Fits() && 4 <= HeaderLength(bytes) <= |bytes|
    ensures var start := HeaderLength(bytes);
            var length := LittleEndian(bytes[start - 4..start]);
            Parse(env, t, bytes)
            == if bytes[..4] == MAGIC then None
               else if length == 0 then (if |bytes| == start then Some(t) else None)
               else if length > env.limits.maxMetadataBytes || start + length > |bytes| then None
               else
                 var parsed := ParseMessage(env, t, bytes, start, length);
                 if parsed.None? then None else Parse(env, parsed.value.1, bytes[parsed.value.0..])
  {
    hide ParseMessage, LittleEndian;
  }

  /** A header word that starts a message, given the claim for what follows that message. */
  lemma MessageHeader(env: Env, t: Totals, bytes: seq<byte>, start: nat, length: nat)
    requires env.limits.Fits()
    requires 4 <= start == HeaderLength(bytes) <= |bytes|
    requires length == LittleEndian(bytes[start - 4..start])
    requires 0 < length <= env.limits.maxMetadataBytes && bytes[..4] != MAGIC
    requires start + length <= |bytes| ==>
               var parsed := ParseMessage(env, t, bytes, start, length);
               parsed.Some? ==> Outcome(Feed(env, Wire(HEADER, parsed.value.1), bytes[parsed.value.0..]))
                                == Parse(env, parsed.value.1, bytes[parsed.value.0..])
    ensures Parse(env, t, bytes) ==
            var next := AfterHeader(env, bytes[..start]);
            if next.Err? then None
            else Outcome(Feed(env, Wire(next.value, t), bytes[start..]))
  {
    hide Feed, Take, ParseMessage, LittleEndian, Parse, AfterHeader;
    WholeHeader(env, bytes, start);
    ParseOnce(env, t, bytes);
    var w := Wire(MetadataState([], length), t);
    if start + length > |bytes| {
      Stage(env, w, bytes[start..]);
    } else {
      MessageStage(env, t, bytes, start, length, w, ParseMessage(env, t, bytes, start, length));
    }
  }

  /** A header word that starts no message either ends the stream or rejects it. */
  lemma EndOfStream(env: Env, t: Totals, bytes: seq<byte>, start: nat)
    requires env.limits.Fits()
    requires 4 <= start == HeaderLength(bytes) <= |bytes|
    requires var length := LittleEndian(bytes[start - 4..start]);
             length == 0 || length > env.limits.maxMetadataBytes || bytes[..4] == MAGIC
    ensures Parse(env, t, bytes) ==
            var next := AfterHeader(env, bytes[..start]);
            if next.Err? then None
            else Outcome(Feed(env, Wire(next.value, t), bytes[start..]))
  {
    hide Take, LittleEndian, ParseMessage, Parse, AfterHeader;
    WholeHeader(env, bytes, start);
    ParseOnce(env, t, bytes);
    assert start == |bytes| <==> bytes[start..] == [];
  }

  /** Feeds a stream chunk by chunk, stopping at the first error. */
  function FeedChunks(env: Env, w: Wire, chunks: seq<seq<byte>>): Result<Wire>
    decreases |chunks|
  {
    if chunks == [] then Ok(w)
    else
      var next :- Feed(env, w, chunks[0]);
      FeedChunks(env, next, chunks[1..])
  }

  /** Every split of a stream reaches the same state, totals and error as one feed of all its bytes. */
  lemma {:induction false} ChunkingIsIrrelevant(env: Env, w: Wire, chunks: seq<seq<byte>>)
    ensures FeedChunks(env, w, chunks) == Feed(env, w, Flatten(chunks))
    decreases |chunks|
  {
    if chunks != [] {
      FeedConcat(env, w, chunks[0], Flatten(chunks[1..]));
      var next := Feed(env, w, chunks[0]);
      if next.Ok? {
        ChunkingIsIrrelevant(env, next.value, chunks[1..]);
      }
    }
  }

  /**
   A stream fed in any chunks and then finished is accepted exactly when the whole-buffer
   reader accepts its bytes and saw a schema; the accepted totals are then the reader's.
   */
  lemma AcceptsExactlyTheFormat(env: Env, chunks: seq<seq<byte>>)
    requires env.limits.Fits()
    ensures var fed := FeedChunks(env, INITIAL, chunks);
            var parsed := Parse(env, NO_TOTALS, Flatten(chunks));
            && ((fed.Ok? && Finish(fed.value).Ok?) <==> (parsed.Some? && parsed.value.schemaSeen))
            && (fed.Ok? && Finish(fed.value).Ok? ==> Finish(fed.value).value == parsed.value)
  {
    ChunkingIsIrrelevant(env, INITIAL, chunks);
    FeedIsParse(env, NO_TOTALS, Flatten(chunks));
  }
}
