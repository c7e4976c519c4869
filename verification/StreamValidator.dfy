/**
 `StreamWireValidator` as the object it is in `src/arrow.rs`: fields that `feed` updates while
 its cursor runs over one chunk.  The methods are tied to the functions of `StreamWire`.

 A failed `feed` leaves the fields as they were when the error arose; the caller drops the
 validator then, so nothing is claimed about them.
 */
module StreamValidator {
  import opened Common
  import opened StreamWire
  import opened StreamReference

  /** The account of a loop that has handled the buffers in `done`, given the account of the others. */
  function Resumed(done: seq<Pending>, rest: Result<Account>): Result<Account> {
    if rest.Err? then rest else Ok(rest.value.(pending := done + rest.value.pending))
  }

  lemma ResumeOne(limits: Limits, ps: seq<Pending>, i: nat, done: seq<Pending>, fragment: seq<byte>, start: nat,
                  declared: nat, decoded: nat)
    requires i < |ps|
    ensures Resumed(done, AccountFragment(limits, ps[i..], fragment, start, declared, decoded)) ==
            var head := ChargeOne(limits, ps[i], fragment, start, declared, decoded);
            if head.Err? then Err(head.error)
            else Resumed(done + [head.value.0],
                         AccountFragment(limits, ps[i + 1..], fragment, start, head.value.1, head.value.2))
  {
    hide ChargeOne;
    assert ps[i..][1..] == ps[i + 1..];
    var head := ChargeOne(limits, ps[i], fragment, start, declared, decoded);
    if head.Ok? {
      var rest := AccountFragment(limits, ps[i + 1..], fragment, start, head.value.1, head.value.2);
      if rest.Ok? {
        assert done + ([head.value.0] + rest.value.pending) == done + [head.value.0] + rest.value.pending;
      }
    }
  }

  lemma NothingToAccount(limits: Limits, fragment: seq<byte>, start: nat, declared: nat, decoded: nat)
    ensures AccountFragment(limits, [], fragment, start, declared, decoded) == Ok(Account([], declared, decoded))
  {
  }

  class StreamWireValidator {
    var state: State
    var schemaSeen: bool
    var declaredDecompressedBytes: nat
    var retainedRecordBodyBytes: nat
    var retainedDictionaryBodyBytes: nat
    var dictionaryBytes: map<int, nat>

    ghost function View(): Wire
      reads this
    {
      Wire(state, Totals(schemaSeen, declaredDecompressedBytes, retainedRecordBodyBytes, retainedDictionaryBodyBytes,
                         dictionaryBytes))
    }

    constructor ()
      ensures View() == INITIAL
    {
      state := HEADER;
      schemaSeen := false;
      declaredDecompressedBytes, retainedRecordBodyBytes, retainedDictionaryBodyBytes := 0, 0, 0;
      dictionaryBytes := map[];
    }

    /** Copies the overlap of one fragment into one prefix. */
    static method CopyPrefix(p: Pending, fragment: seq<byte>, start: nat) returns (q: Pending)
      ensures q == Absorb(p, fragment, start)
    {
      q := p;
      var fragmentEnd := start + |fragment|;
      var overlapStart := Max(start, p.spec.offset);
      var overlapEnd := Min(fragmentEnd, p.spec.offset + 8);
      if overlapStart < overlapEnd {
        var destination := overlapStart - p.spec.offset;
        var length := overlapEnd - overlapStart;
        var copied := fragment[overlapStart - start..overlapEnd - start];
        var prefix := p.prefix[..destination] + copied + p.prefix[destination + length..];
        CopiedIsAbsorbed(p, fragment, start, overlapStart, overlapEnd);
        q := q.(prefix := prefix, prefixRead := Max(p.prefixRead, destination + length));
      } else {
        assert q.prefix == Absorb(p, fragment, start).prefix;
      }
    }

    static lemma CopiedIsAbsorbed(p: Pending, fragment: seq<byte>, start: nat, first: nat, end: nat)
      requires first == Max(start, p.spec.offset) < end == Min(start + |fragment|, p.spec.offset + 8)
      ensures p.prefix[..first - p.spec.offset] + fragment[first - start..end - start] + p.prefix[end - p.spec.offset..]
           == Absorb(p, fragment, start).prefix
    {
    }

    /** One pending buffer: its prefix grows by what the fragment holds of it, and is charged once it is complete. */
    method ChargeBuffer(limits: Limits, pending: Pending, fragment: seq<byte>, start: nat, decoded: nat)
      returns (r: Result<(Pending, nat)>)
      modifies this`declaredDecompressedBytes
      ensures var spec := ChargeOne(limits, pending, fragment, start, old(declaredDecompressedBytes), decoded);
              if spec.Err? then r == Err(spec.error)
              else r == Ok((spec.value.0, spec.value.2)) && declaredDecompressedBytes == spec.value.1
    {
      if pending.accounted {
        return Ok((pending, decoded));
      }
      var buffer := CopyPrefix(pending, fragment, start);
      if buffer.prefixRead != 8 {
        return Ok((buffer, decoded));
      }
      var bytes := DeclaredBytes(buffer.prefix, buffer.spec, limits.wordMax);
      if bytes.Err? {
        return Err(bytes.error);
      }
      var next := Reserve(declaredDecompressedBytes, bytes.value, limits);
      if next.Err? {
        return Err(next.error);
      }
      if decoded + bytes.value > limits.wordMax {
        return Err(ResourceLimit);
      }
      declaredDecompressedBytes := next.value;
      return Ok((buffer.(accounted := true), decoded + bytes.value));
    }

    /** The loop over the compressed buffers of the current message for one body fragment. */
    method AccountBody(limits: Limits, pending: seq<Pending>, fragment: seq<byte>, start: nat, decoded: nat)
      returns (r: Result<(seq<Pending>, nat)>)
      modifies this`declaredDecompressedBytes
      ensures var spec := AccountFragment(limits, pending, fragment, start, old(declaredDecompressedBytes), decoded);
              if spec.Err? then r == Err(spec.error)
              else r == Ok((spec.value.pending, spec.value.decoded)) && declaredDecompressedBytes == spec.value.declared
    {
      hide AccountFragment, ChargeOne;
      var buffers := pending;
      var decodedBytes: nat, i: nat := decoded, 0;
      ghost var spec := AccountFragment(limits, pending, fragment, start, declaredDecompressedBytes, decoded);
      assert pending[0..] == pending && buffers[..0] == [];
      assert spec.Ok? ==> [] + spec.value.pending == spec.value.pending;
      while i < |buffers|
        invariant i <= |buffers| == |pending|
        invariant buffers[i..] == pending[i..]
        invariant spec == Resumed(buffers[..i], AccountFragment(limits, pending[i..], fragment, start,
                                                                declaredDecompressedBytes, decodedBytes))
      {
        ResumeOne(limits, pending, i, buffers[..i], fragment, start, declaredDecompressedBytes, decodedBytes);
        assert buffers[i] == buffers[i..][0] == pending[i];
        var charged := ChargeBuffer(limits, buffers[i], fragment, start, decodedBytes);
        if charged.Err? {
          return Err(charged.error);
        }
        var (buffer, total) := charged.value;
        decodedBytes := total;
        ghost var before := buffers;
        buffers := buffers[i := buffer];
        assert buffers[..i + 1] == before[..i] + [buffer];
        assert buffers[i + 1..] == before[i..][1..] == pending[i..][1..] == pending[i + 1..];
        i := i + 1;
      }
      assert buffers[..i] == buffers && pending[i..] == [] && buffers + [] == buffers;
      NothingToAccount(limits, fragment, start, declaredDecompressedBytes, decodedBytes);
      return Ok((buffers, decodedBytes));
    }

    /** `record_completed_message`: also what stays unchanged when it fails. */
    method RecordCompletedMessage(env: Env, kind: Kind, decoded: nat) returns (r: Result<()>)
      modifies this`retainedRecordBodyBytes, this`retainedDictionaryBodyBytes, this`dictionaryBytes
      ensures var spec := Complete(env, old(View()).totals, kind, decoded);
              if spec.Err? then r == Err(spec.error) && View() == old(View())
              else r == Ok(()) && View() == old(View()).(totals := spec.value)
    {
      match kind {
        case NoKind =>
        case Record =>
          if retainedRecordBodyBytes + decoded > env.limits.wordMax {
            return Err(ResourceLimit);
          }
          retainedRecordBodyBytes := retainedRecordBodyBytes + decoded;
        case DictionaryKind(id, isDelta) =>
          var previous := if id in dictionaryBytes then dictionaryBytes[id] else 0;
          var current := decoded;
          if isDelta {
            current := previous + decoded;
            if current > env.limits.wordMax {
              return Err(ResourceLimit);
            }
          }
          if retainedDictionaryBodyBytes + decoded > env.limits.wordMax {
            return Err(ResourceLimit);
          }
          retainedDictionaryBodyBytes := retainedDictionaryBodyBytes + decoded;
          dictionaryBytes := dictionaryBytes[id := current];
      }
      return Ok(());
    }

    /** One turn of the loop in `feed` in the header state. */
    method TakeHeader(env: Env, piece: seq<byte>) returns (r: Result<()>)
      requires state.HeaderState? && piece != [] && |piece| <= Wanted(state)
      modifies this`state
      ensures Turned(r, Take(env, old(View()), piece))
    {
      hide LittleEndian, AfterBody, AfterMetadata;
      var header, target := state.bytes + piece, state.target;
      if |header| < target {
        state := HeaderState(header, target);
        return Ok(());
      }
      if target == 4 && header == MAGIC {
        return Err(ParseFailed);
      }
      if target == 4 && header == CONTINUATION {
        state := HeaderState(header, 8);
        return Ok(());
      }
      var lengthOffset := if target == 8 then 4 else 0;
      var metadataLength := LittleEndian(header[lengthOffset..lengthOffset + 4]);
      assert header[lengthOffset..lengthOffset + 4] == header[|header| - 4..];
      if metadataLength == 0 {
        state := FinishedState;
        return Ok(());
      }
      if metadataLength > env.limits.maxMetadataBytes {
        return Err(ResourceLimit);
      }
      state := MetadataState([], metadataLength);
      return Ok(());
    }

    method TakeMetadata(env: Env, piece: seq<byte>) returns (r: Result<()>)
      requires state.MetadataState? && piece != [] && |piece| <= Wanted(state)
      modifies this
      ensures Turned(r, Take(env, old(View()), piece))
    {
      hide AfterBody, AfterHeader;
      var metadata, target := state.bytes + piece, state.target;
      if |metadata| < target {
        state := MetadataState(metadata, target);
        return Ok(());
      }
      var validated := Validate(env, metadata, schemaSeen);
      if validated.Err? {
        return Err(validated.error);
      }
      var v := validated.value;
      if v.isSchema {
        schemaSeen := true;
      }
      if v.bodyLength == 0 {
        state := HEADER;
        r := RecordCompletedMessage(env, v.kind, 0);
      } else {
        FreshTracked(v.specs, v.bodyLength);
        state := BodyState(|metadata|, v.bodyLength, 0, Fresh(v.specs), v.kind, if v.compressed then 0 else v.bodyLength);
        r := Ok(());
      }
    }

    method TakeBody(env: Env, piece: seq<byte>) returns (r: Result<()>)
      requires state.BodyState? && piece != [] && |piece| <= Wanted(state)
      modifies this
      ensures Turned(r, Take(env, old(View()), piece))
    {
      hide AfterMetadata, AfterHeader;
      var s := state;
      var accounted := AccountBody(env.limits, s.pending, piece, s.consumed, s.decoded);
      if accounted.Err? {
        return Err(accounted.error);
      }
      var (pending, decoded) := accounted.value;
      AccountTracks(env.limits, s.pending, piece, s.consumed, old(declaredDecompressedBytes), s.decoded);
      if |piece| == s.remaining {
        if exists i :: 0 <= i < |pending| && !pending[i].accounted {
          return Err(ParseFailed);
        }
        state := HEADER;
        r := RecordCompletedMessage(env, s.kind, decoded);
      } else {
        state := BodyState(s.metadataLength, s.remaining - |piece|, s.consumed + |piece|, pending, s.kind, decoded);
        r := Ok(());
      }
    }

    /** The fields after one loop turn are those of the function `Take`. */
    ghost predicate Turned(r: Result<()>, spec: Result<Wire>)
      reads this
    {
      if spec.Err? then r == Err(spec.error) else r == Ok(()) && View() == spec.value
    }

    /** `feed`: one chunk. */
    method FeedChunk(env: Env, bytes: seq<byte>) returns (r: Result<()>)
      modifies this
      ensures Turned(r, Feed(env, old(View()), bytes))
    {
      hide Take;
      var cursor := 0;
      ghost var spec := Feed(env, View(), bytes);
      assert bytes[0..] == bytes;
      while cursor < |bytes|
        invariant cursor <= |bytes|
        invariant Feed(env, View(), bytes[cursor..]) == spec
      {
        if state.FinishedState? {
          return Err(ParseFailed);
        }
        var take := Min(Wanted(state), |bytes| - cursor);
        var piece := bytes[cursor..cursor + take];
        assert bytes[cursor..][..take] == piece && bytes[cursor..][take..] == bytes[cursor + take..];
        match state {
          case HeaderState(_, _) => r := TakeHeader(env, piece);
          case MetadataState(_, _) => r := TakeMetadata(env, piece);
          case BodyState(_, _, _, _, _, _) => r := TakeBody(env, piece);
        }
        if r.Err? {
          return r;
        }
        cursor := cursor + take;
      }
      assert bytes[cursor..] == [];
      return Ok(());
    }

    /** `finish` changes nothing; with `FeedChunk` it decides the whole stream. */
    method FinishStream() returns (r: Result<()>)
      ensures r == if Finish(View()).Err? then Err(Finish(View()).error) else Ok(())
    {
      if !schemaSeen {
        return Err(ParseFailed);
      }
      match state {
        case FinishedState => return Ok(());
        case HeaderState(bytes, target) => return if bytes == [] && target == 4 then Ok(()) else Err(ParseFailed);
        case _ => return Err(ParseFailed);
      }
    }
  }

  /**
   The whole life of a validator: `chunks` in order, then `finish`.  The verdict is that of the
   whole-buffer reader, and an accepted stream leaves the reader's totals in the fields.
   */
  method ValidateStream(env: Env, chunks: seq<seq<byte>>) returns (accepted: bool, wire: StreamWireValidator)
    requires env.limits.Fits()
    ensures fresh(wire)
    ensures var parsed := Parse(env, NO_TOTALS, Flatten(chunks));
            && (accepted <==> parsed.Some? && parsed.value.schemaSeen)
            && (accepted ==> wire.View().totals == parsed.value)
  {
    wire := new StreamWireValidator();
    accepted := true;
    var i := 0;
    ghost var spec := FeedChunks(env, INITIAL, chunks);
    AcceptsExactlyTheFormat(env, chunks);
    assert chunks[0..] == chunks;
    while i < |chunks|
      invariant i <= |chunks|
      invariant FeedChunks(env, wire.View(), chunks[i..]) == spec
    {
      assert chunks[i..][1..] == chunks[i + 1..];
      var r := wire.FeedChunk(env, chunks[i]);
      if r.Err? {
        return false, wire;
      }
      i := i + 1;
    }
    var r := wire.FinishStream();
    accepted := r.Ok?;
  }
}
