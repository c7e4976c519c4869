/**
 The framing validator for an Arrow IPC Stream (`StreamWireValidator` in `src/arrow.rs`).

 A stream is a run of encapsulated messages: an optional 0xFFFFFFFF continuation marker, a
 little-endian u32 metadata length, the FlatBuffer metadata and a body.  The validator
 receives the stream in arbitrary chunks and never keeps a body; for a compressed body it
 assembles the 8-byte length prefix of every buffer and charges the declared sizes.

 The FlatBuffer parse is the parameter `decode`; everything after it is modelled.
 */
module StreamWire {
  import opened Common

  // ---------------------------------------------------------------- messages and limits

  /** `wordMax` is `usize::MAX`, so that both 32-bit WebAssembly and 64-bit hosts are covered. */
  datatype Limits = Limits(maxMetadataBytes: nat, maxBlockBytes: nat, maxDecodedBytes: nat, wordMax: nat) {
    predicate Fits() {
      maxMetadataBytes <= wordMax && maxBlockBytes <= wordMax && maxDecodedBytes <= wordMax
    }
  }

  datatype BufferEntry = BufferEntry(offset: int, length: int)

  datatype Batch = Batch(compressed: bool, buffers: Option<seq<BufferEntry>>)

  datatype Dictionary = Dictionary(id: int, isDelta: bool, data: Option<Batch>)

  datatype Header =
    | SchemaHeader(nativeEndian: Option<bool>)
    | RecordHeader(batch: Option<Batch>)
    | DictionaryHeader(dictionary: Option<Dictionary>)
    | TensorHeader
    | OtherHeader

  datatype Message = Message(header: Header, bodyLength: int)

  datatype Env = Env(limits: Limits, decode: seq<byte> -> Option<Message>)

  datatype Kind = NoKind | Record | DictionaryKind(id: int, isDelta: bool)

  datatype BufferSpec = Spec(offset: nat, length: nat)

  /** A buffer that holds bytes holds at least its 8-byte prefix. */
  type Spec = s: BufferSpec | s.length >= 8 witness Spec(0, 8)

  datatype Validation = Validation(isSchema: bool, bodyLength: nat, specs: seq<Spec>, kind: Kind, compressed: bool)

  // ---------------------------------------------------------------- compressed buffer index

  predicate Bad(entry: BufferEntry, bodyLength: nat, wordMax: nat) {
    || entry.offset < 0 || entry.offset > wordMax || entry.length < 0 || entry.length > wordMax
    || (entry.length != 0 && (entry.length < 8 || entry.offset + entry.length > bodyLength))
  }

  function EntryError(entry: BufferEntry, wordMax: nat): ErrorCode {
    if entry.offset < 0 || entry.offset > wordMax || entry.length < 0 || entry.length > wordMax then ParseFailed
    else if entry.length < 8 then ParseFailed
    else if entry.offset + entry.length > wordMax then ResourceLimit
    else ParseFailed
  }

  /** The buffers of a compressed batch that hold bytes, in index order. */
  function Collect(entries: seq<BufferEntry>, bodyLength: nat, wordMax: nat): Result<seq<Spec>> {
    if entries == [] then Ok([])
    else
      var last := entries[|entries| - 1];
      var front :- Collect(entries[..|entries| - 1], bodyLength, wordMax);
      if Bad(last, bodyLength, wordMax) then Err(EntryError(last, wordMax))
      else if last.length == 0 then Ok(front)
      else Ok(front + [Spec(last.offset, last.length)])
  }

  function Insert(specs: seq<Spec>, x: Spec): seq<Spec> {
    if specs == [] || specs[|specs| - 1].offset <= x.offset then specs + [x]
    else Insert(specs[..|specs| - 1], x) + [specs[|specs| - 1]]
  }

  function SortByOffset(specs: seq<Spec>): seq<Spec> {
    if specs == [] then [] else Insert(SortByOffset(specs[..|specs| - 1]), specs[|specs| - 1])
  }

  predicate AdjacentDisjoint(specs: seq<Spec>) {
    forall i :: 0 <= i < |specs| - 1 ==> specs[i].offset + specs[i].length <= specs[i + 1].offset
  }

  predicate InBody(specs: seq<Spec>, bodyLength: nat) {
    forall i :: 0 <= i < |specs| ==> specs[i].offset + specs[i].length <= bodyLength
  }

  /** Every buffer is in the body and they lie in order without overlap. */
  predicate Placed(specs: seq<Spec>, bodyLength: nat) {
    && InBody(specs, bodyLength)
    && (forall i, j :: 0 <= i < j < |specs| ==> specs[i].offset + specs[i].length <= specs[j].offset)
  }

  function BatchOf(message: Message): Option<Batch> {
    match message.header
    case RecordHeader(batch) => batch
    case DictionaryHeader(Some(dictionary)) => dictionary.data
    case _ => None
  }

  function SpecsOf(message: Message, bodyLength: nat, wordMax: nat): (r: Result<seq<Spec>>)
    ensures r.Ok? ==> Placed(r.value, bodyLength)
  {
    match BatchOf(message)
    case None => Ok([])
    case Some(batch) =>
      if !batch.compressed then Ok([])
      else if batch.buffers.None? then Err(ParseFailed)
      else
        var collected :- Collect(batch.buffers.value, bodyLength, wordMax);
        var specs := SortByOffset(collected);
        CollectInBody(batch.buffers.value, bodyLength, wordMax);
        SortKeepsElements(collected);
        assert InBody(specs, bodyLength) by { MultisetKeepsInBody(collected, specs, bodyLength); }
        if AdjacentDisjoint(specs) then AdjacentIsPairwise(specs, bodyLength); Ok(specs)
        else Err(ParseFailed)
  }

  lemma {:induction false} CollectInBody(entries: seq<BufferEntry>, bodyLength: nat, wordMax: nat)
    ensures var r := Collect(entries, bodyLength, wordMax); r.Ok? ==> InBody(r.value, bodyLength)
  {
    if entries != [] {
      CollectInBody(entries[..|entries| - 1], bodyLength, wordMax);
    }
  }

  lemma {:induction false} InsertKeepsElements(specs: seq<Spec>, x: Spec)
    ensures multiset(Insert(specs, x)) == multiset(specs) + multiset{x}
  {
    if !(specs == [] || specs[|specs| - 1].offset <= x.offset) {
      InsertKeepsElements(specs[..|specs| - 1], x);
      assert specs == specs[..|specs| - 1] + [specs[|specs| - 1]];
    }
  }

  lemma {:induction false} SortKeepsElements(specs: seq<Spec>)
    ensures multiset(SortByOffset(specs)) == multiset(specs)
  {
    if specs != [] {
      var front, x := specs[..|specs| - 1], specs[|specs| - 1];
      SortKeepsElements(front);
      InsertKeepsElements(SortByOffset(front), x);
      assert specs == front + [x];
    }
  }

  lemma MultisetKeepsInBody(a: seq<Spec>, b: seq<Spec>, bodyLength: nat)
    requires multiset(a) == multiset(b) && InBody(a, bodyLength)
    ensures InBody(b, bodyLength)
  {
    forall i | 0 <= i < |b| ensures b[i].offset + b[i].length <= bodyLength {
      assert b[i] in multiset(b);
      assert b[i] in a;
    }
  }

  lemma {:induction false} AdjacentIsPairwise(specs: seq<Spec>, bodyLength: nat)
    requires InBody(specs, bodyLength) && AdjacentDisjoint(specs)
    ensures Placed(specs, bodyLength)
  {
    if specs != [] {
      var front := specs[..|specs| - 1];
      AdjacentIsPairwise(front, bodyLength);
      forall i, j | 0 <= i < j < |specs| ensures specs[i].offset + specs[i].length <= specs[j].offset {
        if j < |specs| - 1 {
          assert front[i].offset + front[i].length <= front[j].offset;
        } else if i < |specs| - 2 {
          assert front[i].offset + front[i].length <= front[j - 1].offset;
        }
      }
    }
  }

  // ---------------------------------------------------------------- message validation

  /** `validate_stream_message`: the checks run in source order. */
  function Validate(env: Env, metadata: seq<byte>, schemaSeen: bool): (r: Result<Validation>)
    ensures r.Ok? ==>
              && Placed(r.value.specs, r.value.bodyLength)
              && |metadata| + r.value.bodyLength <= env.limits.maxBlockBytes
              && (!r.value.compressed ==> r.value.specs == [])
  {
    match env.decode(metadata)
    case None => Err(ParseFailed)
    case Some(message) =>
      if message.header.TensorHeader? then Err(UnsupportedFeature)
      else if !schemaSeen && !message.header.SchemaHeader? then Err(ParseFailed)
      else if message.header.SchemaHeader? && (schemaSeen || message.header.nativeEndian.None?) then Err(ParseFailed)
      else if message.header.SchemaHeader? && !message.header.nativeEndian.value then Err(UnsupportedFeature)
      else if message.bodyLength < 0 || message.bodyLength > env.limits.wordMax then Err(ParseFailed)
      else if |metadata| + message.bodyLength > env.limits.wordMax then Err(ResourceLimit)
      else if |metadata| + message.bodyLength > env.limits.maxBlockBytes then Err(ResourceLimit)
      else
        var kind :- KindOf(message);
        var specs :- SpecsOf(message, message.bodyLength, env.limits.wordMax);
        Ok(Validation(message.header.SchemaHeader?, message.bodyLength, specs, kind,
                      BatchOf(message).Some? && BatchOf(message).value.compressed))
  }

  function KindOf(message: Message): Result<Kind> {
    match message.header
    case RecordHeader(batch) => if batch.None? then Err(ParseFailed) else Ok(Record)
    case DictionaryHeader(dictionary) =>
      if dictionary.None? || dictionary.value.data.None? then Err(ParseFailed)
      else Ok(DictionaryKind(dictionary.value.id, dictionary.value.isDelta))
    case _ => Ok(NoKind)
  }

  // ---------------------------------------------------------------- declared sizes

  const NO_PREFIX: seq<byte> := [0, 0, 0, 0, 0, 0, 0, 0]

  type Prefix = s: seq<byte> | |s| == 8 witness NO_PREFIX

  /** The signed 64-bit prefix: -1 means "stored uncompressed", other negatives are malformed. */
  function DeclaredBytes(prefix: Prefix, spec: Spec, wordMax: nat): Result<nat> {
    var raw := LittleEndian(prefix);
    if raw == 0xFFFF_FFFF_FFFF_FFFF then Ok(spec.length - 8)
    else if raw >= 0x8000_0000_0000_0000 then Err(ParseFailed)
    else if raw > wordMax then Err(ResourceLimit)
    else Ok(raw)
  }

  function Reserve(total: nat, bytes: nat, limits: Limits): Result<nat> {
    if total + bytes > limits.wordMax || total + bytes > limits.maxDecodedBytes then Err(ResourceLimit)
    else Ok(total + bytes)
  }

  /** `preflight_compressed_block` on one whole body: the prefixes are read in index order. */
  function Preflight(limits: Limits, specs: seq<Spec>, body: seq<byte>, declared: nat): (r: Result<nat>)
    requires Placed(specs, |body|)
    ensures r.Ok? ==> r.value >= declared
  {
    if specs == [] then Ok(declared)
    else
      var prefix := body[specs[0].offset..specs[0].offset + 8];
      var bytes :- DeclaredBytes(prefix, specs[0], limits.wordMax);
      var next :- Reserve(declared, bytes, limits);
      Preflight(limits, specs[1..], body, next)
  }

  // ---------------------------------------------------------------- prefix assembly

  datatype Pending = Pending(spec: Spec, prefix: Prefix, prefixRead: nat, accounted: bool)

  function Fresh(specs: seq<Spec>): (ps: seq<Pending>)
    ensures |ps| == |specs| && forall i :: 0 <= i < |specs| ==> ps[i] == Pending(specs[i], NO_PREFIX, 0, false)
  {
    seq(|specs|, i requires 0 <= i < |specs| => Pending(specs[i], NO_PREFIX, 0, false))
  }

  /** How much of the prefix of `spec` lies before body offset `at`. */
  function Reached(spec: Spec, at: nat): nat {
    if at <= spec.offset then 0 else if at >= spec.offset + 8 then 8 else at - spec.offset
  }

  /** The assembly state of every buffer agrees with the number of body bytes already seen. */
  predicate TrackedOne(p: Pending, at: nat) {
    && p.prefixRead == Reached(p.spec, at)
    && (p.accounted <==> p.prefixRead == 8)
  }

  predicate Tracked(ps: seq<Pending>, at: nat) {
    && (forall i :: 0 <= i < |ps| ==> TrackedOne(ps[i], at))
    && (forall i, j :: 0 <= i < j < |ps| ==> ps[i].spec.offset + 8 <= ps[j].spec.offset)
  }

  /** One prefix after a body fragment: position `k` takes body byte `offset + k` if the fragment holds it. */
  function Absorb(p: Pending, fragment: seq<byte>, start: nat): (q: Pending)
    ensures q.spec == p.spec && q.accounted == p.accounted
  {
    var end := Min(start + |fragment|, p.spec.offset + 8);
    p.(prefix := seq(8, k requires 0 <= k < 8 =>
                       if start <= p.spec.offset + k < start + |fragment| then fragment[p.spec.offset + k - start]
                       else p.prefix[k]),
       prefixRead := if Max(start, p.spec.offset) < end then Max(p.prefixRead, end - p.spec.offset) else p.prefixRead)
  }

  datatype Account = Account(pending: seq<Pending>, declared: nat, decoded: nat)

  /** One unaccounted buffer meets one fragment; a completed prefix is charged. */
  function ChargeOne(limits: Limits, p: Pending, fragment: seq<byte>, start: nat, declared: nat, decoded: nat)
    : (r: Result<(Pending, nat, nat)>)
    ensures r.Ok? ==> r.value.0.spec == p.spec
  {
    if p.accounted then Ok((p, declared, decoded))
    else
      var q := Absorb(p, fragment, start);
      if q.prefixRead != 8 then Ok((q, declared, decoded))
      else
        var bytes :- DeclaredBytes(q.prefix, q.spec, limits.wordMax);
        var next :- Reserve(declared, bytes, limits);
        if decoded + bytes > limits.wordMax then Err(ResourceLimit)
        else Ok((q.(accounted := true), next, decoded + bytes))
  }

  /** The loop over the buffers of a message for one body fragment. */
  function AccountFragment(limits: Limits, ps: seq<Pending>, fragment: seq<byte>, start: nat,
                           declared: nat, decoded: nat): (r: Result<Account>)
    ensures r.Ok? ==> |r.value.pending| == |ps|
  {
    if ps == [] then Ok(Account([], declared, decoded))
    else
      var head :- ChargeOne(limits, ps[0], fragment, start, declared, decoded);
      var rest :- AccountFragment(limits, ps[1..], fragment, start, head.1, head.2);
      Ok(rest.(pending := [head.0] + rest.pending))
  }

  lemma AbsorbReaches(p: Pending, fragment: seq<byte>, start: nat)
    requires p.prefixRead == Reached(p.spec, start)
    ensures Absorb(p, fragment, start).prefixRead == Reached(p.spec, start + |fragment|)
  {
  }

  /** Two fragments in a row write the same prefix bytes as their concatenation. */
  lemma AbsorbConcat(p: Pending, a: seq<byte>, b: seq<byte>, start: nat)
    requires p.prefixRead == Reached(p.spec, start)
    ensures Absorb(Absorb(p, a, start), b, start + |a|) == Absorb(p, a + b, start)
  {
    var once := Absorb(p, a + b, start);
    var twice := Absorb(Absorb(p, a, start), b, start + |a|);
    AbsorbReaches(p, a, start);
    AbsorbReaches(p, a + b, start);
    AbsorbReaches(Absorb(p, a, start), b, start + |a|);
    assert once.prefix == twice.prefix;
  }

  lemma ChargeOneTracks(limits: Limits, p: Pending, fragment: seq<byte>, start: nat, declared: nat, decoded: nat)
    requires TrackedOne(p, start)
    ensures var r := ChargeOne(limits, p, fragment, start, declared, decoded);
            r.Ok? ==> && TrackedOne(r.value.0, start + |fragment|)
                      && r.value.1 - declared == r.value.2 - decoded >= 0
                      && (declared <= limits.maxDecodedBytes ==> r.value.1 <= limits.maxDecodedBytes)
  {
    AbsorbReaches(p, fragment, start);
  }

  lemma {:induction false} AccountTracks(limits: Limits, ps: seq<Pending>, fragment: seq<byte>, start: nat,
                                         declared: nat, decoded: nat)
    requires Tracked(ps, start)
    ensures var r := AccountFragment(limits, ps, fragment, start, declared, decoded);
            r.Ok? ==> Tracked(r.value.pending, start + |fragment|)
                      && (forall i :: 0 <= i < |ps| ==> r.value.pending[i].spec == ps[i].spec)
  {
    var r := AccountFragment(limits, ps, fragment, start, declared, decoded);
    if ps != [] && r.Ok? {
      var rest := ps[1..];
      assert Tracked(rest, start);
      ChargeOneTracks(limits, ps[0], fragment, start, declared, decoded);
      var head := ChargeOne(limits, ps[0], fragment, start, declared, decoded).value;
      AccountTracks(limits, rest, fragment, start, head.1, head.2);
      TrackedCons(head.0, AccountFragment(limits, rest, fragment, start, head.1, head.2).value.pending,
                  start + |fragment|, ps, rest);
    }
  }

  lemma TrackedCons(p: Pending, tail: seq<Pending>, at: nat, ps: seq<Pending>, rest: seq<Pending>)
    requires Tracked(tail, at) && ps != [] && rest == ps[1..] && |tail| == |rest|
    requires forall i, j :: 0 <= i < j < |ps| ==> ps[i].spec.offset + 8 <= ps[j].spec.offset
    requires p.spec == ps[0].spec && forall i :: 0 <= i < |rest| ==> tail[i].spec == rest[i].spec
    requires TrackedOne(p, at)
    ensures Tracked([p] + tail, at)
    ensures forall i :: 0 <= i < |ps| ==> ([p] + tail)[i].spec == ps[i].spec
  {
    var all := [p] + tail;
    forall i | 0 <= i < |ps| ensures all[i].spec == ps[i].spec {
      if i > 0 { assert all[i] == tail[i - 1] && ps[i] == rest[i - 1]; }
    }
    forall i, j | 0 <= i < j < |all| ensures all[i].spec.offset + 8 <= all[j].spec.offset {
      assert all[i].spec == ps[i].spec && all[j].spec == ps[j].spec;
    }
  }

  lemma {:induction false} AccountTotals(limits: Limits, ps: seq<Pending>, fragment: seq<byte>, start: nat,
                                         declared: nat, decoded: nat)
    requires Tracked(ps, start)
    ensures var r := AccountFragment(limits, ps, fragment, start, declared, decoded);
            r.Ok? ==> && r.value.declared - declared == r.value.decoded - decoded >= 0
                      && (declared <= limits.maxDecodedBytes ==> r.value.declared <= limits.maxDecodedBytes)
  {
    if ps != [] {
      assert Tracked(ps[1..], start);
      ChargeOneTracks(limits, ps[0], fragment, start, declared, decoded);
      var head := ChargeOne(limits, ps[0], fragment, start, declared, decoded);
      if head.Ok? {
        AccountTotals(limits, ps[1..], fragment, start, head.value.1, head.value.2);
      }
    }
  }

  lemma ChargeOneBefore(limits: Limits, p: Pending, fragment: seq<byte>, start: nat, declared: nat, decoded: nat)
    requires TrackedOne(p, start) && (start + |fragment| <= p.spec.offset || fragment == [])
    ensures ChargeOne(limits, p, fragment, start, declared, decoded) == Ok((p, declared, decoded))
  {
    AbsorbReaches(p, fragment, start);
    assert Absorb(p, fragment, start).prefix == p.prefix;
  }

  /** A fragment that ends at or before every remaining buffer changes nothing. */
  lemma {:induction false} AccountBefore(limits: Limits, ps: seq<Pending>, fragment: seq<byte>, start: nat,
                                         declared: nat, decoded: nat)
    requires Tracked(ps, start)
    requires forall i :: 0 <= i < |ps| ==> start + |fragment| <= ps[i].spec.offset
    ensures AccountFragment(limits, ps, fragment, start, declared, decoded) == Ok(Account(ps, declared, decoded))
  {
    hide ChargeOne;
    if ps != [] {
      assert Tracked(ps[1..], start);
      AccountBefore(limits, ps[1..], fragment, start, declared, decoded);
      ChargeOneBefore(limits, ps[0], fragment, start, declared, decoded);
      assert [ps[0]] + ps[1..] == ps;
    }
  }

  /** What `AccountConcat` states, as a predicate of its arguments. */
  predicate Splits(limits: Limits, ps: seq<Pending>, a: seq<byte>, b: seq<byte>, start: nat, declared: nat, decoded: nat)
    requires Tracked(ps, start)
  {
    AccountTracks(limits, ps, a, start, declared, decoded);
    var first := AccountFragment(limits, ps, a, start, declared, decoded);
    AccountFragment(limits, ps, a + b, start, declared, decoded)
    == if first.Err? then first
       else AccountFragment(limits, first.value.pending, b, start + |a|, first.value.declared, first.value.decoded)
  }

  /** A buffer whose prefix `a` completes, or had completed before, does not look at `b`. */
  lemma ChargeOnePast(limits: Limits, p: Pending, a: seq<byte>, b: seq<byte>, start: nat, declared: nat, decoded: nat)
    requires TrackedOne(p, start) && Reached(p.spec, start + |a|) == 8
    ensures ChargeOne(limits, p, a + b, start, declared, decoded) == ChargeOne(limits, p, a, start, declared, decoded)
    ensures var r := ChargeOne(limits, p, a, start, declared, decoded); r.Ok? ==> r.value.0.accounted
  {
    AbsorbConcat(p, a, b, start);
    AbsorbReaches(p, a, start);
    assert Absorb(Absorb(p, a, start), b, start + |a|).prefix == Absorb(p, a, start).prefix;
  }

  /** A buffer whose prefix `a` leaves open is charged by `b` as by `a + b`. */
  lemma ChargeOneOpen(limits: Limits, p: Pending, a: seq<byte>, b: seq<byte>, start: nat, declared: nat, decoded: nat)
    requires TrackedOne(p, start) && Reached(p.spec, start + |a|) != 8
    ensures ChargeOne(limits, p, a, start, declared, decoded) == Ok((Absorb(p, a, start), declared, decoded))
    ensures ChargeOne(limits, p, a + b, start, declared, decoded)
         == ChargeOne(limits, Absorb(p, a, start), b, start + |a|, declared, decoded)
  {
    AbsorbConcat(p, a, b, start);
    AbsorbReaches(p, a, start);
  }

  /** Buffers that `a` does not reach see only `b`, at its shifted position. */
  lemma {:induction false} AccountShift(limits: Limits, ps: seq<Pending>, a: seq<byte>, b: seq<byte>, start: nat,
                                        declared: nat, decoded: nat)
    requires Tracked(ps, start)
    requires forall i :: 0 <= i < |ps| ==> start + |a| <= ps[i].spec.offset
    ensures AccountFragment(limits, ps, a + b, start, declared, decoded)
         == AccountFragment(limits, ps, b, start + |a|, declared, decoded)
  {
    if ps != [] {
      assert Tracked(ps[1..], start);
      ChargeOneOpen(limits, ps[0], a, b, start, declared, decoded);
      assert Absorb(ps[0], a, start).prefix == ps[0].prefix;
      var head := ChargeOne(limits, ps[0], b, start + |a|, declared, decoded);
      if head.Ok? {
        AccountShift(limits, ps[1..], a, b, start, head.value.1, head.value.2);
      }
    }
  }

  /** Fragmentation does not matter: charging `a` and then `b` is charging `a + b`, error included. */
  lemma {:induction false} AccountConcat(limits: Limits, ps: seq<Pending>, a: seq<byte>, b: seq<byte>, start: nat,
                                         declared: nat, decoded: nat)
    requires Tracked(ps, start)
    ensures Splits(limits, ps, a, b, start, declared, decoded)
  {
    if ps != [] {
      var rest := ps[1..];
      assert Tracked(rest, start);
      if Reached(ps[0].spec, start + |a|) == 8 {
        ChargeOnePast(limits, ps[0], a, b, start, declared, decoded);
        var head := ChargeOne(limits, ps[0], a, start, declared, decoded);
        if head.Ok? {
          AccountConcat(limits, rest, a, b, start, head.value.1, head.value.2);
          SplitsPast(limits, ps, a, b, start, declared, decoded);
        }
      } else {
        SplitsOpen(limits, ps, a, b, start, declared, decoded);
      }
    }
  }

  lemma SplitsPast(limits: Limits, ps: seq<Pending>, a: seq<byte>, b: seq<byte>, start: nat, declared: nat, decoded: nat)
    requires Tracked(ps, start) && ps != [] && Tracked(ps[1..], start)
    requires Reached(ps[0].spec, start + |a|) == 8
    requires var head := ChargeOne(limits, ps[0], a, start, declared, decoded);
             head.Ok? && Splits(limits, ps[1..], a, b, start, head.value.1, head.value.2)
    ensures Splits(limits, ps, a, b, start, declared, decoded)
  {
    ChargeOnePast(limits, ps[0], a, b, start, declared, decoded);
    var head := ChargeOne(limits, ps[0], a, start, declared, decoded).value;
    var first := AccountFragment(limits, ps, a, start, declared, decoded);
    if first.Ok? {
      assert first.value.pending[1..] == AccountFragment(limits, ps[1..], a, start, head.1, head.2).value.pending;
    }
  }

  /** The case where `a` stops inside or before the first prefix: the later buffers are untouched. */
  lemma SplitsOpen(limits: Limits, ps: seq<Pending>, a: seq<byte>, b: seq<byte>, start: nat, declared: nat, decoded: nat)
    requires Tracked(ps, start) && ps != [] && Tracked(ps[1..], start)
    requires Reached(ps[0].spec, start + |a|) != 8
    ensures Splits(limits, ps, a, b, start, declared, decoded)
  {
    var rest, q := ps[1..], Absorb(ps[0], a, start);
    assert forall i :: 0 <= i < |rest| ==> start + |a| <= rest[i].spec.offset;
    ChargeOneOpen(limits, ps[0], a, b, start, declared, decoded);
    AccountBefore(limits, rest, a, start, declared, decoded);
    assert ([q] + rest)[1..] == rest;
    var head := ChargeOne(limits, q, b, start + |a|, declared, decoded);
    if head.Ok? {
      AccountShift(limits, rest, a, b, start, head.value.1, head.value.2);
    }
  }

  lemma FreshTracked(specs: seq<Spec>, bodyLength: nat)
    requires Placed(specs, bodyLength)
    ensures Tracked(Fresh(specs), 0)
  {
  }

  lemma ChargeFresh(limits: Limits, spec: Spec, body: seq<byte>, declared: nat, decoded: nat)
    requires limits.Fits() && spec.offset + spec.length <= |body| && decoded <= declared
    ensures var r := ChargeOne(limits, Pending(spec, NO_PREFIX, 0, false), body, 0, declared, decoded);
            var bytes := DeclaredBytes(body[spec.offset..spec.offset + 8], spec, limits.wordMax);
            if bytes.Err? then r == Err(bytes.error)
            else if Reserve(declared, bytes.value, limits).Err? then r == Err(ResourceLimit)
            else r.Ok? && r.value.1 == declared + bytes.value && r.value.2 == decoded + bytes.value && r.value.0.accounted
  {
    var p := Pending(spec, NO_PREFIX, 0, false);
    AbsorbReaches(p, body, 0);
    assert Absorb(p, body, 0).prefix == body[spec.offset..spec.offset + 8];
  }

  /** One-shot reading and assembly from one fragment agree on a whole body. */
  lemma {:induction false} AccountWholeBody(limits: Limits, specs: seq<Spec>, body: seq<byte>, declared: nat, decoded: nat)
    requires limits.Fits() && Placed(specs, |body|) && decoded <= declared
    ensures var r := AccountFragment(limits, Fresh(specs), body, 0, declared, decoded);
            var p := Preflight(limits, specs, body, declared);
            if p.Err? then r == Err(p.error)
            else r.Ok? && r.value.declared == p.value && r.value.decoded - decoded == p.value - declared
  {
    if specs != [] {
      var ps := Fresh(specs);
      assert Placed(specs[1..], |body|);
      assert ps[1..] == Fresh(specs[1..]);
      ChargeFresh(limits, specs[0], body, declared, decoded);
      var head := ChargeOne(limits, ps[0], body, 0, declared, decoded);
      if head.Ok? {
        AccountWholeBody(limits, specs[1..], body, head.value.1, head.value.2);
      }
    }
  }

  /** When the body is exhausted every prefix in it has been read. */
  lemma NothingLeftOpen(ps: seq<Pending>, at: nat)
    requires Tracked(ps, at) && forall i :: 0 <= i < |ps| ==> ps[i].spec.offset + 8 <= at
    ensures forall i :: 0 <= i < |ps| ==> ps[i].accounted
  {
    forall i | 0 <= i < |ps| ensures ps[i].accounted {
      assert TrackedOne(ps[i], at);
    }
  }

  /** Charges a body that arrives as a list of fragments. */
  function AccountAll(limits: Limits, ps: seq<Pending>, fragments: seq<seq<byte>>, start: nat,
                      declared: nat, decoded: nat): Result<Account>
    requires Tracked(ps, start)
    decreases |fragments|
  {
    if fragments == [] then Ok(Account(ps, declared, decoded))
    else
      var next :- AccountFragment(limits, ps, fragments[0], start, declared, decoded);
      AccountTracks(limits, ps, fragments[0], start, declared, decoded);
      AccountAll(limits, next.pending, fragments[1..], start + |fragments[0]|, next.declared, next.decoded)
  }

  function Flatten(fragments: seq<seq<byte>>): seq<byte> {
    if fragments == [] then [] else fragments[0] + Flatten(fragments[1..])
  }

  lemma {:induction false} AccountAllIsOne(limits: Limits, ps: seq<Pending>, fragments: seq<seq<byte>>, start: nat,
                                           declared: nat, decoded: nat)
    requires Tracked(ps, start)
    ensures AccountAll(limits, ps, fragments, start, declared, decoded)
         == AccountFragment(limits, ps, Flatten(fragments), start, declared, decoded)
    decreases |fragments|
  {
    hide AccountFragment, Tracked;
    if fragments == [] {
      AccountNothing(limits, ps, start, declared, decoded);
    } else {
      AccountConcat(limits, ps, fragments[0], Flatten(fragments[1..]), start, declared, decoded);
      var next := AccountFragment(limits, ps, fragments[0], start, declared, decoded);
      if next.Ok? {
        AccountTracks(limits, ps, fragments[0], start, declared, decoded);
        AccountAllIsOne(limits, next.value.pending, fragments[1..], start + |fragments[0]|,
                        next.value.declared, next.value.decoded);
      }
    }
  }

  lemma {:induction false} AccountNothing(limits: Limits, ps: seq<Pending>, start: nat, declared: nat, decoded: nat)
    requires Tracked(ps, start)
    ensures AccountFragment(limits, ps, [], start, declared, decoded) == Ok(Account(ps, declared, decoded))
  {
    hide ChargeOne;
    if ps != [] {
      assert Tracked(ps[1..], start);
      AccountNothing(limits, ps[1..], start, declared, decoded);
      ChargeOneBefore(limits, ps[0], [], start, declared, decoded);
      assert [ps[0]] + ps[1..] == ps;
    }
  }

  /**
   However a compressed body is cut into fragments, the declared total and the accept/reject
   outcome are those of the one-shot preflight, and no prefix is left open at the end.
   */
  lemma FragmentedBodyIsPreflight(limits: Limits, specs: seq<Spec>, fragments: seq<seq<byte>>, declared: nat)
    requires limits.Fits() && Placed(specs, |Flatten(fragments)|)
    ensures Tracked(Fresh(specs), 0)
    ensures AccountAll(limits, Fresh(specs), fragments, 0, declared, 0).Ok? ==>
              |AccountAll(limits, Fresh(specs), fragments, 0, declared, 0).value.pending| == |specs|
    ensures var r := AccountAll(limits, Fresh(specs), fragments, 0, declared, 0);
            var p := Preflight(limits, specs, Flatten(fragments), declared);
            if p.Err? then r.Err? && r.error == p.error
            else r.Ok? && r.value.declared == p.value && r.value.decoded == p.value - declared
                 && (forall i :: 0 <= i < |specs| ==> r.value.pending[i].accounted)
  {
    var body := Flatten(fragments);
    FreshTracked(specs, |body|);
    AccountWholeBody(limits, specs, body, declared, 0);
    AccountTracks(limits, Fresh(specs), body, 0, declared, 0);
    var r := AccountFragment(limits, Fresh(specs), body, 0, declared, 0);
    if r.Ok? {
      NothingLeftOpen(r.value.pending, |body|);
    }
    AccountAllIsOne(limits, Fresh(specs), fragments, 0, declared, 0);
  }

  // ---------------------------------------------------------------- the stream automaton

  datatype Totals = Totals(schemaSeen: bool, declared: nat, retainedRecord: nat, retainedDictionary: nat,
                           dictionaries: map<int, nat>)

  datatype StreamState =
    | HeaderState(bytes: seq<byte>, target: nat)
    | MetadataState(bytes: seq<byte>, target: nat)
    | BodyState(metadataLength: nat, remaining: nat, consumed: nat, pending: seq<Pending>, kind: Kind, decoded: nat)
    | FinishedState
  {
    predicate WellFormed() {
      match this
      case HeaderState(bytes, target) => (target == 4 || target == 8) && |bytes| < target
      case MetadataState(bytes, target) => |bytes| < target
      case BodyState(_, remaining, consumed, pending, _, _) => 0 < remaining && Tracked(pending, consumed)
      case FinishedState => true
    }
  }

  /** Every state but the last waits for at least one more byte. */
  type State = s: StreamState | s.WellFormed() witness FinishedState

  datatype Wire = Wire(state: State, totals: Totals)

  const HEADER: State := HeaderState([], 4)
  const NO_TOTALS := Totals(false, 0, 0, 0, map[])
  const INITIAL := Wire(HEADER, NO_TOTALS)

  const MAGIC: seq<byte> := [0x41, 0x52, 0x52, 0x4F]
  const CONTINUATION: seq<byte> := [0xFF, 0xFF, 0xFF, 0xFF]

  /** `record_completed_message`. */
  function Complete(env: Env, t: Totals, kind: Kind, decoded: nat): Result<Totals> {
    match kind
    case NoKind => Ok(t)
    case Record =>
      if t.retainedRecord + decoded > env.limits.wordMax then Err(ResourceLimit)
      else Ok(t.(retainedRecord := t.retainedRecord + decoded))
    case DictionaryKind(id, isDelta) =>
      var previous := if id in t.dictionaries then t.dictionaries[id] else 0;
      var current := if isDelta then previous + decoded else decoded;
      if current > env.limits.wordMax && isDelta then Err(ResourceLimit)
      else if t.retainedDictionary + decoded > env.limits.wordMax then Err(ResourceLimit)
      else Ok(t.(retainedDictionary := t.retainedDictionary + decoded,
                 dictionaries := t.dictionaries[id := current]))
  }

  /** The state after the bytes of one header word, with or without a continuation marker, are gathered. */
  function AfterHeader(env: Env, header: seq<byte>): Result<State>
    requires |header| >= 4
  {
    if header == MAGIC then Err(ParseFailed)
    else if header == CONTINUATION then Ok(HeaderState(header, 8))
    else
      var length := LittleEndian(header[|header| - 4..]);
      if length == 0 then Ok(FinishedState)
      else if length > env.limits.maxMetadataBytes then Err(ResourceLimit)
      else Ok(MetadataState([], length))
  }

  /** The automaton after a message has been validated. */
  function AfterValidation(env: Env, t: Totals, v: Validation, metadataLength: nat): Result<Wire>
    requires Placed(v.specs, v.bodyLength)
  {
    var t' := t.(schemaSeen := t.schemaSeen || v.isSchema);
    if v.bodyLength == 0 then
      var done :- Complete(env, t', v.kind, 0);
      Ok(Wire(HEADER, done))
    else
      FreshTracked(v.specs, v.bodyLength);
      Ok(Wire(BodyState(metadataLength, v.bodyLength, 0, Fresh(v.specs), v.kind,
                        if v.compressed then 0 else v.bodyLength), t'))
  }

  /** The automaton after the metadata of one message is complete. */
  function AfterMetadata(env: Env, t: Totals, metadata: seq<byte>): Result<Wire> {
    var v :- Validate(env, metadata, t.schemaSeen);
    AfterValidation(env, t, v, |metadata|)
  }

  /** The automaton after one body fragment; it may be the last. */
  function AfterBody(env: Env, s: State, t: Totals, fragment: seq<byte>): Result<Wire>
    requires s.BodyState?
  {
    var a :- AccountFragment(env.limits, s.pending, fragment, s.consumed, t.declared, s.decoded);
    var t' := t.(declared := a.declared);
    if |fragment| >= s.remaining then
      if exists i :: 0 <= i < |a.pending| && !a.pending[i].accounted then Err(ParseFailed)
      else
        var done :- Complete(env, t', s.kind, a.decoded);
        Ok(Wire(HEADER, done))
    else
      AccountTracks(env.limits, s.pending, fragment, s.consumed, t.declared, s.decoded);
      Ok(Wire(BodyState(s.metadataLength, s.remaining - |fragment|, s.consumed + |fragment|, a.pending, s.kind, a.decoded),
              t'))
  }

  /** How many more bytes the current state can take in one loop turn. */
  function Wanted(s: State): (n: nat)
    ensures n > 0 <==> !s.FinishedState?
  {
    match s
    case HeaderState(bytes, target) => target - |bytes|
    case MetadataState(bytes, target) => target - |bytes|
    case BodyState(_, remaining, _, _, _, _) => remaining
    case FinishedState => 0
  }

  /** One turn of the loop in `feed`, on a piece of at most the wanted length. */
  function Take(env: Env, w: Wire, piece: seq<byte>): Result<Wire> {
    match w.state
    case HeaderState(bytes, target) =>
      if |bytes + piece| < target then Ok(Wire(HeaderState(bytes + piece, target), w.totals))
      else
        var next :- AfterHeader(env, bytes + piece);
        Ok(Wire(next, w.totals))
    case MetadataState(bytes, target) =>
      if |bytes + piece| < target then Ok(Wire(MetadataState(bytes + piece, target), w.totals))
      else AfterMetadata(env, w.totals, bytes + piece)
    case BodyState(_, _, _, _, _, _) => AfterBody(env, w.state, w.totals, piece)
    case FinishedState => Err(ParseFailed)
  }

  /** `feed`: the loop over one chunk. */
  function Feed(env: Env, w: Wire, input: seq<byte>): Result<Wire>
    decreases |input|
  {
    if input == [] then Ok(w)
    else if w.state.FinishedState? then Err(ParseFailed)
    else
      var take := Min(Wanted(w.state), |input|);
      var next :- Take(env, w, input[..take]);
      Feed(env, next, input[take..])
  }

  /** Inside one state, two pieces in a row are one longer piece. */
  lemma TakeConcat(env: Env, w: Wire, a: seq<byte>, b: seq<byte>)
    requires |a + b| <= Wanted(w.state) && |a| < Wanted(w.state)
    ensures var first := Take(env, w, a);
            var whole := Take(env, w, a + b);
            if first.Err? then whole == first
            else Wanted(first.value.state) == Wanted(w.state) - |a| && whole == Take(env, first.value, b)
  {
    hide AfterHeader, AfterMetadata;
    match w.state
    case HeaderState(bytes, _) =>
      hide AfterBody;
      assert bytes + a + b == bytes + (a + b);
    case MetadataState(bytes, _) =>
      hide AfterBody;
      assert bytes + a + b == bytes + (a + b);
    case BodyState(_, _, consumed, pending, _, decoded) =>
      TakeBodyConcat(env, w, a, b);
  }

  lemma TakeBodyConcat(env: Env, w: Wire, a: seq<byte>, b: seq<byte>)
    requires w.state.BodyState? && |a + b| <= Wanted(w.state) && |a| < Wanted(w.state)
    ensures var first := Take(env, w, a);
            var whole := Take(env, w, a + b);
            if first.Err? then whole == first
            else Wanted(first.value.state) == Wanted(w.state) - |a| && whole == Take(env, first.value, b)
  {
    AccountConcat(env.limits, w.state.pending, a, b, w.state.consumed, w.totals.declared, w.state.decoded);
  }

  /** Chunking does not matter: the whole state, and the error if there is one, are the same. */
  lemma {:induction false} FeedConcat(env: Env, w: Wire, a: seq<byte>, b: seq<byte>)
    ensures var first := Feed(env, w, a);
            Feed(env, w, a + b) == if first.Err? then first else Feed(env, first.value, b)
    decreases |a|
  {
    hide Take;
    if a == [] {
      assert a + b == b;
    } else if b == [] {
      assert a + b == a;
    } else if !w.state.FinishedState? {
      var wanted := Wanted(w.state);
      if wanted <= |a| {
        assert (a + b)[..wanted] == a[..wanted];
        assert (a + b)[wanted..] == a[wanted..] + b;
        var next := Take(env, w, a[..wanted]);
        if next.Ok? {
          FeedConcat(env, next.value, a[wanted..], b);
        }
      } else {
        FeedConcatInside(env, w, a, b);
      }
    }
  }

  /** The case of `FeedConcat` where all of `a` stays inside the current state. */
  lemma FeedConcatInside(env: Env, w: Wire, a: seq<byte>, b: seq<byte>)
    requires a != [] && b != [] && |a| < Wanted(w.state)
    ensures var first := Feed(env, w, a);
            Feed(env, w, a + b) == if first.Err? then first else Feed(env, first.value, b)
  {
    hide Take;
    var take := Min(Wanted(w.state), |a + b|);
    var b' := b[..take - |a|];
    assert (a + b)[..take] == a + b';
    assert (a + b)[take..] == b[take - |a|..];
    assert a[..|a|] == a && a[|a|..] == [];
    TakeConcat(env, w, a, b');
    var first := Take(env, w, a);
    if first.Ok? {
      assert Feed(env, first.value, []) == first;
      assert Min(Wanted(first.value.state), |b|) == |b'|;
    }
  }
}
