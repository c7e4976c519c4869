/**
 What the totals of an Arrow IPC Stream mean: which messages are accepted, what a compressed buffer
 declares, and what is retained for records and for each dictionary (`validate_stream_message`,
 `declared_decompressed_buffer_bytes` and `record_completed_message` in `src/arrow.rs`).
 */
module StreamTotals {
  import opened Common
  import opened StreamWire
  import opened StreamReference

  // ---------------------------------------------------------------- which messages are accepted

  predicate InWord(n: int, wordMax: nat) {
    0 <= n <= wordMax
  }

  /** An entry that holds no bytes may stand anywhere; one that does has its prefix and lies in the body. */
  predicate EntryOk(e: BufferEntry, bodyLength: nat, wordMax: nat) {
    InWord(e.offset, wordMax) && InWord(e.length, wordMax) && (e.length != 0 ==> 8 <= e.length && e.offset + e.length <= bodyLength)
  }

  /** Of two entries that hold bytes, one ends before the other begins. */
  predicate Apart(a: BufferEntry, b: BufferEntry) {
    a.length == 0 || b.length == 0 || a.offset + a.length <= b.offset || b.offset + b.length <= a.offset
  }

  predicate EntriesOk(entries: seq<BufferEntry>, bodyLength: nat, wordMax: nat) {
    && (forall i :: 0 <= i < |entries| ==> EntryOk(entries[i], bodyLength, wordMax))
    && (forall i, j :: 0 <= i < j < |entries| ==> Apart(entries[i], entries[j]))
  }

  /** The buffers of a compressed message: listed, in the body and apart, in any order. */
  predicate BuffersOk(b: Batch, bodyLength: nat, wordMax: nat) {
    b.compressed ==> b.buffers.Some? && EntriesOk(b.buffers.value, bodyLength, wordMax)
  }

  /** The first message, and no other, is a schema; batches and dictionaries are complete. */
  predicate HeaderOk(h: Header, schemaSeen: bool, bodyLength: nat, wordMax: nat) {
    match h
    case SchemaHeader(native) => !schemaSeen && native == Some(true)
    case RecordHeader(batch) => schemaSeen && batch.Some? && BuffersOk(batch.value, bodyLength, wordMax)
    case DictionaryHeader(dictionary) =>
      schemaSeen && dictionary.Some? && dictionary.value.data.Some? && BuffersOk(dictionary.value.data.value, bodyLength, wordMax)
    case TensorHeader => false
    case OtherHeader => schemaSeen
  }

  predicate MessageOk(env: Env, metadata: seq<byte>, schemaSeen: bool) {
    var m := env.decode(metadata);
    && m.Some? && 0 <= m.value.bodyLength && |metadata| + m.value.bodyLength <= env.limits.maxBlockBytes
    && HeaderOk(m.value.header, schemaSeen, m.value.bodyLength, env.limits.wordMax)
  }

  /** An entry as the buffer that it stands for. */
  predicate Lists(entries: seq<BufferEntry>, s: BufferSpec) {
    s.length > 0 && BufferEntry(s.offset, s.length) in entries
  }

  lemma {:induction false} CollectedAre(entries: seq<BufferEntry>, bodyLength: nat, wordMax: nat)
    ensures var r := Collect(entries, bodyLength, wordMax);
            && (r.Ok? <==> forall i :: 0 <= i < |entries| ==> EntryOk(entries[i], bodyLength, wordMax))
            && (r.Ok? ==> forall i :: 0 <= i < |r.value| ==> Lists(entries, r.value[i]))
  {
    if entries != [] {
      var front, last := entries[..|entries| - 1], entries[|entries| - 1];
      CollectedAre(front, bodyLength, wordMax);
      assert Bad(last, bodyLength, wordMax) <==> !EntryOk(last, bodyLength, wordMax);
      assert forall i :: 0 <= i < |entries| ==> entries[i] == if i < |front| then front[i] else last;
    }
  }

  predicate SpecsApart(a: BufferSpec, b: BufferSpec) {
    a.offset + a.length <= b.offset || b.offset + b.length <= a.offset
  }

  predicate AllApart(specs: seq<Spec>, x: Spec) {
    forall i :: 0 <= i < |specs| ==> SpecsApart(specs[i], x)
  }

  predicate PairwiseApart(specs: seq<Spec>) {
    forall i, j :: 0 <= i < j < |specs| ==> SpecsApart(specs[i], specs[j])
  }

  lemma OneMoreApart(specs: seq<Spec>, x: Spec, y: Spec)
    ensures AllApart(specs + [x], y) <==> AllApart(specs, y) && SpecsApart(x, y)
    ensures PairwiseApart(specs + [x]) <==> PairwiseApart(specs) && AllApart(specs, x)
  {
    var all := specs + [x];
    assert all[|specs|] == x && forall i :: 0 <= i < |specs| ==> all[i] == specs[i];
    if PairwiseApart(all) {
      forall i | 0 <= i < |specs| ensures SpecsApart(specs[i], x) {
        assert SpecsApart(all[i], all[|specs|]);
      }
      forall i, j | 0 <= i < j < |specs| ensures SpecsApart(specs[i], specs[j]) {
        assert SpecsApart(all[i], all[j]);
      }
    }
  }

  lemma {:induction false} InsertApart(specs: seq<Spec>, x: Spec, y: Spec)
    ensures AllApart(Insert(specs, x), y) <==> AllApart(specs, y) && SpecsApart(x, y)
    ensures PairwiseApart(Insert(specs, x)) <==> PairwiseApart(specs) && AllApart(specs, x)
  {
    hide AllApart, PairwiseApart;
    if specs == [] || specs[|specs| - 1].offset <= x.offset {
      OneMoreApart(specs, x, y);
    } else {
      var front, last := specs[..|specs| - 1], specs[|specs| - 1];
      assert specs == front + [last];
      InsertApart(front, x, y);
      InsertApart(front, x, last);
      OneMoreApart(Insert(front, x), last, y);
      OneMoreApart(front, last, y);
      OneMoreApart(front, last, x);
    }
  }

  lemma {:induction false} SortApart(specs: seq<Spec>, y: Spec)
    ensures AllApart(SortByOffset(specs), y) <==> AllApart(specs, y)
    ensures PairwiseApart(SortByOffset(specs)) <==> PairwiseApart(specs)
  {
    if specs != [] {
      hide AllApart, PairwiseApart, Insert;
      var front, last := specs[..|specs| - 1], specs[|specs| - 1];
      assert specs == front + [last];
      SortApart(front, y);
      SortApart(front, last);
      InsertApart(SortByOffset(front), last, y);
      OneMoreApart(front, last, y);
    }
  }

  predicate Ascending(specs: seq<Spec>) {
    forall i, j :: 0 <= i < j < |specs| ==> specs[i].offset <= specs[j].offset
  }

  lemma {:induction false} InsertAscends(specs: seq<Spec>, x: Spec)
    requires Ascending(specs)
    ensures Ascending(Insert(specs, x)) && forall i :: 0 <= i < |Insert(specs, x)| ==> Insert(specs, x)[i] == x || Insert(specs, x)[i] in specs
  {
    if !(specs == [] || specs[|specs| - 1].offset <= x.offset) {
      InsertAscends(specs[..|specs| - 1], x);
    }
  }

  lemma {:induction false} SortAscends(specs: seq<Spec>)
    ensures Ascending(SortByOffset(specs))
  {
    if specs != [] {
      SortAscends(specs[..|specs| - 1]);
      InsertAscends(SortByOffset(specs[..|specs| - 1]), specs[|specs| - 1]);
    }
  }

  /** Comparing neighbours is enough in both directions. */
  lemma AdjacentIsApart(specs: seq<Spec>, bodyLength: nat)
    requires InBody(specs, bodyLength) && Ascending(specs)
    ensures AdjacentDisjoint(specs) <==> PairwiseApart(specs)
  {
    if AdjacentDisjoint(specs) {
      AdjacentIsPairwise(specs, bodyLength);
    } else {
      var i :| 0 <= i < |specs| - 1 && !(specs[i].offset + specs[i].length <= specs[i + 1].offset);
      assert !SpecsApart(specs[i], specs[i + 1]);
    }
  }

  predicate EntryApart(entries: seq<BufferEntry>, e: BufferEntry) {
    forall i :: 0 <= i < |entries| ==> Apart(entries[i], e)
  }

  predicate EntriesApart(entries: seq<BufferEntry>) {
    forall i, j :: 0 <= i < j < |entries| ==> Apart(entries[i], entries[j])
  }

  lemma OneMoreEntry(entries: seq<BufferEntry>, x: BufferEntry, e: BufferEntry)
    ensures EntryApart(entries + [x], e) <==> EntryApart(entries, e) && Apart(x, e)
    ensures EntriesApart(entries + [x]) <==> EntriesApart(entries) && EntryApart(entries, x)
  {
    var all := entries + [x];
    assert all[|entries|] == x && forall i :: 0 <= i < |entries| ==> all[i] == entries[i];
    if EntriesApart(all) {
      forall i | 0 <= i < |entries| ensures Apart(entries[i], x) {
        assert Apart(all[i], all[|entries|]);
      }
      forall i, j | 0 <= i < j < |entries| ensures Apart(entries[i], entries[j]) {
        assert Apart(all[i], all[j]);
      }
    }
  }

  lemma {:induction false} CollectApart(entries: seq<BufferEntry>, bodyLength: nat, wordMax: nat, y: Spec)
    requires Collect(entries, bodyLength, wordMax).Ok?
    ensures var specs := Collect(entries, bodyLength, wordMax).value;
            && (AllApart(specs, y) <==> EntryApart(entries, BufferEntry(y.offset, y.length)))
            && (PairwiseApart(specs) <==> EntriesApart(entries))
  {
    if entries != [] {
      hide AllApart, PairwiseApart, EntryApart, EntriesApart;
      var front, last := entries[..|entries| - 1], entries[|entries| - 1];
      assert entries == front + [last];
      CollectApart(front, bodyLength, wordMax, y);
      OneMoreEntry(front, last, BufferEntry(y.offset, y.length));
      var specs := Collect(front, bodyLength, wordMax).value;
      if last.length == 0 {
        NothingApart(front, last);
      } else {
        var s: Spec := Spec(last.offset, last.length);
        CollectApart(front, bodyLength, wordMax, s);
        OneMoreApart(specs, s, y);
      }
    }
  }

  lemma NothingApart(entries: seq<BufferEntry>, e: BufferEntry)
    requires e.length == 0
    ensures EntryApart(entries, e)
  {
  }

  /** The compressed buffer index is accepted exactly for entries in the body and apart, in whatever order they come. */
  lemma SpecsExactlyWhen(message: Message, bodyLength: nat, wordMax: nat)
    ensures SpecsOf(message, bodyLength, wordMax).Ok?
       <==> (BatchOf(message).Some? ==> BuffersOk(BatchOf(message).value, bodyLength, wordMax))
  {
    if BatchOf(message).Some? && BatchOf(message).value.compressed && BatchOf(message).value.buffers.Some? {
      var entries := BatchOf(message).value.buffers.value;
      hide Collect, SortByOffset, AdjacentDisjoint, PairwiseApart, EntryOk, Apart, BatchOf;
      CollectedAre(entries, bodyLength, wordMax);
      var collected := Collect(entries, bodyLength, wordMax);
      if collected.Ok? {
        var specs := SortByOffset(collected.value);
        var y: Spec := Spec(0, 8);
        CollectInBody(entries, bodyLength, wordMax);
        SortKeepsElements(collected.value);
        MultisetKeepsInBody(collected.value, specs, bodyLength);
        SortAscends(collected.value);
        AdjacentIsApart(specs, bodyLength);
        SortApart(collected.value, y);
        CollectApart(entries, bodyLength, wordMax, y);
        assert EntriesApart(entries) <==> forall i, j :: 0 <= i < j < |entries| ==> Apart(entries[i], entries[j]);
      }
    }
  }

  /** A message is accepted exactly if it is well-formed where it stands. */
  lemma ValidExactlyWhen(env: Env, metadata: seq<byte>, schemaSeen: bool)
    requires env.limits.Fits()
    ensures Validate(env, metadata, schemaSeen).Ok? <==> MessageOk(env, metadata, schemaSeen)
  {
    var m := env.decode(metadata);
    if m.Some? && 0 <= m.value.bodyLength {
      hide SpecsOf, BuffersOk;
      SpecsExactlyWhen(m.value, m.value.bodyLength, env.limits.wordMax);
    }
  }

  /** What is charged and to whom: the kind of the message, and for a compressed one all entries that hold bytes. */
  lemma ValidatedIs(env: Env, metadata: seq<byte>, schemaSeen: bool)
    requires Validate(env, metadata, schemaSeen).Ok?
    ensures var v, m := Validate(env, metadata, schemaSeen).value, env.decode(metadata).value;
            && (v.isSchema <==> m.header.SchemaHeader?) && v.bodyLength == m.bodyLength
            && (v.kind == NoKind <==> m.header.SchemaHeader? || m.header.OtherHeader?)
            && (v.kind == Record <==> m.header.RecordHeader?)
            && (forall id, isDelta :: v.kind == DictionaryKind(id, isDelta)
                  <==> m.header.DictionaryHeader? && m.header.dictionary.Some? && m.header.dictionary.value.id == id
                       && m.header.dictionary.value.isDelta == isDelta)
            && (v.compressed <==> Body(m.header).Some? && Body(m.header).value.compressed)
  {
    hide SpecsOf;
  }

  /** The batch whose buffers the body holds. */
  function Body(h: Header): Option<Batch> {
    if h.RecordHeader? then h.batch else if h.DictionaryHeader? && h.dictionary.Some? then h.dictionary.value.data else None
  }

  /** All entries that hold bytes are charged, and nothing else. */
  lemma {:induction false} ChargesEveryEntry(entries: seq<BufferEntry>, bodyLength: nat, wordMax: nat, s: Spec)
    requires Collect(entries, bodyLength, wordMax).Ok?
    ensures multiset(SortByOffset(Collect(entries, bodyLength, wordMax).value))[s] == multiset(entries)[BufferEntry(s.offset, s.length)]
  {
    var collected := Collect(entries, bodyLength, wordMax).value;
    SortKeepsElements(collected);
    if entries != [] {
      var front, last := entries[..|entries| - 1], entries[|entries| - 1];
      ChargesEveryEntry(front, bodyLength, wordMax, s);
      SortKeepsElements(Collect(front, bodyLength, wordMax).value);
      assert entries == front + [last];
    }
  }

  // ---------------------------------------------------------------- what a prefix declares

  /** A 64-bit word, least significant byte first, in two's complement. */
  function Signed(prefix: Prefix): int {
    var raw: int := LittleEndian(prefix);
    if raw < 0x8000_0000_0000_0000 then raw else raw - 0x1_0000_0000_0000_0000
  }

  /** -1 stands for a buffer that is stored as it is; no other negative number is a size. */
  lemma DeclaredExactly(prefix: Prefix, spec: Spec, wordMax: nat)
    ensures var r, n := DeclaredBytes(prefix, spec, wordMax), Signed(prefix);
            && (r.Ok? <==> n == -1 || 0 <= n <= wordMax)
            && (r.Ok? ==> r.value == if n == -1 then spec.length - 8 else n)
            && (r.Err? ==> r.error == if n < 0 then ParseFailed else ResourceLimit)
  {
    assert LittleEndian(prefix) < 0x1_0000_0000_0000_0000 by {
      WordBound(prefix);
    }
  }

  lemma {:induction false} WordBound(bytes: seq<byte>)
    requires |bytes| <= 8
    ensures LittleEndian(bytes) < Power256(|bytes|)
  {
    if bytes != [] {
      WordBound(bytes[1..]);
    }
  }

  function Power256(n: nat): nat {
    if n == 0 then 1 else 256 * Power256(n - 1)
  }

  function SizeOf(spec: Spec, body: seq<byte>): int
    requires spec.offset + 8 <= |body|
  {
    var n := Signed(body[spec.offset..spec.offset + 8]);
    if n == -1 then spec.length - 8 else n
  }

  function SizesOf(specs: seq<Spec>, body: seq<byte>): int
    requires Placed(specs, |body|)
  {
    if specs == [] then 0 else SizeOf(specs[0], body) + SizesOf(specs[1..], body)
  }

  predicate SizesValid(specs: seq<Spec>, body: seq<byte>)
    requires Placed(specs, |body|)
  {
    forall i :: 0 <= i < |specs| ==> SizeOf(specs[i], body) >= 0
  }

  lemma SizesConcern(specs: seq<Spec>, body: seq<byte>)
    requires Placed(specs, |body|) && specs != []
    ensures Placed(specs[1..], |body|)
    ensures SizesValid(specs, body) <==> SizeOf(specs[0], body) >= 0 && SizesValid(specs[1..], body)
  {
    if SizeOf(specs[0], body) >= 0 && SizesValid(specs[1..], body) {
      forall i | 0 <= i < |specs| ensures SizeOf(specs[i], body) >= 0 {
        if i > 0 {
          assert SizeOf(specs[1..][i - 1], body) >= 0;
        }
      }
    }
  }

  lemma {:induction false} SizesNotNegative(specs: seq<Spec>, body: seq<byte>)
    requires Placed(specs, |body|) && SizesValid(specs, body)
    ensures SizesOf(specs, body) >= 0
  {
    if specs != [] {
      SizesConcern(specs, body);
      SizesNotNegative(specs[1..], body);
    }
  }

  /** One buffer is charged exactly if its prefix is a size and the total with it stays within the limit. */
  lemma OneSize(limits: Limits, spec: Spec, body: seq<byte>, declared: nat)
    requires limits.Fits() && spec.offset + 8 <= |body|
    ensures var bytes := DeclaredBytes(body[spec.offset..spec.offset + 8], spec, limits.wordMax);
            && (bytes.Ok? && Reserve(declared, bytes.value, limits).Ok?
                <==> SizeOf(spec, body) >= 0 && declared + SizeOf(spec, body) <= limits.maxDecodedBytes)
            && (bytes.Ok? ==> bytes.value == SizeOf(spec, body)
                              && (Reserve(declared, bytes.value, limits).Ok? ==>
                                    Reserve(declared, bytes.value, limits).value == declared + SizeOf(spec, body)))
  {
    DeclaredExactly(body[spec.offset..spec.offset + 8], spec, limits.wordMax);
    hide DeclaredBytes, Signed;
  }

  /** The preflight succeeds exactly if every prefix is a size and the declared total stays within the limit; it adds the sizes up. */
  lemma {:induction false} PreflightIsSum(limits: Limits, specs: seq<Spec>, body: seq<byte>, declared: nat)
    requires limits.Fits() && Placed(specs, |body|) && declared <= limits.maxDecodedBytes
    ensures var r := Preflight(limits, specs, body, declared);
            && (r.Ok? <==> SizesValid(specs, body) && declared + SizesOf(specs, body) <= limits.maxDecodedBytes)
            && (r.Ok? ==> r.value == declared + SizesOf(specs, body))
    decreases |specs|
  {
    if specs != [] {
      OneSize(limits, specs[0], body, declared);
      SizesConcern(specs, body);
      hide DeclaredBytes, SizeOf, Reserve, SizesValid;
      if SizesValid(specs[1..], body) {
        SizesNotNegative(specs[1..], body);
      }
      var bytes := DeclaredBytes(body[specs[0].offset..specs[0].offset + 8], specs[0], limits.wordMax);
      if bytes.Ok? && Reserve(declared, bytes.value, limits).Ok? {
        PreflightIsSum(limits, specs[1..], body, declared + SizeOf(specs[0], body));
      }
    }
  }

  // ---------------------------------------------------------------- what is retained

  /** A message whose body is complete: what it is, and what its body decodes to. */
  datatype Done = Done(kind: Kind, decoded: nat)

  function CompleteAll(env: Env, t: Totals, ms: seq<Done>): Result<Totals> {
    if ms == [] then Ok(t)
    else
      var front :- CompleteAll(env, t, ms[..|ms| - 1]);
      Complete(env, front, ms[|ms| - 1].kind, ms[|ms| - 1].decoded)
  }

  predicate For(m: Done, id: int) {
    m.kind.DictionaryKind? && m.kind.id == id
  }

  function RecordBytes(ms: seq<Done>): nat {
    if ms == [] then 0 else RecordBytes(ms[..|ms| - 1]) + if ms[|ms| - 1].kind.Record? then ms[|ms| - 1].decoded else 0
  }

  function DictionaryBytes(ms: seq<Done>): nat {
    if ms == [] then 0 else DictionaryBytes(ms[..|ms| - 1]) + if ms[|ms| - 1].kind.DictionaryKind? then ms[|ms| - 1].decoded else 0
  }

  function BytesFor(ms: seq<Done>, id: int): nat {
    if ms == [] then 0 else BytesFor(ms[..|ms| - 1], id) + if For(ms[|ms| - 1], id) then ms[|ms| - 1].decoded else 0
  }

  /** Message `p` replaces the dictionary, and no later one does. */
  predicate LastReplacement(ms: seq<Done>, id: int, p: nat) {
    && p < |ms| && For(ms[p], id) && !ms[p].kind.isDelta
    && forall k :: p < k < |ms| && For(ms[k], id) ==> ms[k].kind.isDelta
  }

  predicate OnlyDeltas(ms: seq<Done>, id: int) {
    forall k :: 0 <= k < |ms| && For(ms[k], id) ==> ms[k].kind.isDelta
  }

  predicate Mentions(ms: seq<Done>, id: int) {
    exists k :: 0 <= k < |ms| && For(ms[k], id)
  }

  function KeptFor(t: Totals, id: int): nat {
    if id in t.dictionaries then t.dictionaries[id] else 0
  }

  predicate KeptSinceReplacement(after: Totals, ms: seq<Done>, id: int) {
    forall p: nat :: p < |ms| && LastReplacement(ms, id, p) ==> KeptFor(after, id) == BytesFor(ms[p..], id)
  }

  /**
   What is kept for a dictionary: its last replacement and all deltas after it; without one, the deltas on
   top of what there was.
   */
  predicate KeptIs(t: Totals, after: Totals, ms: seq<Done>, id: int) {
    && KeptSinceReplacement(after, ms, id)
    && (OnlyDeltas(ms, id) ==> KeptFor(after, id) == KeptFor(t, id) + BytesFor(ms, id))
    && (id in after.dictionaries <==> id in t.dictionaries || Mentions(ms, id))
  }

  lemma OneMoreMentioned(ms: seq<Done>, m: Done, id: int)
    ensures Mentions(ms + [m], id) <==> Mentions(ms, id) || For(m, id)
    ensures OnlyDeltas(ms + [m], id) <==> OnlyDeltas(ms, id) && (For(m, id) ==> m.kind.isDelta)
  {
    var all := ms + [m];
    assert all[|ms|] == m && forall k :: 0 <= k < |ms| ==> all[k] == ms[k];
    if Mentions(ms, id) {
      var k :| 0 <= k < |ms| && For(ms[k], id);
      assert For(all[k], id);
    }
    if OnlyDeltas(all, id) {
      forall k | 0 <= k < |ms| && For(ms[k], id) ensures ms[k].kind.isDelta {
        assert For(all[k], id);
      }
    }
  }

  lemma OneMoreReplaced(ms: seq<Done>, m: Done, id: int, p: nat)
    requires LastReplacement(ms + [m], id, p)
    ensures p == |ms| ==> For(m, id) && !m.kind.isDelta
    ensures p < |ms| ==> LastReplacement(ms, id, p) && (For(m, id) ==> m.kind.isDelta)
  {
    var all := ms + [m];
    assert all[|ms|] == m;
    if p < |ms| {
      assert all[p] == ms[p];
      forall k | p < k < |ms| && For(ms[k], id) ensures ms[k].kind.isDelta {
        assert all[k] == ms[k];
      }
      assert For(all[|ms|], id) ==> all[|ms|].kind.isDelta;
    }
  }

  lemma OneMoreByte(ms: seq<Done>, m: Done, id: int)
    ensures BytesFor(ms + [m], id) == BytesFor(ms, id) + if For(m, id) then m.decoded else 0
    ensures RecordBytes(ms + [m]) == RecordBytes(ms) + if m.kind.Record? then m.decoded else 0
    ensures DictionaryBytes(ms + [m]) == DictionaryBytes(ms) + if m.kind.DictionaryKind? then m.decoded else 0
  {
    assert (ms + [m])[..|ms|] == ms;
  }

  lemma CompletedOne(env: Env, t: Totals, m: Done, id: int)
    ensures var c := Complete(env, t, m.kind, m.decoded);
            c.Ok? ==> && KeptFor(c.value, id) == (if !For(m, id) then KeptFor(t, id)
                                                  else if m.kind.isDelta then KeptFor(t, id) + m.decoded else m.decoded)
                      && (id in c.value.dictionaries <==> id in t.dictionaries || For(m, id))
  {
  }

  lemma KeptStep(env: Env, t: Totals, before: Totals, ms: seq<Done>, m: Done, id: int)
    requires KeptIs(t, before, ms, id) && Complete(env, before, m.kind, m.decoded).Ok?
    ensures KeptIs(t, Complete(env, before, m.kind, m.decoded).value, ms + [m], id)
  {
    var after := Complete(env, before, m.kind, m.decoded).value;
    CompletedOne(env, before, m, id);
    OneMoreMentioned(ms, m, id);
    OneMoreByte(ms, m, id);
    hide Complete, Mentions, OnlyDeltas, BytesFor, LastReplacement, KeptFor;
    SinceReplacementStep(before, after, ms, m, id);
    hide KeptSinceReplacement;
  }

  lemma SinceReplacementStep(before: Totals, after: Totals, ms: seq<Done>, m: Done, id: int)
    requires KeptSinceReplacement(before, ms, id)
    requires KeptFor(after, id) == if !For(m, id) then KeptFor(before, id)
                                   else if m.kind.isDelta then KeptFor(before, id) + m.decoded else m.decoded
    ensures KeptSinceReplacement(after, ms + [m], id)
  {
    hide LastReplacement, KeptFor, BytesFor;
    forall p: nat | p < |ms + [m]| && LastReplacement(ms + [m], id, p) ensures KeptFor(after, id) == BytesFor((ms + [m])[p..], id) {
      ReplacedStep(before, after, ms, m, id, p);
    }
  }

  lemma ReplacedStep(before: Totals, after: Totals, ms: seq<Done>, m: Done, id: int, p: nat)
    requires KeptSinceReplacement(before, ms, id) && LastReplacement(ms + [m], id, p)
    requires KeptFor(after, id) == if !For(m, id) then KeptFor(before, id)
                                   else if m.kind.isDelta then KeptFor(before, id) + m.decoded else m.decoded
    ensures p <= |ms| && KeptFor(after, id) == BytesFor((ms + [m])[p..], id)
  {
    OneMoreReplaced(ms, m, id, p);
    assert p <= |ms| by { assert p < |ms + [m]|; }
    assert (ms + [m])[p..] == ms[p..] + [m];
    OneMoreByte(ms[p..], m, id);
    if p == |ms| {
      assert ms[p..] == [];
    }
  }

  /** Over any list of messages: what each dictionary keeps is told by its own messages alone. */
  lemma {:induction false} DictionariesKeep(env: Env, t: Totals, ms: seq<Done>, id: int)
    requires CompleteAll(env, t, ms).Ok?
    ensures KeptIs(t, CompleteAll(env, t, ms).value, ms, id)
    decreases |ms|
  {
    if ms != [] {
      hide Complete, KeptIs;
      var front, m := ms[..|ms| - 1], ms[|ms| - 1];
      DictionariesKeep(env, t, front, id);
      assert ms == front + [m];
      KeptStep(env, t, CompleteAll(env, t, front).value, front, m, id);
    }
  }

  /** What each kind retains in all; messages of no kind change nothing. */
  lemma {:induction false} RetainedAreSums(env: Env, t: Totals, ms: seq<Done>)
    requires CompleteAll(env, t, ms).Ok?
    ensures var c := CompleteAll(env, t, ms).value;
            && c.retainedRecord == t.retainedRecord + RecordBytes(ms)
            && c.retainedDictionary == t.retainedDictionary + DictionaryBytes(ms)
            && c.schemaSeen == t.schemaSeen && c.declared == t.declared
            && ((forall k :: 0 <= k < |ms| ==> ms[k].kind == NoKind) ==> c == t)
    decreases |ms|
  {
    if ms != [] {
      RetainedAreSums(env, t, ms[..|ms| - 1]);
    }
  }

  /** Nothing keeps more for one dictionary than is retained for all. */
  ghost predicate WithinRetained(t: Totals) {
    forall id :: id in t.dictionaries ==> t.dictionaries[id] <= t.retainedDictionary
  }

  lemma {:induction false} CompletesWithin(env: Env, t: Totals, ms: seq<Done>)
    requires WithinRetained(t) && t.retainedRecord <= env.limits.wordMax && t.retainedDictionary <= env.limits.wordMax
    ensures var c := CompleteAll(env, t, ms);
            && (c.Ok? ==> WithinRetained(c.value) && c.value.retainedRecord <= env.limits.wordMax
                          && c.value.retainedDictionary <= env.limits.wordMax)
            && (c.Err? ==> c.error == ResourceLimit)
    decreases |ms|
  {
    if ms != [] {
      CompletesWithin(env, t, ms[..|ms| - 1]);
    }
  }

  /** The messages complete exactly if both sums fit a machine word: the overflow check for one dictionary is never the first to fail. */
  lemma {:induction false} CompletesExactlyWhen(env: Env, t: Totals, ms: seq<Done>)
    requires WithinRetained(t) && t.retainedRecord <= env.limits.wordMax && t.retainedDictionary <= env.limits.wordMax
    ensures CompleteAll(env, t, ms).Ok?
       <==> t.retainedRecord + RecordBytes(ms) <= env.limits.wordMax && t.retainedDictionary + DictionaryBytes(ms) <= env.limits.wordMax
    decreases |ms|
  {
    if ms != [] {
      var front := ms[..|ms| - 1];
      CompletesExactlyWhen(env, t, front);
      CompletesWithin(env, t, front);
      if CompleteAll(env, t, front).Ok? {
        RetainedAreSums(env, t, front);
      }
    }
  }

  // ---------------------------------------------------------------- the totals of a stream

  /** What the body of an accepted message decodes to. */
  function DecodedOf(v: Validation, body: seq<byte>): int
    requires Placed(v.specs, |body|)
  {
    if v.compressed then SizesOf(v.specs, body) else |body|
  }

  function DeclaredOf(v: Validation, body: seq<byte>): int
    requires Placed(v.specs, |body|)
  {
    SizesOf(v.specs, body)
  }

  /** The messages of a stream, read off its bytes, with what each body declares. */
  datatype Log = Log(done: seq<Done>, declared: int, schemas: nat)

  function LogOf(env: Env, schemaSeen: bool, bytes: seq<byte>): Log
    requires env.limits.Fits()
    decreases |bytes|
  {
    var start := HeaderLength(bytes);
    var length := if |bytes| < start then 0 else LittleEndian(bytes[start - 4..start]);
    if length == 0 || start + length > |bytes| then Log([], 0, 0)
    else
      var v := Validate(env, bytes[start..start + length], schemaSeen);
      if v.Err? || start + length + v.value.bodyLength > |bytes| then Log([], 0, 0)
      else
        var end := start + length + v.value.bodyLength;
        var body := bytes[start + length..end];
        var rest := LogOf(env, schemaSeen || v.value.isSchema, bytes[end..]);
        Log([Done(v.value.kind, Max(0, DecodedOf(v.value, body)))] + rest.done, DeclaredOf(v.value, body) + rest.declared,
            (if v.value.isSchema then 1 else 0) + rest.schemas)
  }

  /** `Complete` looks neither at the declared total nor at whether there was a schema. */
  lemma {:induction false} CompleteIgnores(env: Env, t: Totals, ms: seq<Done>, seen: bool, declared: nat)
    ensures var a, b := CompleteAll(env, t, ms), CompleteAll(env, t.(schemaSeen := seen, declared := declared), ms);
            if a.Err? then b == a else b == Ok(a.value.(schemaSeen := seen, declared := declared))
    decreases |ms|
  {
    if ms != [] {
      CompleteIgnores(env, t, ms[..|ms| - 1], seen, declared);
    }
  }

  lemma {:induction false} FirstCompletes(env: Env, t: Totals, m: Done, ms: seq<Done>)
    ensures CompleteAll(env, t, [m] + ms)
         == var first := Complete(env, t, m.kind, m.decoded); if first.Err? then first else CompleteAll(env, first.value, ms)
    decreases |ms|
  {
    var all := [m] + ms;
    if ms == [] {
      assert all[..|all| - 1] == [] && CompleteAll(env, t, []) == Ok(t);
    } else {
      assert all[..|all| - 1] == [m] + ms[..|ms| - 1];
      FirstCompletes(env, t, m, ms[..|ms| - 1]);
    }
  }

  /** The totals after one message, by what its body holds. */
  lemma BodyIsDone(env: Env, t: Totals, v: Validation, body: seq<byte>)
    requires env.limits.Fits() && Placed(v.specs, v.bodyLength) && |body| == v.bodyLength && t.declared <= env.limits.maxDecodedBytes
    requires !v.compressed ==> v.specs == []
    ensures var r := ReadBody(env, t, v, body);
            r.Some? ==> && 0 <= DeclaredOf(v, body) && 0 <= DecodedOf(v, body)
                        && t.declared + DeclaredOf(v, body) <= env.limits.maxDecodedBytes
                        && Complete(env, t.(declared := t.declared + DeclaredOf(v, body)), v.kind, DecodedOf(v, body)) == Ok(r.value)
  {
    PreflightIsSum(env.limits, v.specs, body, t.declared);
    if SizesValid(v.specs, body) {
      SizesNotNegative(v.specs, body);
    }
  }

  /** What the totals of an accepted stream are, in terms of its messages alone. */
  ghost predicate TotalsAre(env: Env, t: Totals, after: Totals, log: Log) {
    && after.declared == t.declared + log.declared <= env.limits.maxDecodedBytes
    && (after.schemaSeen <==> t.schemaSeen || log.schemas > 0)
    && var c := CompleteAll(env, t, log.done);
       c.Ok? && after == c.value.(declared := after.declared, schemaSeen := after.schemaSeen)
  }

  /** Where the metadata of the first message begins, and how long it is; no length is the end of the stream. */
  function FirstLength(bytes: seq<byte>): nat {
    var start := HeaderLength(bytes);
    if |bytes| < start then 0 else LittleEndian(bytes[start - 4..start])
  }

  lemma ParseEnds(env: Env, t: Totals, bytes: seq<byte>)
    requires env.limits.Fits() && Parse(env, t, bytes).Some? && FirstLength(bytes) == 0
    ensures Parse(env, t, bytes).value == t && LogOf(env, t.schemaSeen, bytes) == Log([], 0, 0)
  {
    hide LittleEndian, ParseMessage;
  }

  lemma ParseGoesOn(env: Env, t: Totals, bytes: seq<byte>)
    requires env.limits.Fits() && Parse(env, t, bytes).Some? && FirstLength(bytes) > 0
    ensures var start, length := HeaderLength(bytes), FirstLength(bytes);
            && start + length <= |bytes|
            && var parsed := ParseMessage(env, t, bytes, start, length);
               parsed.Some? && Parse(env, t, bytes) == Parse(env, parsed.value.1, bytes[parsed.value.0..])
  {
    hide LittleEndian, ParseMessage;
  }

  lemma ParsedMessage(env: Env, t: Totals, bytes: seq<byte>, start: nat, length: nat)
    requires env.limits.Fits() && start + length <= |bytes| && ParseMessage(env, t, bytes, start, length).Some?
    ensures Validate(env, bytes[start..start + length], t.schemaSeen).Ok?
    ensures var v, parsed := Validate(env, bytes[start..start + length], t.schemaSeen).value, ParseMessage(env, t, bytes, start, length).value;
            var end := start + length + v.bodyLength;
            && end <= |bytes| && Placed(v.specs, v.bodyLength) && (!v.compressed ==> v.specs == [])
            && parsed.0 == end && ReadBody(env, t.(schemaSeen := t.schemaSeen || v.isSchema), v, bytes[start + length..end]) == Some(parsed.1)
  {
    hide LittleEndian, ReadBody, Placed;
  }

  /** A message in front of what follows it. */
  function Before(v: Validation, body: seq<byte>, rest: Log): Log
    requires Placed(v.specs, |body|)
  {
    Log([Done(v.kind, Max(0, DecodedOf(v, body)))] + rest.done, DeclaredOf(v, body) + rest.declared, (if v.isSchema then 1 else 0) + rest.schemas)
  }

  lemma LogGoesOn(env: Env, seen: bool, bytes: seq<byte>, v: Validation, at: nat)
    requires env.limits.Fits() && FirstLength(bytes) > 0 && at == HeaderLength(bytes) + FirstLength(bytes) <= |bytes|
    requires Validate(env, bytes[HeaderLength(bytes)..at], seen) == Ok(v) && at + v.bodyLength <= |bytes|
    ensures Placed(v.specs, v.bodyLength)
    ensures LogOf(env, seen, bytes)
         == Before(v, bytes[at..at + v.bodyLength], LogOf(env, seen || v.isSchema, bytes[at + v.bodyLength..]))
  {
    hide LittleEndian, SizesOf, DecodedOf, DeclaredOf, Placed, Validate, HeaderLength;
  }

  lemma {:induction false} ParsedTotals(env: Env, t: Totals, bytes: seq<byte>)
    requires env.limits.Fits() && t.declared <= env.limits.maxDecodedBytes && Parse(env, t, bytes).Some?
    ensures TotalsAre(env, t, Parse(env, t, bytes).value, LogOf(env, t.schemaSeen, bytes))
    decreases |bytes|
  {
    hide Validate, Complete, ReadBody, TotalsAre, LittleEndian, SizesOf, Parse, ParseMessage, LogOf, Placed;
    var start, length := HeaderLength(bytes), FirstLength(bytes);
    if length == 0 {
      ParseEnds(env, t, bytes);
      NothingLogged(env, t);
    } else {
      ParseGoesOn(env, t, bytes);
      ParsedMessage(env, t, bytes, start, length);
      var v := Validate(env, bytes[start..start + length], t.schemaSeen).value;
      var end := start + length + v.bodyLength;
      var body := bytes[start + length..end];
      var read := ReadBody(env, t.(schemaSeen := t.schemaSeen || v.isSchema), v, body).value;
      LogGoesOn(env, t.schemaSeen, bytes, v, start + length);
      AfterOne(env, t, v, body);
      ParsedTotals(env, read, bytes[end..]);
      OneMoreLogged(env, t, v, body, Parse(env, t, bytes).value, LogOf(env, read.schemaSeen, bytes[end..]));
    }
  }

  lemma NothingLogged(env: Env, t: Totals)
    requires t.declared <= env.limits.maxDecodedBytes
    ensures TotalsAre(env, t, t, Log([], 0, 0))
  {
  }

  lemma AfterOne(env: Env, t: Totals, v: Validation, body: seq<byte>)
    requires env.limits.Fits() && Placed(v.specs, v.bodyLength) && |body| == v.bodyLength && t.declared <= env.limits.maxDecodedBytes
    requires (!v.compressed ==> v.specs == []) && ReadBody(env, t.(schemaSeen := t.schemaSeen || v.isSchema), v, body).Some?
    ensures var read := ReadBody(env, t.(schemaSeen := t.schemaSeen || v.isSchema), v, body).value;
            read.schemaSeen == (t.schemaSeen || v.isSchema) && read.declared <= env.limits.maxDecodedBytes
  {
    BodyIsDone(env, t.(schemaSeen := t.schemaSeen || v.isSchema), v, body);
    hide ReadBody, SizesOf;
  }

  /** The totals after a message and what follows it, from those after the message. */
  lemma CompletedFirst(env: Env, t: Totals, m: Done, ms: seq<Done>, seen: bool, declared: nat, read: Totals)
    requires Complete(env, t.(schemaSeen := seen, declared := declared), m.kind, m.decoded) == Ok(read) && CompleteAll(env, read, ms).Ok?
    ensures read.schemaSeen == seen && read.declared == declared && CompleteAll(env, t, [m] + ms).Ok?
    ensures var a, b := CompleteAll(env, t, [m] + ms).value, CompleteAll(env, read, ms).value;
            b == a.(schemaSeen := seen, declared := declared)
  {
    FirstCompletes(env, t, m, ms);
    var first := Complete(env, t, m.kind, m.decoded).value;
    CompleteIgnores(env, first, ms, seen, declared);
    hide CompleteAll;
  }

  lemma OneMoreLogged(env: Env, t: Totals, v: Validation, body: seq<byte>, after: Totals, rest: Log)
    requires env.limits.Fits() && Placed(v.specs, v.bodyLength) && |body| == v.bodyLength && t.declared <= env.limits.maxDecodedBytes
    requires (!v.compressed ==> v.specs == []) && ReadBody(env, t.(schemaSeen := t.schemaSeen || v.isSchema), v, body).Some?
    requires TotalsAre(env, ReadBody(env, t.(schemaSeen := t.schemaSeen || v.isSchema), v, body).value, after, rest)
    ensures TotalsAre(env, t, after, Before(v, body, rest))
  {
    var seen := t.schemaSeen || v.isSchema;
    BodyIsDone(env, t.(schemaSeen := seen), v, body);
    var read := ReadBody(env, t.(schemaSeen := seen), v, body).value;
    hide ReadBody, Placed, CompleteAll, Complete, DecodedOf, DeclaredOf;
    CompletedFirst(env, t, Done(v.kind, DecodedOf(v, body)), rest.done, seen, t.declared + DeclaredOf(v, body), read);
  }

  /**
   The totals of a whole stream, fed in any chunks: declared is the sum of the sizes that its compressed
   buffers declare, retained records and dictionaries are the sums of the decoded sizes of their
   messages, and each dictionary keeps its last replacement with the deltas after it.
   */
  lemma StreamKeeps(env: Env, bytes: seq<byte>, id: int)
    requires env.limits.Fits() && Parse(env, NO_TOTALS, bytes).Some?
    ensures var t, log := Parse(env, NO_TOTALS, bytes).value, LogOf(env, false, bytes);
            && t.declared == log.declared && t.retainedRecord == RecordBytes(log.done)
            && t.retainedDictionary == DictionaryBytes(log.done) && (t.schemaSeen <==> log.schemas > 0)
            && KeptIs(NO_TOTALS, t, log.done, id)
  {
    var log := LogOf(env, false, bytes);
    ParsedTotals(env, NO_TOTALS, bytes);
    hide Parse, LogOf, CompleteAll, KeptIs;
    RetainedAreSums(env, NO_TOTALS, log.done);
    DictionariesKeep(env, NO_TOTALS, log.done, id);
    KeptIgnores(NO_TOTALS, CompleteAll(env, NO_TOTALS, log.done).value, Parse(env, NO_TOTALS, bytes).value, log.done, id);
  }

  lemma KeptIgnores(t: Totals, a: Totals, b: Totals, ms: seq<Done>, id: int)
    requires KeptIs(t, a, ms, id) && b.dictionaries == a.dictionaries
    ensures KeptIs(t, b, ms, id)
  {
  }
}
