/**
 Opening an Arrow IPC File: the metadata of every dictionary and record block is requested once, in
 batches of any size, and gives the row index (`FileIndexState` in `src/arrow.rs`).
 */
module ArrowFileIndex {
  import opened Common
  import opened RangeRequests

  datatype Block = Block(offset: nat, metadataLength: nat, bodyLength: nat)

  datatype IndexedRecord = IndexedRecord(block: Block, rowStart: nat, rowCount: nat)

  datatype Action = Action(offset: nat, length: nat)

  /** One answer of the host. */
  datatype Response = Response(offset: nat, bytes: seq<byte>, eof: bool)

  datatype Index = Index(dictionaries: seq<Block>, records: seq<IndexedRecord>, nextDictionary: nat, nextRecord: nat, rows: nat) {
    predicate Valid() {
      nextDictionary <= |dictionaries| && nextRecord <= |records| && (nextRecord > 0 ==> nextDictionary == |dictionaries|)
    }

    predicate Complete() {
      nextDictionary == |dictionaries| && nextRecord == |records|
    }
  }

  /** The source and what parsing one block's metadata message gives. */
  datatype Env = Env(
    sourceLength: nat, usizeMax: nat, dictionary: (seq<byte>, Block) -> Result<()>, rowCount: (seq<byte>, Block) -> Result<nat>)

  // ---------------------------------------------------------------- what is requested

  /** `metadata_block_at`. */
  function BlockAt(s: Index, i: nat): Option<Block>
    requires s.Valid()
  {
    var left := |s.dictionaries| - s.nextDictionary;
    if i < left then Some(s.dictionaries[s.nextDictionary + i])
    else if s.nextRecord + (i - left) < |s.records| then Some(s.records[s.nextRecord + (i - left)].block)
    else None
  }

  function Remaining(s: Index): nat
    requires s.Valid()
  {
    |s.dictionaries| - s.nextDictionary + (|s.records| - s.nextRecord)
  }

  lemma BlocksRemain(s: Index, i: nat)
    requires s.Valid()
    ensures BlockAt(s, i).Some? <==> i < Remaining(s)
  {
  }

  /** `ReadBytesAction::new`. */
  function MakeAction(env: Env, b: Block): Result<Action> {
    if b.offset + b.metadataLength > env.usizeMax then Err(ResourceLimit)
    else if b.offset + b.metadataLength > env.sourceLength then Err(ParseFailed)
    else Ok(Action(b.offset, b.metadataLength))
  }

  function Length(actions: seq<Action>): nat {
    if actions == [] then 0 else Length(actions[..|actions| - 1]) + actions[|actions| - 1].length
  }

  /** The loop of `next_actions`, from the actions found so far. */
  function Collect(s: Index, env: Env, found: seq<Action>, maxRanges: nat, maxBytes: nat): Result<seq<Action>>
    requires s.Valid() && |found| <= maxRanges
    decreases maxRanges - |found|
  {
    if |found| == maxRanges || BlockAt(s, |found|) == None then Ok(found)
    else
      var action :- MakeAction(env, BlockAt(s, |found|).value);
      if Length(found) + action.length > U64_MAX then Err(ResourceLimit)
      else if Length(found) + action.length > maxBytes then Ok(found)
      else Collect(s, env, found + [action], maxRanges, maxBytes)
  }

  function PlannedActions(s: Index, env: Env, maxRanges: nat, maxBytes: nat): Result<seq<Action>>
    requires s.Valid()
  {
    if maxRanges == 0 || maxBytes == 0 then Err(InvalidArgument)
    else
      var actions :- Collect(s, env, [], maxRanges, maxBytes);
      if actions == [] && !s.Complete() then Err(ResourceLimit) else Ok(actions)
  }

  /** The actions are the next blocks in order, inside the source. */
  predicate AreNext(s: Index, env: Env, actions: seq<Action>)
    requires s.Valid()
  {
    && |actions| <= Remaining(s)
    && forall i :: 0 <= i < |actions| ==>
         && BlockAt(s, i).Some?
         && actions[i] == Action(BlockAt(s, i).value.offset, BlockAt(s, i).value.metadataLength)
         && actions[i].offset + actions[i].length <= env.sourceLength
  }

  lemma OneMoreIsNext(s: Index, env: Env, found: seq<Action>)
    requires s.Valid() && AreNext(s, env, found) && |found| < Remaining(s)
    ensures BlockAt(s, |found|).Some?
    ensures var action := MakeAction(env, BlockAt(s, |found|).value);
            action.Ok? ==> AreNext(s, env, found + [action.value])
                           && Length(found + [action.value]) == Length(found) + BlockAt(s, |found|).value.metadataLength
  {
    BlocksRemain(s, |found|);
    var action := MakeAction(env, BlockAt(s, |found|).value);
    if action.Ok? {
      assert (found + [action.value])[..|found|] == found;
    }
  }

  /** As many actions as the limits allow: one more would be one too many, or one too large. */
  lemma {:induction false} CollectIsMaximal(s: Index, env: Env, found: seq<Action>, maxRanges: nat, maxBytes: nat)
    requires s.Valid() && |found| <= maxRanges && AreNext(s, env, found) && Length(found) <= maxBytes
    ensures var r := Collect(s, env, found, maxRanges, maxBytes);
            r.Ok? ==>
              && AreNext(s, env, r.value) && |found| <= |r.value| <= maxRanges && Length(r.value) <= maxBytes
              && (|r.value| < maxRanges && |r.value| < Remaining(s) ==>
                    Length(r.value) + BlockAt(s, |r.value|).value.metadataLength > maxBytes)
    decreases maxRanges - |found|
  {
    BlocksRemain(s, |found|);
    hide BlockAt, Length;
    if |found| < maxRanges && |found| < Remaining(s) {
      OneMoreIsNext(s, env, found);
      hide AreNext;
      var action := MakeAction(env, BlockAt(s, |found|).value);
      if action.Ok? && Length(found) + action.value.length <= maxBytes && Length(found) + action.value.length <= U64_MAX {
        CollectIsMaximal(s, env, found + [action.value], maxRanges, maxBytes);
      }
    }
  }

  /** A batch of actions: the next blocks, within both limits, never empty while blocks remain. */
  lemma NextActionsAreNext(s: Index, env: Env, maxRanges: nat, maxBytes: nat)
    requires s.Valid()
    ensures var r := PlannedActions(s, env, maxRanges, maxBytes);
            r.Ok? ==>
              && AreNext(s, env, r.value) && |r.value| <= maxRanges && Length(r.value) <= maxBytes
              && (r.value == [] <==> s.Complete())
              && (|r.value| < maxRanges && |r.value| < Remaining(s) ==>
                    Length(r.value) + BlockAt(s, |r.value|).value.metadataLength > maxBytes)
  {
    if maxRanges > 0 && maxBytes > 0 {
      CollectIsMaximal(s, env, [], maxRanges, maxBytes);
    }
  }

  lemma CollectStep(s: Index, env: Env, found: seq<Action>, maxRanges: nat, maxBytes: nat)
    requires s.Valid() && |found| <= maxRanges
    ensures Collect(s, env, found, maxRanges, maxBytes)
         == if |found| == maxRanges || BlockAt(s, |found|) == None then Ok(found)
            else
              var action := MakeAction(env, BlockAt(s, |found|).value);
              if action.Err? then Err(action.error)
              else if Length(found) + action.value.length > U64_MAX then Err(ResourceLimit)
              else if Length(found) + action.value.length > maxBytes then Ok(found)
              else Collect(s, env, found + [action.value], maxRanges, maxBytes)
  {
    hide BlockAt, MakeAction, Length;
  }

  lemma OneLonger(actions: seq<Action>, action: Action)
    ensures Length(actions + [action]) == Length(actions) + action.length
  {
    assert (actions + [action])[..|actions|] == actions;
  }

  lemma NoLength()
    ensures Length([]) == 0
  {
  }

  // ---------------------------------------------------------------- what is indexed

  /** `index_file_metadata`: the next block's metadata is taken in. */
  function IndexOne(s: Index, env: Env, bytes: seq<byte>): (r: Result<Index>)
    requires s.Valid()
    ensures r.Ok? ==> r.value.Valid() && Remaining(s) == Remaining(r.value) + 1
  {
    if s.nextDictionary < |s.dictionaries| then
      var _ :- env.dictionary(bytes, s.dictionaries[s.nextDictionary]);
      Ok(s.(nextDictionary := s.nextDictionary + 1))
    else if s.nextRecord == |s.records| then Err(RuntimeFailure)
    else
      var record := s.records[s.nextRecord];
      var count :- env.rowCount(bytes, record.block);
      if s.rows + count > env.usizeMax then Err(ResourceLimit)
      else
        Ok(s.(records := s.records[s.nextRecord := IndexedRecord(record.block, s.rows, count)],
              rows := s.rows + count, nextRecord := s.nextRecord + 1))
  }

  /** `validate_action_response`. */
  predicate Matches(env: Env, a: Action, r: Response) {
    r.offset == a.offset && |r.bytes| == a.length && r.eof == (a.offset + a.length == env.sourceLength)
  }

  function IndexMany(s: Index, env: Env, results: seq<Response>): (r: Result<Index>)
    requires s.Valid()
    ensures r.Ok? ==> r.value.Valid() && Remaining(s) == Remaining(r.value) + |results|
    decreases |results|
  {
    if results == [] then Ok(s)
    else
      var first :- IndexOne(s, env, results[0].bytes);
      IndexMany(first, env, results[1..])
  }

  /** The responses are those to the next actions, all of them. */
  predicate Expected(s: Index, env: Env, results: seq<Response>)
    requires s.Valid()
  {
    var planned := PlannedActions(s, env, |results|, U64_MAX);
    && results != [] && planned.Ok? && |planned.value| == |results|
    && forall i :: 0 <= i < |results| ==> Matches(env, planned.value[i], results[i])
  }

  /** `feed_many_owned` while a File is being indexed. */
  function FedMany(s: Index, env: Env, results: seq<Response>): (r: Result<Index>)
    requires s.Valid()
    ensures r.Ok? ==> r.value.Valid() && Remaining(r.value) < Remaining(s)
  {
    if results == [] then Err(InvalidArgument)
    else
      var expected :- PlannedActions(s, env, |results|, U64_MAX);
      if |expected| != |results| || exists i :: 0 <= i < |results| && !Matches(env, expected[i], results[i]) then Err(InvalidArgument)
      else IndexMany(s, env, results)
  }

  // ---------------------------------------------------------------- batching does not matter

  /** The bytes of a block's metadata, if it lies in the source. */
  function MetadataOf(source: seq<byte>, b: Block): seq<byte> {
    if b.offset + b.metadataLength <= |source| then source[b.offset..b.offset + b.metadataLength] else []
  }

  /** The reference: the next `n` blocks are indexed one after the other, straight from the source. */
  function IndexBlocks(s: Index, env: Env, source: seq<byte>, n: nat): (r: Result<Index>)
    requires s.Valid() && n <= Remaining(s)
    ensures r.Ok? ==> r.value.Valid() && Remaining(s) == Remaining(r.value) + n
    decreases n
  {
    if n == 0 then Ok(s)
    else
      BlocksRemain(s, 0);
      var first :- IndexOne(s, env, MetadataOf(source, BlockAt(s, 0).value));
      IndexBlocks(first, env, source, n - 1)
  }

  /** The host answers the next `n` requests from the source. */
  function Answers(s: Index, source: seq<byte>, n: nat): (r: seq<Response>)
    requires s.Valid() && n <= Remaining(s)
    ensures |r| == n
    ensures forall i :: 0 <= i < n ==> BlockAt(s, i).Some? && r[i] == Answer(source, BlockAt(s, i).value)
  {
    seq(n, i requires 0 <= i < n => BlocksRemain(s, i); Answer(source, BlockAt(s, i).value))
  }

  function Answer(source: seq<byte>, b: Block): Response {
    Response(b.offset, MetadataOf(source, b), b.offset + b.metadataLength == |source|)
  }

  lemma BlockAfter(s: Index, env: Env, bytes: seq<byte>, i: nat)
    requires s.Valid() && IndexOne(s, env, bytes).Ok?
    ensures BlockAt(IndexOne(s, env, bytes).value, i) == BlockAt(s, i + 1)
  {
  }

  lemma {:induction false} AnswersIndex(s: Index, env: Env, source: seq<byte>, n: nat)
    requires s.Valid() && n <= Remaining(s)
    ensures IndexMany(s, env, Answers(s, source, n)) == IndexBlocks(s, env, source, n)
    decreases n
  {
    if n > 0 {
      var answers := Answers(s, source, n);
      BlocksRemain(s, 0);
      var first := IndexOne(s, env, answers[0].bytes);
      if first.Ok? {
        AnswersIndex(first.value, env, source, n - 1);
        forall i | 0 <= i < n - 1 ensures answers[1..][i] == Answers(first.value, source, n - 1)[i] {
          BlockAfter(s, env, answers[0].bytes, i);
        }
        assert answers[1..] == Answers(first.value, source, n - 1);
      }
    }
  }

  /** A batch of answers from the source that is accepted indexes exactly those blocks. */
  lemma AllPlanned(s: Index, env: Env, n: nat)
    requires s.Valid() && 0 < n <= Remaining(s) && PlannedActions(s, env, n, U64_MAX).Ok?
    ensures |PlannedActions(s, env, n, U64_MAX).value| == n
  {
    CollectsAll(s, env, [], n);
    hide Collect;
  }

  /** What answers the next actions matches them. */
  lemma AnswersMatch(s: Index, env: Env, source: seq<byte>, n: nat, actions: seq<Action>)
    requires s.Valid() && n <= Remaining(s) && |source| == env.sourceLength && AreNext(s, env, actions) && |actions| == n
    ensures forall i :: 0 <= i < n ==> Matches(env, actions[i], Answers(s, source, n)[i])
  {
    var answers := Answers(s, source, n);
    hide Answers, BlockAt;
    forall i | 0 <= i < n ensures Matches(env, actions[i], answers[i]) {
    }
  }

  lemma FeedIsIndexBlocks(s: Index, env: Env, source: seq<byte>, n: nat)
    requires s.Valid() && 0 < n <= Remaining(s) && |source| == env.sourceLength
    ensures FedMany(s, env, Answers(s, source, n))
         == var expected := PlannedActions(s, env, n, U64_MAX);
            if expected.Err? then Err(expected.error) else IndexBlocks(s, env, source, n)
  {
    hide PlannedActions, Collect, IndexMany, IndexBlocks, Answers, Matches, AreNext, BlockAt;
    var expected := PlannedActions(s, env, n, U64_MAX);
    AnswersIndex(s, env, source, n);
    if expected.Ok? {
      NextActionsAreNext(s, env, n, U64_MAX);
      AllPlanned(s, env, n);
      AnswersMatch(s, env, source, n, expected.value);
    }
  }

  /** With the whole of `u64` to spend, the loop stops only at the count asked for. */
  lemma {:induction false} CollectsAll(s: Index, env: Env, found: seq<Action>, n: nat)
    requires s.Valid() && |found| <= n <= Remaining(s)
    ensures var r := Collect(s, env, found, n, U64_MAX); r.Ok? ==> |r.value| == n
    decreases n - |found|
  {
    BlocksRemain(s, |found|);
    if |found| < n {
      var action := MakeAction(env, BlockAt(s, |found|).value);
      if action.Ok? && Length(found) + action.value.length <= U64_MAX {
        CollectsAll(s, env, found + [action.value], n);
      }
    }
  }

  function Sum(ns: seq<nat>): nat {
    if ns == [] then 0 else ns[0] + Sum(ns[1..])
  }

  /** A whole opening: batches of the given sizes. */
  function OpenRun(s: Index, env: Env, source: seq<byte>, sizes: seq<nat>): Result<Index>
    requires s.Valid() && Sum(sizes) <= Remaining(s)
    decreases |sizes|
  {
    if sizes == [] then Ok(s)
    else
      var next :- FedMany(s, env, Answers(s, source, sizes[0]));
      FeedCounts(s, env, source, sizes[0]);
      OpenRun(next, env, source, sizes[1..])
  }

  lemma FeedCounts(s: Index, env: Env, source: seq<byte>, n: nat)
    requires s.Valid() && n <= Remaining(s)
    ensures var r := FedMany(s, env, Answers(s, source, n)); r.Ok? ==> Remaining(r.value) == Remaining(s) - n
  {
  }

  lemma IndexBlocksStep(s: Index, env: Env, source: seq<byte>, n: nat)
    requires s.Valid() && 0 < n <= Remaining(s)
    ensures BlockAt(s, 0).Some?
    ensures IndexBlocks(s, env, source, n)
         == var first := IndexOne(s, env, MetadataOf(source, BlockAt(s, 0).value));
            if first.Err? then first else IndexBlocks(first.value, env, source, n - 1)
  {
    BlocksRemain(s, 0);
    hide IndexOne, BlockAt, MetadataOf;
  }

  lemma NoBlocks(s: Index, env: Env, source: seq<byte>)
    requires s.Valid()
    ensures IndexBlocks(s, env, source, 0) == Ok(s)
  {
  }

  lemma {:induction false} IndexBlocksConcat(s: Index, env: Env, source: seq<byte>, m: nat, n: nat)
    requires s.Valid() && m + n <= Remaining(s)
    ensures IndexBlocks(s, env, source, m + n)
         == var first := IndexBlocks(s, env, source, m);
            if first.Err? then first else IndexBlocks(first.value, env, source, n)
    decreases m
  {
    hide IndexBlocks, IndexOne, BlockAt, MetadataOf;
    if m > 0 {
      IndexBlocksStep(s, env, source, m + n);
      IndexBlocksStep(s, env, source, m);
      var first := IndexOne(s, env, MetadataOf(source, BlockAt(s, 0).value));
      if first.Ok? {
        IndexBlocksConcat(first.value, env, source, m - 1, n);
      }
    } else {
      NoBlocks(s, env, source);
    }
  }

  /** However the requests are batched, an opening that succeeds gives the same index. */
  lemma {:induction false} BatchingIsIrrelevant(s: Index, env: Env, source: seq<byte>, sizes: seq<nat>)
    requires s.Valid() && Sum(sizes) <= Remaining(s) && |source| == env.sourceLength
    requires OpenRun(s, env, source, sizes).Ok?
    ensures OpenRun(s, env, source, sizes) == IndexBlocks(s, env, source, Sum(sizes))
    decreases |sizes|
  {
    hide IndexOne, BlockAt, Answers;
    if sizes != [] {
      var n := sizes[0];
      FeedIsIndexBlocks(s, env, source, n);
      FeedCounts(s, env, source, n);
      var next := FedMany(s, env, Answers(s, source, n)).value;
      BatchingIsIrrelevant(next, env, source, sizes[1..]);
      IndexBlocksConcat(s, env, source, n, Sum(sizes[1..]));
    }
  }

  /** The metadata of the next `n` blocks. */
  function MetadataBytes(s: Index, n: nat): nat
    requires s.Valid() && n <= Remaining(s)
    decreases n
  {
    if n == 0 then 0
    else
      BlocksRemain(s, n - 1);
      MetadataBytes(s, n - 1) + BlockAt(s, n - 1).value.metadataLength
  }

  /** The next `n` blocks can be asked for at once. */
  predicate Requestable(s: Index, env: Env, n: nat)
    requires s.Valid() && n <= Remaining(s)
  {
    MetadataBytes(s, n) <= U64_MAX
    && forall i :: 0 <= i < n ==> BlockAt(s, i).Some? && MakeAction(env, BlockAt(s, i).value).Ok?
  }

  lemma {:induction false} BytesGrow(s: Index, m: nat, n: nat)
    requires s.Valid() && m <= n <= Remaining(s)
    ensures MetadataBytes(s, m) <= MetadataBytes(s, n)
    decreases n - m
  {
    if m < n {
      BlocksRemain(s, n - 1);
      BytesGrow(s, m, n - 1);
    }
  }

  lemma {:induction false} CollectSucceeds(s: Index, env: Env, found: seq<Action>, n: nat)
    requires s.Valid() && |found| <= n <= Remaining(s) && Requestable(s, env, n) && Length(found) == MetadataBytes(s, |found|)
    ensures Collect(s, env, found, n, U64_MAX).Ok?
    decreases n - |found|
  {
    BlocksRemain(s, |found|);
    if |found| < n {
      var more := found + [MakeAction(env, BlockAt(s, |found|).value).value];
      assert more[..|more| - 1] == found;
      BytesGrow(s, |more|, n);
      CollectSucceeds(s, env, more, n);
    }
  }

  lemma {:induction false} BlocksAfter(s: Index, env: Env, source: seq<byte>, m: nat, i: nat)
    requires s.Valid() && m + i < Remaining(s) && IndexBlocks(s, env, source, m).Ok?
    ensures BlockAt(IndexBlocks(s, env, source, m).value, i) == BlockAt(s, m + i)
    decreases m
  {
    hide IndexBlocks, IndexOne, BlockAt, MetadataOf;
    if m > 0 {
      IndexBlocksStep(s, env, source, m);
      var bytes := MetadataOf(source, BlockAt(s, 0).value);
      BlockAfter(s, env, bytes, m - 1 + i);
      BlocksAfter(IndexOne(s, env, bytes).value, env, source, m - 1, i);
    } else {
      NoBlocks(s, env, source);
    }
  }

  lemma {:induction false} BytesAfter(s: Index, env: Env, source: seq<byte>, m: nat, n: nat)
    requires s.Valid() && m + n <= Remaining(s) && IndexBlocks(s, env, source, m).Ok?
    ensures MetadataBytes(s, m + n) == MetadataBytes(s, m) + MetadataBytes(IndexBlocks(s, env, source, m).value, n)
    decreases n
  {
    hide IndexBlocks, IndexOne, BlockAt;
    if n > 0 {
      BlocksRemain(s, m + n - 1);
      BytesAfter(s, env, source, m, n - 1);
      BlocksAfter(s, env, source, m, n - 1);
      BlocksRemain(IndexBlocks(s, env, source, m).value, n - 1);
    }
  }

  lemma RequestableAfter(s: Index, env: Env, source: seq<byte>, m: nat, n: nat)
    requires s.Valid() && m + n <= Remaining(s) && Requestable(s, env, m + n) && IndexBlocks(s, env, source, m).Ok?
    ensures Requestable(IndexBlocks(s, env, source, m).value, env, n)
  {
    hide IndexBlocks, IndexOne, BlockAt, MetadataBytes;
    BytesAfter(s, env, source, m, n);
    forall i | 0 <= i < n ensures BlockAt(IndexBlocks(s, env, source, m).value, i) == BlockAt(s, m + i) {
      BlocksAfter(s, env, source, m, i);
    }
  }

  lemma FeedSucceeds(s: Index, env: Env, source: seq<byte>, n: nat)
    requires s.Valid() && 0 < n <= Remaining(s) && |source| == env.sourceLength && Requestable(s, env, n)
    ensures FedMany(s, env, Answers(s, source, n)) == IndexBlocks(s, env, source, n)
  {
    hide IndexBlocks, IndexOne, BlockAt, FedMany;
    CollectSucceeds(s, env, [], n);
    CollectsAll(s, env, [], n);
    FeedIsIndexBlocks(s, env, source, n);
  }

  predicate AllPositive(sizes: seq<nat>) {
    forall i :: 0 <= i < |sizes| ==> sizes[i] > 0
  }

  /** While the blocks lie in the source every batching succeeds or fails exactly as indexing block by block does. */
  lemma {:induction false} BatchesFailAlike(s: Index, env: Env, source: seq<byte>, sizes: seq<nat>)
    requires s.Valid() && Sum(sizes) <= Remaining(s) && |source| == env.sourceLength
    requires AllPositive(sizes) && Requestable(s, env, Sum(sizes))
    ensures OpenRun(s, env, source, sizes) == IndexBlocks(s, env, source, Sum(sizes))
    decreases |sizes|
  {
    hide IndexOne, BlockAt, FedMany, Answers, MetadataBytes;
    if sizes != [] {
      var n, rest := sizes[0], Sum(sizes[1..]);
      assert Requestable(s, env, n) by { BytesGrow(s, n, n + rest); }
      FeedSucceeds(s, env, source, n);
      IndexBlocksConcat(s, env, source, n, rest);
      FeedCounts(s, env, source, n);
      var next := IndexBlocks(s, env, source, n);
      hide IndexBlocks;
      if next.Ok? {
        RequestableAfter(s, env, source, n, rest);
        hide Requestable;
        BatchesFailAlike(next.value, env, source, sizes[1..]);
      }
    }
  }

  // ---------------------------------------------------------------- exactly when requests and answers are taken

  /** A block whose metadata lies in the source, at addresses that the machine has. */
  predicate InSource(env: Env, b: Block) {
    b.offset + b.metadataLength <= Min(env.usizeMax, env.sourceLength)
  }

  /** Block `i` is looked at if the count allows it and all blocks before it fit together. */
  predicate LookedAt(s: Index, maxRanges: nat, maxBytes: nat, i: nat)
    requires s.Valid()
  {
    i < maxRanges && i < Remaining(s) && MetadataBytes(s, i) <= maxBytes
  }

  /** Every block that is looked at from the `from`-th on lies in the source. */
  ghost predicate AllInSource(s: Index, env: Env, maxRanges: nat, maxBytes: nat, from: nat)
    requires s.Valid()
  {
    forall i: nat :: from <= i < Remaining(s) && LookedAt(s, maxRanges, maxBytes, i) ==>
      BlockAt(s, i).Some? && InSource(env, BlockAt(s, i).value) && MetadataBytes(s, i + 1) <= U64_MAX
  }

  lemma NoneLookedAt(s: Index, env: Env, maxRanges: nat, maxBytes: nat, n: nat)
    requires s.Valid() && n <= Remaining(s) && (n >= maxRanges || n == Remaining(s) || MetadataBytes(s, n) > maxBytes)
    ensures AllInSource(s, env, maxRanges, maxBytes, n)
  {
    hide MetadataBytes, BlockAt;
    forall i: nat | n <= i < Remaining(s) ensures !LookedAt(s, maxRanges, maxBytes, i) {
      BytesGrow(s, n, i);
    }
  }

  lemma OneMoreInSource(s: Index, env: Env, maxRanges: nat, maxBytes: nat, n: nat)
    requires s.Valid() && LookedAt(s, maxRanges, maxBytes, n)
    ensures BlockAt(s, n).Some?
    ensures AllInSource(s, env, maxRanges, maxBytes, n)
       <==> InSource(env, BlockAt(s, n).value) && MetadataBytes(s, n + 1) <= U64_MAX && AllInSource(s, env, maxRanges, maxBytes, n + 1)
  {
    BlocksRemain(s, n);
    hide LookedAt, InSource, MetadataBytes, BlockAt;
  }

  lemma {:induction false} CollectFails(s: Index, env: Env, found: seq<Action>, maxRanges: nat, maxBytes: nat)
    requires s.Valid() && |found| <= maxRanges && |found| <= Remaining(s) && maxBytes <= U64_MAX
    requires Length(found) == MetadataBytes(s, |found|) <= maxBytes
    ensures Collect(s, env, found, maxRanges, maxBytes).Ok? <==> AllInSource(s, env, maxRanges, maxBytes, |found|)
    decreases maxRanges - |found|
  {
    CollectStep(s, env, found, maxRanges, maxBytes);
    BlocksRemain(s, |found|);
    hide Collect, BlockAt, MetadataBytes, AllInSource;
    var n := |found|;
    if n < maxRanges && n < Remaining(s) {
      NextBytes(s, n);
      OneMoreInSource(s, env, maxRanges, maxBytes, n);
      var action := MakeAction(env, BlockAt(s, n).value);
      if action.Ok? && MetadataBytes(s, n + 1) <= U64_MAX {
        if MetadataBytes(s, n + 1) > maxBytes {
          NoneLookedAt(s, env, maxRanges, maxBytes, n + 1);
        } else {
          OneLonger(found, action.value);
          CollectFails(s, env, found + [action.value], maxRanges, maxBytes);
        }
      }
    } else {
      NoneLookedAt(s, env, maxRanges, maxBytes, n);
    }
  }

  lemma NextBytes(s: Index, n: nat)
    requires s.Valid() && n < Remaining(s)
    ensures BlockAt(s, n).Some? && MetadataBytes(s, n + 1) == MetadataBytes(s, n) + BlockAt(s, n).value.metadataLength
  {
    BlocksRemain(s, n);
  }

  /**
   Actions are planned exactly if both limits are positive, every block that is looked at lies in the
   source, and the first one fits the bytes.
   */
  lemma PlannedExactlyWhen(s: Index, env: Env, maxRanges: nat, maxBytes: nat)
    requires s.Valid() && maxBytes <= U64_MAX
    ensures PlannedActions(s, env, maxRanges, maxBytes).Ok?
       <==> && maxRanges > 0 && maxBytes > 0 && AllInSource(s, env, maxRanges, maxBytes, 0)
            && (Remaining(s) > 0 ==> MetadataBytes(s, 1) <= maxBytes)
  {
    NoLength();
    CollectFails(s, env, [], maxRanges, maxBytes);
    if maxRanges > 0 && maxBytes > 0 && Collect(s, env, [], maxRanges, maxBytes).Ok? {
      CollectIsMaximal(s, env, [], maxRanges, maxBytes);
      if Remaining(s) > 0 {
        NextBytes(s, 0);
        LengthOfNext(s, env, Collect(s, env, [], maxRanges, maxBytes).value);
        if Collect(s, env, [], maxRanges, maxBytes).value != [] {
          BytesGrow(s, 1, |Collect(s, env, [], maxRanges, maxBytes).value|);
        }
      }
    }
    hide Collect, BlockAt, AreNext, AllInSource, MetadataBytes;
  }

  lemma {:induction false} LengthOfNext(s: Index, env: Env, actions: seq<Action>)
    requires s.Valid() && AreNext(s, env, actions)
    ensures Length(actions) == MetadataBytes(s, |actions|)
    decreases |actions|
  {
    if actions != [] {
      var n := |actions| - 1;
      assert actions[n].length == BlockAt(s, n).value.metadataLength;
      assert AreNext(s, env, actions[..n]);
      LengthOfNext(s, env, actions[..n]);
    }
  }

  /** Answers are taken only if they are those to the next blocks: place, length and whether the source ends there. */
  lemma OnlyAnswersAreTaken(s: Index, env: Env, results: seq<Response>)
    requires s.Valid() && FedMany(s, env, results).Ok?
    ensures 0 < |results| <= Remaining(s)
    ensures forall i :: 0 <= i < |results| ==>
              && BlockAt(s, i).Some? && results[i].offset == BlockAt(s, i).value.offset
              && |results[i].bytes| == BlockAt(s, i).value.metadataLength
              && (results[i].eof <==> BlockAt(s, i).value.offset + BlockAt(s, i).value.metadataLength == env.sourceLength)
    ensures FedMany(s, env, results) == IndexMany(s, env, results)
  {
    NextActionsAreNext(s, env, |results|, U64_MAX);
    var expected := PlannedActions(s, env, |results|, U64_MAX).value;
    hide PlannedActions, IndexMany;
    assert forall i :: 0 <= i < |results| ==> Matches(env, expected[i], results[i]);
  }

  // ---------------------------------------------------------------- the finished index

  function RowsOf(records: seq<IndexedRecord>): nat {
    if records == [] then 0 else RowsOf(records[..|records| - 1]) + records[|records| - 1].rowCount
  }

  /** The first `n` records start where the rows before them end. */
  predicate Prefixed(records: seq<IndexedRecord>, n: nat) {
    n <= |records| && forall i :: 0 <= i < n ==> records[i].rowStart == RowsOf(records[..i])
  }

  /** The row index so far: prefix sums of row counts, each read from its own block. */
  predicate IndexOk(s: Index, env: Env, source: seq<byte>) {
    && s.Valid() && Prefixed(s.records, s.nextRecord) && s.rows == RowsOf(s.records[..s.nextRecord])
    && forall i :: 0 <= i < s.nextRecord ==>
         env.rowCount(MetadataOf(source, s.records[i].block), s.records[i].block) == Ok(s.records[i].rowCount)
  }

  lemma IndexOneKeeps(s: Index, env: Env, source: seq<byte>)
    requires IndexOk(s, env, source) && Remaining(s) > 0
    ensures BlockAt(s, 0).Some?
    ensures var r := IndexOne(s, env, MetadataOf(source, BlockAt(s, 0).value));
            r.Ok? ==> IndexOk(r.value, env, source) && |r.value.records| == |s.records| && r.value.dictionaries == s.dictionaries
                      && forall i :: 0 <= i < |s.records| ==> r.value.records[i].block == s.records[i].block
  {
    BlocksRemain(s, 0);
    var r := IndexOne(s, env, MetadataOf(source, BlockAt(s, 0).value));
    if r.Ok? && s.nextDictionary == |s.dictionaries| {
      var n := s.nextRecord;
      assert r.value.records[..n + 1][..n] == s.records[..n];
      forall i | 0 <= i < n ensures r.value.records[..i] == s.records[..i] {
      }
      assert r.value.records[..n] == s.records[..n];
    }
  }

  /** Indexing keeps the blocks and finds for every record its row count and the rows before it. */
  lemma {:induction false} IndexIsPrefixSums(s: Index, env: Env, source: seq<byte>, n: nat)
    requires IndexOk(s, env, source) && n <= Remaining(s)
    ensures var r := IndexBlocks(s, env, source, n);
            r.Ok? ==> IndexOk(r.value, env, source) && |r.value.records| == |s.records| && r.value.dictionaries == s.dictionaries
                      && forall i :: 0 <= i < |s.records| ==> r.value.records[i].block == s.records[i].block
    decreases n
  {
    if n > 0 {
      IndexOneKeeps(s, env, source);
      var first := IndexOne(s, env, MetadataOf(source, BlockAt(s, 0).value));
      if first.Ok? {
        IndexIsPrefixSums(first.value, env, source, n - 1);
      }
    }
  }

  /** What the metadata of the block `i` blocks ahead says: nothing of a dictionary, the rows of a record, or an error. */
  function RowsAt(s: Index, env: Env, source: seq<byte>, i: nat): Result<nat>
    requires s.Valid() && i < Remaining(s)
  {
    BlocksRemain(s, i);
    var b := BlockAt(s, i).value;
    var bytes := MetadataOf(source, b);
    if i < |s.dictionaries| - s.nextDictionary then
      (if env.dictionary(bytes, b).Ok? then Ok(0) else Err(env.dictionary(bytes, b).error))
    else env.rowCount(bytes, b)
  }

  /** The rows of the next `n` blocks, if all of them say how many they have. */
  function RowsAhead(s: Index, env: Env, source: seq<byte>, n: nat): Result<nat>
    requires s.Valid() && n <= Remaining(s)
  {
    if n == 0 then Ok(0)
    else
      var front :- RowsAhead(s, env, source, n - 1);
      var last :- RowsAt(s, env, source, n - 1);
      Ok(front + last)
  }

  lemma RowsAtAfter(s: Index, env: Env, source: seq<byte>, bytes: seq<byte>, i: nat)
    requires s.Valid() && i + 1 < Remaining(s) && IndexOne(s, env, bytes).Ok?
    ensures RowsAt(IndexOne(s, env, bytes).value, env, source, i) == RowsAt(s, env, source, i + 1)
  {
    BlockAfter(s, env, bytes, i);
    hide BlockAt, MetadataOf;
  }

  lemma {:induction false} RowsAheadAfter(s: Index, env: Env, source: seq<byte>, bytes: seq<byte>, n: nat)
    requires s.Valid() && n + 1 <= Remaining(s) && IndexOne(s, env, bytes).Ok? && RowsAt(s, env, source, 0).Ok?
    ensures var rest, all := RowsAhead(IndexOne(s, env, bytes).value, env, source, n), RowsAhead(s, env, source, n + 1);
            && (all.Ok? <==> rest.Ok?) && (all.Ok? ==> all.value == RowsAt(s, env, source, 0).value + rest.value)
    decreases n
  {
    if n > 0 {
      RowsAheadAfter(s, env, source, bytes, n - 1);
      RowsAtAfter(s, env, source, bytes, n - 1);
      hide RowsAt, IndexOne;
    } else {
      assert RowsAhead(s, env, source, 0) == Ok(0);
      hide RowsAt, IndexOne;
    }
  }

  lemma IndexesOne(s: Index, env: Env, source: seq<byte>)
    requires s.Valid() && Remaining(s) > 0
    ensures BlockAt(s, 0).Some?
    ensures var r, rows := IndexOne(s, env, MetadataOf(source, BlockAt(s, 0).value)), RowsAt(s, env, source, 0);
            && (r.Ok? <==> rows.Ok? && (s.nextDictionary < |s.dictionaries| || s.rows + rows.value <= env.usizeMax))
            && (r.Ok? ==> r.value.rows == s.rows + rows.value)
  {
    BlocksRemain(s, 0);
    hide MetadataOf;
  }

  /** Indexing succeeds exactly if every block can be read and all rows together are a number that the machine has. */
  lemma {:induction false} IndexesExactlyWhen(s: Index, env: Env, source: seq<byte>, n: nat)
    requires s.Valid() && n <= Remaining(s) && s.rows <= env.usizeMax
    ensures var r, rows := IndexBlocks(s, env, source, n), RowsAhead(s, env, source, n);
            && (r.Ok? <==> rows.Ok? && s.rows + rows.value <= env.usizeMax)
            && (r.Ok? ==> r.value.rows == s.rows + rows.value)
    decreases n
  {
    if n == 0 {
      NoBlocks(s, env, source);
    } else {
      IndexBlocksStep(s, env, source, n);
      IndexesOne(s, env, source);
      var first := IndexOne(s, env, MetadataOf(source, BlockAt(s, 0).value));
      if first.Ok? {
        IndexesExactlyWhen(first.value, env, source, n - 1);
        RowsAheadAfter(s, env, source, MetadataOf(source, BlockAt(s, 0).value), n - 1);
      } else {
        FirstRows(s, env, source, n);
      }
      hide IndexBlocks, IndexOne, RowsAt, RowsAhead, MetadataOf, BlockAt;
    }
  }

  lemma {:induction false} FirstRows(s: Index, env: Env, source: seq<byte>, n: nat)
    requires s.Valid() && 0 < n <= Remaining(s)
    ensures RowsAhead(s, env, source, n).Ok? ==>
              RowsAt(s, env, source, 0).Ok? && RowsAhead(s, env, source, n).value >= RowsAt(s, env, source, 0).value
    decreases n
  {
    hide RowsAt;
    if n > 1 {
      FirstRows(s, env, source, n - 1);
    } else {
      assert RowsAhead(s, env, source, 0) == Ok(0);
    }
  }

  // ---------------------------------------------------------------- the operation

  /** `ArrowIpcOpenOperation` from the footer on; `state` is gone once the open has ended. */
  class ArrowFileOpen {
    const env: Env
    var state: Option<Index>
    var result: Option<Index>

    constructor (e: Env, dictionaries: seq<Block>, records: seq<Block>)
      ensures env == e && result == None && state.Some? && state.value.Valid()
      ensures forall source :: IndexOk(state.value, e, source)
    {
      env, result := e, None;
      state := Some(Index(dictionaries, seq(|records|, i requires 0 <= i < |records| => IndexedRecord(records[i], 0, 0)), 0, 0, 0));
    }

    method NextActions(maxRanges: nat, maxBytes: nat) returns (r: Result<seq<Action>>)
      requires state.Some? && state.value.Valid()
      ensures r == PlannedActions(state.value, env, maxRanges, maxBytes)
    {
      if maxRanges == 0 || maxBytes == 0 {
        return Err(InvalidArgument);
      }
      hide Collect, BlockAt, MakeAction, Length;
      NoLength();
      var actions: seq<Action> := [];
      var total: nat := 0;
      while |actions| < maxRanges
        invariant |actions| <= maxRanges && total == Length(actions)
        invariant Collect(state.value, env, actions, maxRanges, maxBytes) == Collect(state.value, env, [], maxRanges, maxBytes)
        decreases maxRanges - |actions|
      {
        CollectStep(state.value, env, actions, maxRanges, maxBytes);
        var block := BlockAt(state.value, |actions|);
        if block == None {
          break;
        }
        var action :- MakeAction(env, block.value);
        if total + action.length > U64_MAX {
          return Err(ResourceLimit);
        }
        if total + action.length > maxBytes {
          break;
        }
        OneLonger(actions, action);
        total := total + action.length;
        actions := actions + [action];
      }
      CollectStep(state.value, env, actions, maxRanges, maxBytes);
      if actions == [] && !state.value.Complete() {
        return Err(ResourceLimit);
      }
      return Ok(actions);
    }

    /** All responses are checked before any of them is indexed; if indexing fails then, the open is over. */
    method FeedMany(results: seq<Response>) returns (r: Result<bool>)
      requires state.Some? && state.value.Valid()
      modifies this
      ensures var fed := FedMany(old(state.value), env, results);
              if fed.Err? then r == Err(fed.error)
              else r == Ok(fed.value.Complete())
                   && (if fed.value.Complete() then result == Some(fed.value) && state == None
                       else state == Some(fed.value) && result == old(result))
      ensures r.Err? ==> result == old(result) && state == if Expected(old(state.value), env, results) then None else old(state)
    {
      if results == [] {
        return Err(InvalidArgument);
      }
      var expected :- NextActions(|results|, U64_MAX);
      if |expected| != |results| {
        return Err(InvalidArgument);
      }
      var i := 0;
      while i < |results|
        invariant 0 <= i <= |results|
        invariant forall j :: 0 <= j < i ==> Matches(env, expected[j], results[j])
      {
        if !Matches(env, expected[i], results[i]) {
          return Err(InvalidArgument);
        }
        i := i + 1;
      }
      var index := state.value;
      state := None;
      i := 0;
      while i < |results|
        invariant 0 <= i <= |results| && index.Valid()
        invariant IndexMany(index, env, results[i..]) == IndexMany(old(state.value), env, results)
        invariant result == old(result)
      {
        assert results[i..][1..] == results[i + 1..];
        index :- IndexOne(index, env, results[i].bytes);
        i := i + 1;
      }
      if index.Complete() {
        result := Some(index);
      } else {
        state := Some(index);
      }
      return Ok(index.Complete());
    }
  }
}
