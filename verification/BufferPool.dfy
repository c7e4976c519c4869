/** The deduplicating buffer pool of a typed batch (`BufferPoolBuilder` in `src/arrow.rs`). */
module BufferPool {
  import opened Common

  datatype Slice = Slice(buffer: nat, offset: nat, length: nat)

  function TotalLength(buffers: seq<seq<byte>>): nat {
    if buffers == [] then 0 else TotalLength(buffers[..|buffers| - 1]) + |buffers[|buffers| - 1]|
  }

  predicate AllDistinct(buffers: seq<seq<byte>>) {
    forall i, j :: 0 <= i < j < |buffers| ==> buffers[i] != buffers[j]
  }

  /** What a slice reads from the pool. */
  predicate Reads(buffers: seq<seq<byte>>, s: Slice, bytes: seq<byte>) {
    s.buffer < |buffers| && s.offset + s.length <= |buffers[s.buffer]| && buffers[s.buffer][s.offset..s.offset + s.length] == bytes
  }

  /** The specification knows nothing of hashing: equal bytes are stored once. */
  function Interned(buffers: seq<seq<byte>>, maxBytes: nat, bytes: seq<byte>): Result<seq<seq<byte>>> {
    if bytes in buffers then Ok(buffers)
    else if TotalLength(buffers) + |bytes| > maxBytes || |buffers| > U32_MAX then Err(ResourceLimit)
    else Ok(buffers + [bytes])
  }

  predicate PoolOk(buffers: seq<seq<byte>>, maxBytes: nat) {
    AllDistinct(buffers) && TotalLength(buffers) <= maxBytes
  }

  lemma InternKeeps(buffers: seq<seq<byte>>, maxBytes: nat, bytes: seq<byte>)
    requires PoolOk(buffers, maxBytes)
    ensures var r := Interned(buffers, maxBytes, bytes);
            r.Ok? ==> && PoolOk(r.value, maxBytes) && bytes in r.value && |buffers| <= |r.value| && r.value[..|buffers|] == buffers
                      && TotalLength(r.value) <= TotalLength(buffers) + |bytes|
  {
    var r := Interned(buffers, maxBytes, bytes);
    if r.Ok? && bytes !in buffers {
      assert r.value[..|buffers|] == buffers;
      assert r.value[|buffers|] == bytes;
    }
  }

  /** Buffers are only added, at most `count` of them. */
  predicate Extends(buffers: seq<seq<byte>>, grown: seq<seq<byte>>, count: nat) {
    |buffers| <= |grown| <= |buffers| + count && grown[..|buffers|] == buffers
  }

  lemma ExtendsItself(buffers: seq<seq<byte>>)
    ensures Extends(buffers, buffers, 0) && Extends(buffers, buffers, 1)
  {
  }

  lemma ExtendsOn(a: seq<seq<byte>>, b: seq<seq<byte>>, c: seq<seq<byte>>, m: nat, n: nat)
    requires Extends(a, b, m) && Extends(b, c, n)
    ensures Extends(a, c, m + n)
  {
    assert c[..|a|] == c[..|b|][..|a|];
  }

  /** A slice keeps reading the same bytes however many buffers are added. */
  lemma ReadsLater(buffers: seq<seq<byte>>, grown: seq<seq<byte>>, count: nat, s: Slice, bytes: seq<byte>)
    requires Extends(buffers, grown, count) && Reads(buffers, s, bytes)
    ensures Reads(grown, s, bytes)
  {
    assert grown[s.buffer] == grown[..|buffers|][s.buffer];
  }

  lemma InternCosts(buffers: seq<seq<byte>>, maxBytes: nat, bytes: seq<byte>)
    requires PoolOk(buffers, maxBytes)
    ensures var r := Interned(buffers, maxBytes, bytes);
            && (TotalLength(buffers) + |bytes| <= maxBytes && |buffers| <= U32_MAX ==> r.Ok?)
            && (r.Ok? ==> PoolOk(r.value, maxBytes) && Extends(buffers, r.value, 1) && TotalLength(r.value) <= TotalLength(buffers) + |bytes|)
  {
    InternKeeps(buffers, maxBytes, bytes);
  }

  lemma LengthGrows(buffers: seq<seq<byte>>, bytes: seq<byte>)
    ensures TotalLength(buffers + [bytes]) == TotalLength(buffers) + |bytes|
  {
    assert (buffers + [bytes])[..|buffers|] == buffers;
  }

  lemma WholeReads(buffers: seq<seq<byte>>, i: nat)
    requires i < |buffers|
    ensures Reads(buffers, Slice(i, 0, |buffers[i]|), buffers[i])
  {
    assert buffers[i][0..|buffers[i]|] == buffers[i];
  }

  type Key = (nat, nat)

  function KeyOf(hash: seq<byte> -> nat, bytes: seq<byte>): Key {
    (|bytes|, hash(bytes))
  }

  function Bucket(index: map<Key, seq<nat>>, key: Key): seq<nat> {
    if key in index then index[key] else []
  }

  predicate BucketOk(bucket: seq<nat>, key: Key, buffers: seq<seq<byte>>, hash: seq<byte> -> nat) {
    forall j :: 0 <= j < |bucket| ==> bucket[j] < |buffers| && KeyOf(hash, buffers[bucket[j]]) == key
  }

  /** The buckets hold every buffer under its own key and nothing else. */
  ghost predicate Bucketed(index: map<Key, seq<nat>>, buffers: seq<seq<byte>>, hash: seq<byte> -> nat) {
    && (forall i :: 0 <= i < |buffers| ==> i in Bucket(index, KeyOf(hash, buffers[i])))
    && (forall key :: BucketOk(Bucket(index, key), key, buffers, hash))
  }

  /** One more buffer under its key. */
  lemma BucketAdds(index: map<Key, seq<nat>>, buffers: seq<seq<byte>>, hash: seq<byte> -> nat, bytes: seq<byte>)
    requires Bucketed(index, buffers, hash)
    ensures var key := KeyOf(hash, bytes);
            Bucketed(index[key := Bucket(index, key) + [|buffers|]], buffers + [bytes], hash)
  {
    var key := KeyOf(hash, bytes);
    var grown, all := index[key := Bucket(index, key) + [|buffers|]], buffers + [bytes];
    assert forall k :: Bucket(grown, k) == if k == key then Bucket(index, key) + [|buffers|] else Bucket(index, k);
    forall i | 0 <= i < |all| ensures i in Bucket(grown, KeyOf(hash, all[i])) {
      if i < |buffers| {
        assert i in Bucket(index, KeyOf(hash, buffers[i]));
      }
    }
    forall k ensures BucketOk(Bucket(grown, k), k, all, hash) {
      assert BucketOk(Bucket(index, k), k, buffers, hash);
    }
  }

  /** Correct for every hash function, however many buffers share a key. */
  class BufferPoolBuilder {
    const maxBytes: nat
    const hash: seq<byte> -> nat
    var buffers: seq<seq<byte>>
    var bytes: nat
    var bufferIndex: map<Key, seq<nat>>

    ghost predicate Valid()
      reads this
    {
      PoolOk(buffers, maxBytes) && bytes == TotalLength(buffers) && Bucketed(bufferIndex, buffers, hash)
    }

    constructor (limit: nat, fingerprint: seq<byte> -> nat)
      ensures Valid() && buffers == [] && maxBytes == limit && hash == fingerprint
    {
      maxBytes, hash := limit, fingerprint;
      buffers, bytes, bufferIndex := [], 0, map[];
    }

    function RemainingBytes(): nat
      reads this
    {
      Max(0, maxBytes - bytes)
    }

    /** `find` among the candidates of a bucket. */
    method FindCandidate(data: seq<byte>) returns (found: Option<nat>)
      requires Valid()
      ensures found.Some? <==> data in buffers
      ensures found.Some? ==> found.value < |buffers| && buffers[found.value] == data
    {
      hide PoolOk, TotalLength;
      var candidates := Bucket(bufferIndex, KeyOf(hash, data));
      assert BucketOk(candidates, KeyOf(hash, data), buffers, hash);
      var i := 0;
      while i < |candidates|
        invariant 0 <= i <= |candidates|
        invariant forall k :: 0 <= k < i ==> candidates[k] < |buffers| && buffers[candidates[k]] != data
      {
        if buffers[candidates[i]] == data {
          return Some(candidates[i]);
        }
        i := i + 1;
      }
      assert forall k :: 0 <= k < |buffers| && buffers[k] == data ==> k in candidates;
      return None;
    }

    method Intern(data: seq<byte>) returns (r: Result<Slice>)
      requires Valid()
      modifies this`buffers, this`bytes, this`bufferIndex
      ensures Valid()
      ensures var spec := Interned(old(buffers), maxBytes, data);
              if spec.Err? then r == Err(spec.error) && buffers == old(buffers) && bytes == old(bytes)
              else buffers == spec.value && r.Ok? && Reads(buffers, r.value, data)
    {
      hide Bucketed, PoolOk, TotalLength, KeyOf, Bucket, Reads;
      InternKeeps(buffers, maxBytes, data);
      var found := FindCandidate(data);
      if found.Some? {
        WholeReads(buffers, found.value);
        return Ok(Slice(found.value, 0, |data|));
      }
      var nextBytes := bytes + |data|;
      if nextBytes > maxBytes {
        return Err(ResourceLimit);
      }
      var index := |buffers|;
      if index > U32_MAX {
        return Err(ResourceLimit);
      }
      BucketAdds(bufferIndex, buffers, hash, data);
      LengthGrows(buffers, data);
      var key := KeyOf(hash, data);
      buffers := buffers + [data];
      bufferIndex := bufferIndex[key := Bucket(bufferIndex, key) + [index]];
      bytes := nextBytes;
      WholeReads(buffers, index);
      return Ok(Slice(index, 0, |data|));
    }

    /** `intern`, told by what it costs: the bytes are in the pool afterwards, for at most their length. */
    method Put(data: seq<byte>) returns (r: Result<Slice>)
      requires Valid()
      modifies this`buffers, this`bytes, this`bufferIndex
      ensures Valid() && Extends(old(buffers), buffers, 1)
      ensures |data| <= old(RemainingBytes()) && |old(buffers)| <= U32_MAX ==> r.Ok?
      ensures r.Ok? ==> Reads(buffers, r.value, data) && RemainingBytes() >= old(RemainingBytes()) - |data|
      ensures r.Err? ==> buffers == old(buffers) && bytes == old(bytes)
    {
      InternCosts(buffers, maxBytes, data);
      ExtendsItself(buffers);
      hide TotalLength, Bucketed, AllDistinct, Interned, Extends, Reads;
      r := Intern(data);
    }
  }
}
