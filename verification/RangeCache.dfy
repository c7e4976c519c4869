/** The byte-bounded cache of `js/range-cache.ts` and the retained slice it shares in `js/client.ts`. */
module RangeCache {
  import opened Common
  import opened Totals

  type Key = seq<Unit>

  /** An entry of the insertion-ordered map; the first is the least recently used. */
  datatype Entry<+T> = Entry(key: Key, value: T, bytes: nat)

  function Bytes<T>(entries: seq<Entry<T>>): nat {
    if entries == [] then 0 else entries[0].bytes + Bytes(entries[1..])
  }

  predicate Distinct<T>(entries: seq<Entry<T>>) {
    forall i, j :: 0 <= i < j < |entries| ==> entries[i].key != entries[j].key
  }

  function Find<T>(entries: seq<Entry<T>>, key: Key): (i: nat)
    ensures i <= |entries| && (i < |entries| ==> entries[i].key == key)
    ensures forall j :: 0 <= j < i ==> entries[j].key != key
  {
    if entries == [] || entries[0].key == key then 0 else 1 + Find(entries[1..], key)
  }

  function Dropped<T>(entries: seq<Entry<T>>, i: nat): seq<Entry<T>>
    requires i < |entries|
  {
    entries[..i] + entries[i + 1..]
  }

  function WithoutKey<T>(entries: seq<Entry<T>>, key: Key): seq<Entry<T>> {
    var i := Find(entries, key);
    if i < |entries| then Dropped(entries, i) else entries
  }

  predicate FitsIn<T>(entries: seq<Entry<T>>, maxEntries: nat, maxBytes: nat) {
    |entries| <= maxEntries && Bytes(entries) <= maxBytes
  }

  /** Eviction takes the least recently used entry as long as something is too much. */
  function Evicted<T>(entries: seq<Entry<T>>, maxEntries: nat, maxBytes: nat): seq<Entry<T>> {
    if entries == [] || FitsIn(entries, maxEntries, maxBytes) then entries else Evicted(entries[1..], maxEntries, maxBytes)
  }

  /** The cache and its limits. */
  datatype Cache<+T> = Cache(maxBytes: nat, maxEntries: nat, minimumEntry: nat, entries: seq<Entry<T>>, byteLength: int)

  predicate CacheOk<T>(c: Cache<T>) {
    Distinct(c.entries) && c.byteLength == Bytes(c.entries) <= c.maxBytes && |c.entries| <= c.maxEntries
  }

  function Touched<T>(c: Cache<T>, key: Key): Cache<T> {
    var i := Find(c.entries, key);
    if i < |c.entries| then c.(entries := Dropped(c.entries, i) + [c.entries[i]]) else c
  }

  function Trimmed<T>(c: Cache<T>, maxBytes: nat): Cache<T> {
    var kept := Evicted(c.entries, |c.entries|, Min(c.maxBytes, maxBytes));
    c.(entries := kept, byteLength := Bytes(kept))
  }

  function Stored<T>(c: Cache<T>, key: Key, value: T, byteLength: nat, maxBytes: nat): Cache<T> {
    var limit, charged := Min(c.maxBytes, maxBytes), Max(byteLength, c.minimumEntry);
    if charged > limit || c.maxEntries == 0 then c
    else
      var kept := Evicted(WithoutKey(c.entries, key), c.maxEntries - 1, limit - charged);
      c.(entries := kept + [Entry(key, value, charged)], byteLength := Bytes(kept) + charged)
  }

  // ---------------------------------------------------------------- sums

  lemma {:induction false} BytesConcat<T>(a: seq<Entry<T>>, b: seq<Entry<T>>)
    ensures Bytes(a + b) == Bytes(a) + Bytes(b)
  {
    if a == [] {
      assert a + b == b;
    } else {
      assert (a + b)[1..] == a[1..] + b;
      BytesConcat(a[1..], b);
    }
  }

  lemma BytesFrom<T>(entries: seq<Entry<T>>, i: nat)
    requires i < |entries|
    ensures Bytes(entries[i..]) == entries[i].bytes + Bytes(entries[i + 1..])
  {
    assert entries[i..][1..] == entries[i + 1..];
  }

  lemma BytesDropped<T>(entries: seq<Entry<T>>, i: nat)
    requires i < |entries|
    ensures Bytes(Dropped(entries, i)) == Bytes(entries) - entries[i].bytes
  {
    hide Bytes;
    assert entries == entries[..i] + entries[i..];
    BytesConcat(entries[..i], entries[i..]);
    BytesFrom(entries, i);
    BytesConcat(entries[..i], entries[i + 1..]);
  }

  // ---------------------------------------------------------------- what eviction keeps

  /** The `n` most recently used entries. */
  function Newest<T>(entries: seq<Entry<T>>, n: nat): seq<Entry<T>>
    requires n <= |entries|
  {
    entries[|entries| - n..]
  }

  /** What is evicted is the oldest: the longest suffix that fits stays. */
  lemma {:induction false} EvictedIsLongestSuffix<T>(entries: seq<Entry<T>>, maxEntries: nat, maxBytes: nat)
    ensures var kept := Evicted(entries, maxEntries, maxBytes);
            && |kept| <= |entries| && kept == Newest(entries, |kept|) && FitsIn(kept, maxEntries, maxBytes)
            && forall n :: |kept| < n <= |entries| ==> !FitsIn(Newest(entries, n), maxEntries, maxBytes)
  {
    if entries == [] || FitsIn(entries, maxEntries, maxBytes) {
      assert Newest(entries, |entries|) == entries;
    } else {
      hide FitsIn, Bytes;
      var rest := entries[1..];
      EvictedIsLongestSuffix(rest, maxEntries, maxBytes);
      var kept := Evicted(rest, maxEntries, maxBytes);
      assert Newest(entries, |kept|) == Newest(rest, |kept|);
      forall n | |kept| < n <= |entries| ensures !FitsIn(Newest(entries, n), maxEntries, maxBytes) {
        if n == |entries| {
          assert Newest(entries, n) == entries;
        } else {
          assert Newest(entries, n) == Newest(rest, n);
        }
      }
    }
  }

  lemma DistinctNewest<T>(entries: seq<Entry<T>>, n: nat)
    requires n <= |entries| && Distinct(entries)
    ensures Distinct(Newest(entries, n))
  {
  }

  lemma DroppedKeeps<T>(entries: seq<Entry<T>>, i: nat)
    requires Distinct(entries) && i < |entries|
    ensures var d := Dropped(entries, i);
            && Distinct(d) && Bytes(d) == Bytes(entries) - entries[i].bytes
            && forall j :: 0 <= j < |d| ==> d[j].key != entries[i].key && d[j] in entries
  {
    BytesDropped(entries, i);
    var d := Dropped(entries, i);
    assert forall j :: 0 <= j < |d| ==> d[j] == entries[if j < i then j else j + 1];
  }

  lemma DistinctAppend<T>(entries: seq<Entry<T>>, e: Entry<T>)
    requires Distinct(entries) && forall j :: 0 <= j < |entries| ==> entries[j].key != e.key
    ensures Distinct(entries + [e]) && Bytes(entries + [e]) == Bytes(entries) + e.bytes
  {
    BytesConcat(entries, [e]);
  }

  /** A look-up makes the entry the most recent one and changes nothing else. */
  lemma TouchKeeps<T>(c: Cache<T>, key: Key)
    requires CacheOk(c)
    ensures var t, i := Touched(c, key), Find(c.entries, key);
            && CacheOk(t) && |t.entries| == |c.entries|
            && (i < |c.entries| ==> t.entries[|t.entries| - 1] == c.entries[i] && t.entries[..|t.entries| - 1] == Dropped(c.entries, i))
  {
    hide Distinct, Bytes;
    var i := Find(c.entries, key);
    if i < |c.entries| {
      DroppedKeeps(c.entries, i);
      DistinctAppend(Dropped(c.entries, i), c.entries[i]);
    }
  }

  lemma TrimKeeps<T>(c: Cache<T>, maxBytes: nat)
    requires CacheOk(c)
    ensures CacheOk(Trimmed(c, maxBytes)) && Trimmed(c, maxBytes).byteLength <= maxBytes
  {
    hide Distinct;
    EvictedIsLongestSuffix(c.entries, |c.entries|, Min(c.maxBytes, maxBytes));
    DistinctNewest(c.entries, |Trimmed(c, maxBytes).entries|);
  }

  lemma WithoutKeyKeeps<T>(entries: seq<Entry<T>>, key: Key)
    requires Distinct(entries)
    ensures var w := WithoutKey(entries, key);
            && Distinct(w) && (forall j :: 0 <= j < |w| ==> w[j].key != key) && Bytes(w) <= Bytes(entries)
            && |w| <= |entries|
  {
    var i := Find(entries, key);
    if i < |entries| {
      DroppedKeeps(entries, i);
    }
  }

  /** A stored entry is the most recent one, its key stands once, and the limits hold with it. */
  lemma StoreKeeps<T>(c: Cache<T>, key: Key, value: T, byteLength: nat, maxBytes: nat)
    requires CacheOk(c)
    ensures var s, charged := Stored(c, key, value, byteLength, maxBytes), Max(byteLength, c.minimumEntry);
            && CacheOk(s)
            && (charged > Min(c.maxBytes, maxBytes) || c.maxEntries == 0 ==> s == c)
            && (charged <= Min(c.maxBytes, maxBytes) && c.maxEntries != 0 ==>
                  s.byteLength <= maxBytes && s.entries != [] && s.entries[|s.entries| - 1] == Entry(key, value, charged))
  {
    hide Stored, CacheOk;
    StoredSteps(c, key, value, byteLength, maxBytes);
    if Max(byteLength, c.minimumEntry) <= Min(c.maxBytes, maxBytes) && c.maxEntries != 0 {
      StoredFits(c, key, value, Max(byteLength, c.minimumEntry), Min(c.maxBytes, maxBytes));
    }
  }

  /** The case in which the entry goes in. */
  lemma StoredFits<T>(c: Cache<T>, key: Key, value: T, charged: nat, limit: nat)
    requires CacheOk(c) && charged <= limit <= c.maxBytes && c.maxEntries != 0
    ensures var kept := Evicted(WithoutKey(c.entries, key), c.maxEntries - 1, limit - charged);
            var s := c.(entries := kept + [Entry(key, value, charged)], byteLength := Bytes(kept) + charged);
            CacheOk(s) && s.byteLength <= limit
  {
    hide Distinct, Evicted, WithoutKey, Find, Newest, Bytes;
    var w := WithoutKey(c.entries, key);
    WithoutKeyKeeps(c.entries, key);
    var kept := Evicted(w, c.maxEntries - 1, limit - charged);
    EvictedIsLongestSuffix(w, c.maxEntries - 1, limit - charged);
    DistinctNewest(w, |kept|);
    NewestAreOld(w, |kept|, key);
    DistinctAppend(kept, Entry(key, value, charged));
  }

  /** Storing brings in nothing but the new entry. */
  lemma StoredIsOldOrNew<T>(c: Cache<T>, key: Key, value: T, byteLength: nat, maxBytes: nat)
    ensures forall e :: e in Stored(c, key, value, byteLength, maxBytes).entries ==>
                          e in c.entries || e == Entry(key, value, Max(byteLength, c.minimumEntry))
  {
    hide Stored, Evicted, WithoutKey;
    StoredSteps(c, key, value, byteLength, maxBytes);
    var limit, charged := Min(c.maxBytes, maxBytes), Max(byteLength, c.minimumEntry);
    if charged <= limit && c.maxEntries != 0 {
      var w := WithoutKey(c.entries, key);
      EvictedIsLongestSuffix(w, c.maxEntries - 1, limit - charged);
      WithoutKeyIsOld(c.entries, key);
    }
  }

  lemma WithoutKeyIsOld<T>(entries: seq<Entry<T>>, key: Key)
    ensures forall e :: e in WithoutKey(entries, key) ==> e in entries
  {
  }

  lemma NewestAreOld<T>(entries: seq<Entry<T>>, n: nat, key: Key)
    requires n <= |entries| && forall j :: 0 <= j < |entries| ==> entries[j].key != key
    ensures |Newest(entries, n)| == n && forall j :: 0 <= j < n ==> Newest(entries, n)[j].key != key
  {
  }

  /** Everything but the entry of the key stays, in its order. */
  lemma OthersWithoutKey<T>(entries: seq<Entry<T>>, key: Key, i: nat)
    requires Distinct(entries) && i < |entries| && entries[i].key != key
    ensures var w, k := WithoutKey(entries, key), Find(entries, key);
            var j := if i < k then i else i - 1;
            j < |w| && w[j] == entries[i] && |w| == |entries| - if k < |entries| then 1 else 0
  {
    var k := Find(entries, key);
    if k < |entries| {
      assert i != k;
    }
  }

  /** Entry by entry, `kept` is the longest run of newest entries that the limits leave beside a charge. */
  ghost predicate NewestThatFit<T>(entries: seq<Entry<T>>, kept: seq<Entry<T>>, maxEntries: int, maxBytes: int) {
    && |kept| <= |entries| && kept == Newest(entries, |kept|)
    && |kept| <= maxEntries && Bytes(kept) <= maxBytes
    && forall n :: |kept| < n <= |entries| ==> n > maxEntries || Bytes(Newest(entries, n)) > maxBytes
  }

  lemma EvictsOldest<T>(entries: seq<Entry<T>>, maxEntries: nat, maxBytes: nat)
    requires entries != [] && (|entries| > maxEntries || Bytes(entries) > maxBytes)
    ensures Evicted(entries, maxEntries, maxBytes) == Evicted(Dropped(entries, 0), maxEntries, maxBytes)
  {
    assert Dropped(entries, 0) == entries[1..];
  }

  lemma NothingToEvict<T>(entries: seq<Entry<T>>, maxEntries: nat, maxBytes: nat)
    requires entries == [] || (|entries| <= maxEntries && Bytes(entries) <= maxBytes)
    ensures Evicted(entries, maxEntries, maxBytes) == entries
  {
  }

  lemma EvictedAreNewest<T>(entries: seq<Entry<T>>, maxEntries: nat, maxBytes: nat)
    ensures NewestThatFit(entries, Evicted(entries, maxEntries, maxBytes), maxEntries, maxBytes)
  {
    EvictedIsLongestSuffix(entries, maxEntries, maxBytes);
    var kept := Evicted(entries, maxEntries, maxBytes);
    forall n | |kept| < n <= |entries| ensures n > maxEntries || Bytes(Newest(entries, n)) > maxBytes {
      assert !FitsIn(Newest(entries, n), maxEntries, maxBytes);
      assert |Newest(entries, n)| == n;
    }
  }

  /** A new entry drives out no more than it must: the newest of the other entries stay, as many as fit beside it. */
  lemma StoreEvictsLittle<T>(c: Cache<T>, key: Key, value: T, byteLength: nat, maxBytes: nat)
    requires CacheOk(c) && c.maxEntries != 0 && Max(byteLength, c.minimumEntry) <= Min(c.maxBytes, maxBytes)
    ensures var s, charged := Stored(c, key, value, byteLength, maxBytes), Max(byteLength, c.minimumEntry);
            && s.entries != []
            && NewestThatFit(WithoutKey(c.entries, key), s.entries[..|s.entries| - 1], c.maxEntries - 1, Min(c.maxBytes, maxBytes) - charged)
            && s == c.(entries := s.entries, byteLength := s.byteLength)
  {
    EvictedAreNewest(WithoutKey(c.entries, key), c.maxEntries - 1, Min(c.maxBytes, maxBytes) - Max(byteLength, c.minimumEntry));
  }

  /** Trimming drives out no more than it must. */
  lemma TrimEvictsLittle<T>(c: Cache<T>, maxBytes: nat)
    requires CacheOk(c)
    ensures var s := Trimmed(c, maxBytes);
            && NewestThatFit(c.entries, s.entries, |c.entries|, Min(c.maxBytes, maxBytes))
            && s == c.(entries := s.entries, byteLength := s.byteLength)
  {
    EvictedAreNewest(c.entries, |c.entries|, Min(c.maxBytes, maxBytes));
  }

  // ---------------------------------------------------------------- the slice that cache and retained sources share

  /** `live` holds the retained reservations that have not been released. */
  datatype Slice<+T> = Slice(limit: nat, cache: Cache<T>, retained: int, live: map<nat, nat>)

  predicate SliceOk<T>(s: Slice<T>) {
    CacheOk(s.cache) && s.retained == Total(s.live) && s.cache.byteLength + s.retained <= s.limit
  }

  function Available<T>(s: Slice<T>): nat {
    Max(0, s.limit - s.retained)
  }

  /** `#reserveRetainedSourceBytes`: a reservation pushes batches out of the cache. */
  function Retain<T>(s: Slice<T>, id: nat, bytes: int): Result<Slice<T>> {
    if bytes < 0 || bytes > s.limit - s.retained then Err(ResourceLimit)
    else Ok(s.(cache := Trimmed(s.cache, s.limit - s.retained - bytes), retained := s.retained + bytes, live := s.live[id := bytes]))
  }

  function Unretain<T>(s: Slice<T>, id: nat): Slice<T> {
    if id in s.live then s.(retained := Max(0, s.retained - s.live[id]), live := s.live - {id}) else s
  }

  function StoreBatch<T>(s: Slice<T>, key: Key, value: T, byteLength: nat): Slice<T> {
    s.(cache := Stored(s.cache, key, value, byteLength, Available(s)))
  }

  /** A reservation fails only for want of room besides the other reservations; cached batches never stand in its way. */
  lemma RetainKeeps<T>(s: Slice<T>, id: nat, bytes: int)
    requires SliceOk(s) && id !in s.live
    ensures var r := Retain(s, id, bytes);
            && (r.Ok? <==> 0 <= bytes && Total(s.live) + bytes <= s.limit)
            && (r.Ok? ==> SliceOk(r.value))
  {
    hide Distinct, Trimmed;
    if 0 <= bytes <= s.limit - s.retained {
      TrimKeeps(s.cache, s.limit - s.retained - bytes);
      TotalWith(s.live, id, bytes);
    }
  }

  lemma UnretainKeeps<T>(s: Slice<T>, id: nat)
    requires SliceOk(s)
    ensures var r := Unretain(s, id);
            && SliceOk(r) && Unretain(r, id) == r && id !in r.live
            && r.retained == s.retained - if id in s.live then s.live[id] else 0
  {
    if id in s.live {
      TotalWithout(s.live, id);
    }
  }

  lemma StoreBatchKeeps<T>(s: Slice<T>, key: Key, value: T, byteLength: nat)
    requires SliceOk(s)
    ensures SliceOk(StoreBatch(s, key, value, byteLength))
  {
    hide Stored, Distinct;
    StoreKeeps(s.cache, key, value, byteLength, Available(s));
    StoredBytes(s.cache, key, value, byteLength, Available(s));
  }

  lemma StoredBytes<T>(c: Cache<T>, key: Key, value: T, byteLength: nat, maxBytes: nat)
    requires CacheOk(c) && c.byteLength <= maxBytes
    ensures Stored(c, key, value, byteLength, maxBytes).byteLength <= maxBytes
  {
    StoreKeeps(c, key, value, byteLength, maxBytes);
  }

  /** A reservation adds itself to the retained sources and takes from the cache only what it needs. */
  lemma RetainTakesLittle<T>(s: Slice<T>, id: nat, bytes: int)
    requires SliceOk(s) && id !in s.live && Retain(s, id, bytes).Ok?
    ensures var c := Retain(s, id, bytes).value;
            && c.limit == s.limit && c.live == s.live[id := bytes] && c.retained == s.retained + bytes
            && NewestThatFit(s.cache.entries, c.cache.entries, |s.cache.entries|, Min(s.cache.maxBytes, s.limit - s.retained - bytes))
  {
    TrimEvictsLittle(s.cache, s.limit - s.retained - bytes);
    hide Trimmed, NewestThatFit, CacheOk;
  }

  /** Giving bytes back leaves the cache and the other sources as they are; storing a batch leaves the sources as they are. */
  lemma OthersRetained<T>(s: Slice<T>, id: nat, key: Key, value: T, byteLength: nat)
    requires SliceOk(s)
    ensures var c := Unretain(s, id);
            c.cache == s.cache && c.limit == s.limit && c.live == s.live - {id}
    ensures var c := StoreBatch(s, key, value, byteLength);
            c.limit == s.limit && c.live == s.live && c.retained == s.retained && c.cache == Stored(s.cache, key, value, byteLength, s.limit - s.retained)
  {
    if id !in s.live {
      assert s.live - {id} == s.live;
    }
  }

  // ---------------------------------------------------------------- the cache

  class ByteLruCache<T(==)> {
    const maxBytes: nat
    const maxEntries: nat
    const minimumEntry: nat
    var entries: seq<Entry<T>>
    var byteLength: int

    ghost function View(): Cache<T>
      reads this
    {
      Cache(maxBytes, maxEntries, minimumEntry, entries, byteLength)
    }

    constructor (bytes: nat, count: nat, minimum: nat)
      ensures View() == Cache(bytes, count, minimum, [], 0) && CacheOk(View())
    {
      maxBytes, maxEntries, minimumEntry := bytes, count, minimum;
      entries, byteLength := [], 0;
    }

    method Locate(key: Key) returns (i: nat)
      ensures i == Find(entries, key)
    {
      i := 0;
      while i < |entries| && entries[i].key != key
        invariant i <= |entries|
        invariant i + Find(entries[i..], key) == Find(entries, key)
      {
        assert entries[i..][1..] == entries[i + 1..];
        i := i + 1;
      }
      if i < |entries| {
        assert entries[i..][0] == entries[i];
      }
    }

    method Remove(i: nat)
      requires CacheOk(View()) && i < |entries|
      modifies this
      ensures entries == Dropped(old(entries), i) && CacheOk(View())
    {
      DroppedKeeps(entries, i);
      byteLength := byteLength - entries[i].bytes;
      entries := entries[..i] + entries[i + 1..];
    }

    method Get(key: Key) returns (found: Option<T>)
      requires CacheOk(View())
      modifies this
      ensures View() == Touched(old(View()), key) && CacheOk(View())
      ensures found == if Find(old(entries), key) < |old(entries)| then Some(old(entries)[Find(old(entries), key)].value) else None
    {
      TouchKeeps(View(), key);
      var i := Locate(key);
      if i == |entries| {
        return None;
      }
      var entry := entries[i];
      entries := entries[..i] + entries[i + 1..];
      entries := entries + [entry];
      return Some(entry.value);
    }

    method Set(key: Key, value: T, bytes: nat, limit: nat)
      requires CacheOk(View())
      modifies this
      ensures View() == Stored(old(View()), key, value, bytes, limit) && CacheOk(View())
    {
      hide Distinct, Find, Stored, Evicted, Bytes;
      ghost var c := View();
      StoreKeeps(c, key, value, bytes, limit);
      var effectiveMax, charged := Min(maxBytes, limit), Max(bytes, minimumEntry);
      StoredSteps(c, key, value, bytes, limit);
      if charged > effectiveMax || maxEntries == 0 {
        return;
      }
      var i := Locate(key);
      if i < |entries| {
        Remove(i);
      }
      ghost var w := entries;
      assert w == WithoutKey(c.entries, key);
      while |entries| >= maxEntries || byteLength + charged > effectiveMax
        invariant CacheOk(View())
        invariant Evicted(entries, maxEntries - 1, effectiveMax - charged) == Evicted(w, maxEntries - 1, effectiveMax - charged)
        decreases |entries|
      {
        if |entries| == 0 {
          break;
        }
        ghost var before := entries;
        EvictsOldest(before, maxEntries - 1, effectiveMax - charged);
        Remove(0);
      }
      NothingToEvict(entries, maxEntries - 1, effectiveMax - charged);
      entries := entries + [Entry(key, value, charged)];
      byteLength := byteLength + charged;
    }

    method TrimTo(limit: nat)
      requires CacheOk(View())
      modifies this
      ensures View() == Trimmed(old(View()), limit) && CacheOk(View())
    {
      hide Distinct;
      ghost var c := View();
      TrimKeeps(c, limit);
      var effectiveMax := Min(maxBytes, limit);
      while byteLength > effectiveMax
        invariant CacheOk(View()) && |entries| <= |c.entries|
        invariant Evicted(entries, |c.entries|, effectiveMax) == Evicted(c.entries, |c.entries|, effectiveMax)
        decreases |entries|
      {
        if |entries| == 0 {
          break;
        }
        ghost var before := entries;
        Remove(0);
        assert entries == before[1..];
      }
    }

    method Clear()
      modifies this
      ensures View() == old(View()).(entries := [], byteLength := 0) && CacheOk(View())
    {
      entries, byteLength := [], 0;
    }

    /** `deleteWhere`: what stays is what the predicate refuses, in the same order. */
    method DeleteWhere(chosen: Entry<T> -> bool)
      requires CacheOk(View())
      modifies this
      ensures entries == Kept(old(entries), chosen) && CacheOk(View())
    {
      hide Distinct, Bytes;
      var i: nat := 0;
      ghost var was := entries;
      while i < |entries|
        invariant i <= |entries| && CacheOk(View())
        invariant entries[..i] + Kept(entries[i..], chosen) == Kept(was, chosen)
        decreases |entries| - i
      {
        ghost var before := entries;
        if chosen(entries[i]) {
          Remove(i);
          assert before[i..][1..] == before[i + 1..] == entries[i..] && entries[..i] == before[..i];
        } else {
          assert before[i..][1..] == before[i + 1..] && before[..i + 1] == before[..i] + [before[i]];
          i := i + 1;
        }
      }
      assert entries[..i] == entries && entries[i..] == [];
    }
  }

  function Kept<T>(entries: seq<Entry<T>>, chosen: Entry<T> -> bool): seq<Entry<T>> {
    if entries == [] then []
    else if chosen(entries[0]) then Kept(entries[1..], chosen)
    else [entries[0]] + Kept(entries[1..], chosen)
  }

  /** Exactly the entries that were not chosen stay. */
  lemma {:induction false} KeptAreUnchosen<T>(entries: seq<Entry<T>>, chosen: Entry<T> -> bool, e: Entry<T>)
    ensures e in Kept(entries, chosen) <==> e in entries && !chosen(e)
  {
    if entries != [] {
      KeptAreUnchosen(entries[1..], chosen, e);
      assert e in entries <==> e == entries[0] || e in entries[1..];
    }
  }

  lemma {:induction false} KeptKeeps<T>(entries: seq<Entry<T>>, chosen: Entry<T> -> bool)
    requires Distinct(entries)
    ensures var kept := Kept(entries, chosen); Distinct(kept) && Bytes(kept) <= Bytes(entries) && |kept| <= |entries|
  {
    if entries != [] {
      var rest := Kept(entries[1..], chosen);
      KeptKeeps(entries[1..], chosen);
      forall e | e in rest ensures e in entries[1..] {
        KeptAreUnchosen(entries[1..], chosen, e);
      }
      DistinctCons(entries, rest);
    }
  }

  lemma DistinctCons<T>(entries: seq<Entry<T>>, rest: seq<Entry<T>>)
    requires Distinct(entries) && entries != [] && Distinct(rest) && forall e :: e in rest ==> e in entries[1..]
    ensures Distinct([entries[0]] + rest)
  {
    forall i | 0 <= i < |rest| ensures rest[i].key != entries[0].key {
      assert rest[i] in entries[1..];
    }
  }

  lemma StoredSteps<T>(c: Cache<T>, key: Key, value: T, byteLength: nat, maxBytes: nat)
    ensures var limit, charged := Min(c.maxBytes, maxBytes), Max(byteLength, c.minimumEntry);
            Stored(c, key, value, byteLength, maxBytes)
            == if charged > limit || c.maxEntries == 0 then c
               else var kept := Evicted(WithoutKey(c.entries, key), c.maxEntries - 1, limit - charged);
                    c.(entries := kept + [Entry(key, value, charged)], byteLength := Bytes(kept) + charged)
  {
  }
}
