/**
 The keys of the range cache (`js/range-cache.ts`).

 A key is the JSON text of an array: the dataset handle, the table id, the revision, the schema
 version and the four numbers of the range, and `"display"` for a display-only batch.  Entries are
 later found again by a textual prefix or by parsing the key, so the text must lose nothing.
 Strings are written as `JSON.stringify` writes them (QuoteJSONString in ECMA-262).
 */
module CacheKeys {
  import opened Common
  import opened RangeCache
  import opened RangeRequests

  type Text = seq<Unit>

  const QUOTE: Unit := 34
  const COMMA: Unit := 44
  const ZERO: Unit := 48
  const OPEN: Unit := 91
  const BACKSLASH: Unit := 92
  const CLOSE: Unit := 93
  const LETTER_U: Unit := 117

  /** The word `display`. */
  const DISPLAY: Text := [100, 105, 115, 112, 108, 97, 121]

  // ---------------------------------------------------------------- string literals

  predicate Leading(u: Unit) {
    0xD800 <= u < 0xDC00
  }

  predicate Trailing(u: Unit) {
    0xDC00 <= u < 0xE000
  }

  function HexDigit(n: nat): Unit
    requires n < 16
  {
    if n < 10 then ZERO + n else 87 + n
  }

  function HexValue(u: Unit): Option<nat> {
    if 48 <= u < 58 then Some(u - 48)
    else if 97 <= u < 103 then Some(u - 87)
    else if 65 <= u < 71 then Some(u - 55)
    else None
  }

  function UnicodeEscape(u: Unit): Text {
    var third := u / 16;
    var second := third / 16;
    [BACKSLASH, LETTER_U, HexDigit(second / 16), HexDigit(second % 16), HexDigit(third % 16), HexDigit(u % 16)]
  }

  /** The letter after the backslash in the two-character escapes. */
  function ShortEscape(u: Unit): Option<Unit> {
    match u
    case 8 => Some(98)
    case 9 => Some(116)
    case 10 => Some(110)
    case 12 => Some(102)
    case 13 => Some(114)
    case 34 => Some(34)
    case 92 => Some(92)
    case _ => None
  }

  function Unescaped(letter: Unit): Option<Unit> {
    match letter
    case 98 => Some(8)
    case 116 => Some(9)
    case 110 => Some(10)
    case 102 => Some(12)
    case 114 => Some(13)
    case 34 => Some(34)
    case 47 => Some(47)
    case 92 => Some(92)
    case _ => None
  }

  function Escape(u: Unit): Text {
    if ShortEscape(u).Some? then [BACKSLASH, ShortEscape(u).value]
    else if u < 32 || Leading(u) || Trailing(u) then UnicodeEscape(u)
    else [u]
  }

  /** The text and the closing quote; surrogates that form a pair stay as they are. */
  function Quoted(t: Text): Text {
    if t == [] then [QUOTE]
    else if |t| >= 2 && Leading(t[0]) && Trailing(t[1]) then [t[0], t[1]] + Quoted(t[2..])
    else Escape(t[0]) + Quoted(t[1..])
  }

  /** One unit of a string literal, and what follows it. */
  function ReadUnit(input: Text): (r: Option<(Unit, Text)>)
    ensures r.Some? ==> |r.value.1| < |input|
  {
    if input == [] || input[0] == QUOTE || input[0] < 32 then None
    else if input[0] != BACKSLASH then Some((input[0], input[1..]))
    else if |input| < 2 then None
    else if input[1] != LETTER_U then
      if Unescaped(input[1]).Some? then Some((Unescaped(input[1]).value, input[2..])) else None
    else if |input| < 6 then None
    else
      var a, b, c, d := HexValue(input[2]), HexValue(input[3]), HexValue(input[4]), HexValue(input[5]);
      if a.Some? && b.Some? && c.Some? && d.Some?
      then Some((4096 * a.value + 256 * b.value + 16 * c.value + d.value, input[6..]))
      else None
  }

  /** The rest of a string literal after its opening quote, and what follows the literal. */
  function ReadQuoted(input: Text): (r: Option<(Text, Text)>)
    ensures r.Some? ==> |r.value.1| < |input|
    decreases |input|
  {
    if input != [] && input[0] == QUOTE then Some(([], input[1..]))
    else
      var unit := ReadUnit(input);
      if unit.None? then None
      else
        var rest := ReadQuoted(unit.value.1);
        if rest.None? then None else Some(([unit.value.0] + rest.value.0, rest.value.1))
  }

  lemma HexReadsBack(n: nat)
    requires n < 16
    ensures HexValue(HexDigit(n)) == Some(n) && HexDigit(n) != QUOTE
  {
  }

  lemma UnicodeReadsBack(u: Unit, rest: Text)
    ensures ReadUnit(UnicodeEscape(u) + rest) == Some((u, rest))
  {
    hide HexDigit, HexValue;
    var input, third, second := UnicodeEscape(u) + rest, u / 16, u / 16 / 16;
    HexReadsBack(second / 16);
    HexReadsBack(second % 16);
    HexReadsBack(third % 16);
    HexReadsBack(u % 16);
    assert input[2] == HexDigit(second / 16) && input[3] == HexDigit(second % 16);
    assert input[4] == HexDigit(third % 16) && input[5] == HexDigit(u % 16);
    assert input[6..] == rest;
  }

  lemma ShortReadsBack(u: Unit, rest: Text)
    requires ShortEscape(u).Some?
    ensures ReadUnit([BACKSLASH, ShortEscape(u).value] + rest) == Some((u, rest))
  {
    var input := [BACKSLASH, ShortEscape(u).value] + rest;
    assert input[0] == BACKSLASH && input[1] == ShortEscape(u).value && input[2..] == rest;
  }

  lemma EscapeReadsBack(u: Unit, rest: Text)
    ensures ReadUnit(Escape(u) + rest) == Some((u, rest))
  {
    hide UnicodeEscape;
    if ShortEscape(u).Some? {
      ShortReadsBack(u, rest);
    } else if u < 32 || Leading(u) || Trailing(u) {
      UnicodeReadsBack(u, rest);
    } else {
      assert ([u] + rest)[1..] == rest;
    }
  }

  lemma ReadNextUnit(input: Text, u: Unit, rest: Text)
    requires ReadUnit(input) == Some((u, rest))
    ensures ReadQuoted(input) == var others := ReadQuoted(rest); if others.None? then None else Some(([u] + others.value.0, others.value.1))
  {
    hide HexValue, Unescaped;
  }

  lemma {:induction false} QuotedReadsBack(t: Text, rest: Text)
    ensures ReadQuoted(Quoted(t) + rest) == Some((t, rest))
    decreases |t|
  {
    hide ReadUnit, ReadQuoted, Escape;
    var input := Quoted(t) + rest;
    if t == [] {
      NoneLeft(rest);
    } else if |t| >= 2 && Leading(t[0]) && Trailing(t[1]) {
      var tail := Quoted(t[2..]) + rest;
      QuotedReadsBack(t[2..], rest);
      assert input == [t[0]] + ([t[1]] + tail);
      PlainUnit(t[0], [t[1]] + tail);
      PlainUnit(t[1], tail);
      ReadNextUnit(input, t[0], [t[1]] + tail);
      ReadNextUnit([t[1]] + tail, t[1], tail);
      assert t == [t[0]] + ([t[1]] + t[2..]);
    } else {
      var tail := Quoted(t[1..]) + rest;
      QuotedReadsBack(t[1..], rest);
      assert input == Escape(t[0]) + tail;
      EscapeReadsBack(t[0], tail);
      ReadNextUnit(input, t[0], tail);
      assert t == [t[0]] + t[1..];
    }
  }

  lemma NoneLeft(rest: Text)
    ensures ReadQuoted([QUOTE] + rest) == Some(([], rest))
  {
    assert ([QUOTE] + rest)[1..] == rest;
  }

  lemma PlainUnit(u: Unit, rest: Text)
    requires Leading(u) || Trailing(u)
    ensures ReadUnit([u] + rest) == Some((u, rest))
  {
    assert ([u] + rest)[1..] == rest;
  }

  // ---------------------------------------------------------------- numbers

  predicate IsDigit(u: Unit) {
    48 <= u < 58
  }

  function Decimal(n: nat): (r: Text)
    ensures |r| > 0 && IsDigit(r[0]) && (r[0] == ZERO ==> r == [ZERO] && n == 0)
  {
    if n < 10 then [ZERO + n] else Decimal(n / 10) + [ZERO + n % 10]
  }

  function ReadDigits(input: Text, value: nat): (nat, Text) {
    if input != [] && IsDigit(input[0]) then ReadDigits(input[1..], 10 * value + (input[0] - ZERO)) else (value, input)
  }

  lemma {:induction false} DigitsReadBack(n: nat, rest: Text)
    ensures ReadDigits(Decimal(n) + rest, 0) == ReadDigits(rest, n)
  {
    if n < 10 {
      assert (Decimal(n) + rest)[1..] == rest;
    } else {
      var last: Text := [ZERO + n % 10];
      DigitsReadBack(n / 10, last + rest);
      assert Decimal(n) + rest == Decimal(n / 10) + (last + rest);
      assert (last + rest)[1..] == rest;
    }
  }

  // ---------------------------------------------------------------- arrays

  datatype Field = TextField(text: Text) | NumberField(number: nat)

  function FieldText(f: Field): Text {
    match f
    case TextField(text) => [QUOTE] + Quoted(text)
    case NumberField(number) => Decimal(number)
  }

  /** `JSON.stringify` of an array of strings and integers. */
  function Stringified(fields: seq<Field>): Text {
    [OPEN] + if fields == [] then [CLOSE] else Elements(fields)
  }

  function Elements(fields: seq<Field>): Text
    requires fields != []
  {
    FieldText(fields[0]) + if |fields| == 1 then [CLOSE] else [COMMA] + Elements(fields[1..])
  }

  function ReadField(input: Text): (r: Option<(Field, Text)>)
    ensures r.Some? ==> |r.value.1| < |input|
  {
    if input == [] then None
    else if input[0] == QUOTE then
      var text := ReadQuoted(input[1..]);
      if text.None? then None else Some((TextField(text.value.0), text.value.1))
    else if input[0] == ZERO then Some((NumberField(0), input[1..]))
    else if IsDigit(input[0]) then
      var (number, rest) := ReadDigits(input[1..], input[0] - ZERO);
      DigitsShrink(input[1..], input[0] - ZERO);
      Some((NumberField(number), rest))
    else None
  }

  lemma {:induction false} DigitsShrink(input: Text, value: nat)
    ensures |ReadDigits(input, value).1| <= |input|
    decreases |input|
  {
    if input != [] && IsDigit(input[0]) {
      DigitsShrink(input[1..], 10 * value + (input[0] - ZERO));
    }
  }

  /** `JSON.parse`, for texts that are such arrays written without spaces. */
  function Parsed(key: Text): Option<seq<Field>> {
    if key == [] || key[0] != OPEN then None
    else if key[1..] == [CLOSE] then Some([])
    else ReadElements(key[1..])
  }

  function ReadElements(input: Text): Option<seq<Field>>
    decreases |input|
  {
    var field := ReadField(input);
    if field.None? || field.value.1 == [] then None
    else
      var rest := field.value.1;
      if rest == [CLOSE] then Some([field.value.0])
      else if rest[0] != COMMA then None
      else
        var others := ReadElements(rest[1..]);
        if others.None? then None else Some([field.value.0] + others.value)
  }

  lemma NumberReadsBack(number: nat, rest: Text)
    requires rest != [] && !IsDigit(rest[0])
    ensures ReadField(Decimal(number) + rest) == Some((NumberField(number), rest))
  {
    hide Decimal, ReadQuoted;
    var input := Decimal(number) + rest;
    DigitsReadBack(number, rest);
    if Decimal(number)[0] == ZERO {
      assert input[1..] == rest;
    } else {
      assert ReadDigits(input, 0) == ReadDigits(input[1..], input[0] - ZERO);
    }
  }

  lemma FieldReadsBack(f: Field, rest: Text)
    requires rest != [] && !IsDigit(rest[0])
    ensures ReadField(FieldText(f) + rest) == Some((f, rest))
  {
    hide Decimal, Quoted, ReadDigits, ReadQuoted;
    match f
    case TextField(text) =>
      QuotedReadsBack(text, rest);
      assert (FieldText(f) + rest)[1..] == Quoted(text) + rest;
    case NumberField(number) => NumberReadsBack(number, rest);
  }

  lemma ReadNextField(input: Text, f: Field, rest: Text)
    requires rest != [] && ReadField(input) == Some((f, rest))
    ensures rest == [CLOSE] ==> ReadElements(input) == Some([f])
    ensures rest[0] == COMMA ==>
              var others := ReadElements(rest[1..]);
              ReadElements(input) == if others.None? then None else Some([f] + others.value)
  {
    hide ReadField;
  }

  lemma {:induction false} ElementsReadBack(fields: seq<Field>)
    requires fields != []
    ensures ReadElements(Elements(fields)) == Some(fields)
    decreases |fields|
  {
    hide ReadElements, FieldText, ReadField;
    var rest := if |fields| == 1 then [CLOSE] else [COMMA] + Elements(fields[1..]);
    FieldReadsBack(fields[0], rest);
    ReadNextField(Elements(fields), fields[0], rest);
    if |fields| == 1 {
      assert fields == [fields[0]];
    } else {
      ElementsReadBack(fields[1..]);
      assert rest[1..] == Elements(fields[1..]);
      assert fields == [fields[0]] + fields[1..];
    }
  }

  /** Parsing a written array gives the array back. */
  lemma ArrayReadsBack(fields: seq<Field>)
    ensures Parsed(Stringified(fields)) == Some(fields)
  {
    hide Elements, ReadElements;
    if fields == [] {
      assert Stringified(fields)[1..] == [CLOSE];
    } else {
      ElementsReadBack(fields);
      OneElementIsLonger(fields);
      assert Stringified(fields)[1..] == Elements(fields);
    }
  }

  lemma OneElementIsLonger(fields: seq<Field>)
    requires fields != []
    ensures Elements(fields) != [CLOSE]
  {
    hide Decimal, Quoted;
    assert |Elements(fields)| > 1;
  }

  // ---------------------------------------------------------------- keys

  datatype Subject = Subject(dataset: Text, table: Text, revision: nat, schemaVersion: nat, range: Request, display: bool)

  function FieldsOf(s: Subject): seq<Field> {
    [TextField(s.dataset), TextField(s.table), NumberField(s.revision), NumberField(s.schemaVersion),
     NumberField(s.range.rowStart), NumberField(s.range.rowCount),
     NumberField(s.range.columnStart), NumberField(s.range.columnCount)]
    + if s.display then [TextField(DISPLAY)] else []
  }

  /** `rangeCacheKey`. */
  function RangeKey(s: Subject): Key {
    Stringified(FieldsOf(s))
  }

  /** A string literal and the comma after it. */
  function Lead(t: Text): Text {
    [QUOTE] + Quoted(t) + [COMMA]
  }

  /** `rangeCacheKeyBelongsToDataset`. */
  predicate BelongsToDataset(key: Key, dataset: Text) {
    [OPEN] + Lead(dataset) <= key
  }

  /** `rangeCacheKeyBelongsToTable`. */
  predicate BelongsToTable(key: Key, dataset: Text, table: Text) {
    [OPEN] + Lead(dataset) + Lead(table) <= key
  }

  /** `rangeCacheKeyMatchesVersion`. */
  predicate MatchesVersion(key: Key, revision: nat, schemaVersion: nat) {
    match Parsed(key)
    case None => false
    case Some(fields) =>
      && (|fields| == 8 || (|fields| == 9 && fields[8] == TextField(DISPLAY)))
      && fields[2] == NumberField(revision) && fields[3] == NumberField(schemaVersion)
  }

  /** Two batches share a key exactly when they are the same batch. */
  lemma KeysAreDistinct(a: Subject, b: Subject)
    ensures RangeKey(a) == RangeKey(b) <==> a == b
  {
    if RangeKey(a) == RangeKey(b) {
      ArrayReadsBack(FieldsOf(a));
      ArrayReadsBack(FieldsOf(b));
      var f, g := FieldsOf(a), FieldsOf(b);
      assert f == g && |f| == |g|;
      assert f[0] == g[0] && f[1] == g[1] && f[2] == g[2] && f[3] == g[3];
      assert f[4] == g[4] && f[5] == g[5] && f[6] == g[6] && f[7] == g[7];
    }
  }

  lemma LeadIsElement(text: Text, others: seq<Field>)
    requires others != []
    ensures Elements([TextField(text)] + others) == Lead(text) + Elements(others)
  {
    hide Quoted, Decimal, Elements;
    var fields := [TextField(text)] + others;
    assert fields[1..] == others && |fields| > 1;
    ElementsStep(fields);
    var literal, rest := [QUOTE] + Quoted(text), Elements(others);
    assert literal + ([COMMA] + rest) == literal + [COMMA] + rest;
  }

  lemma ElementsStep(fields: seq<Field>)
    requires |fields| > 1
    ensures Elements(fields) == FieldText(fields[0]) + ([COMMA] + Elements(fields[1..]))
  {
    hide FieldText;
  }

  lemma KeyParts(s: Subject) returns (rest: Text)
    ensures RangeKey(s) == [OPEN] + (Lead(s.dataset) + (Lead(s.table) + rest))
  {
    hide Elements, Lead;
    var fields := FieldsOf(s);
    LeadIsElement(s.table, fields[2..]);
    LeadIsElement(s.dataset, fields[1..]);
    assert fields == [TextField(s.dataset)] + fields[1..] && fields[1..] == [TextField(s.table)] + fields[2..];
    rest := Elements(fields[2..]);
  }

  /** A text begins with at most one string literal. */
  lemma LeadIsUnique(a: Text, b: Text, afterA: Text, afterB: Text)
    requires Lead(a) + afterA == Lead(b) + afterB
    ensures a == b && afterA == afterB
  {
    var x, y: Text := [COMMA] + afterA, [COMMA] + afterB;
    QuotedReadsBack(a, x);
    QuotedReadsBack(b, y);
    hide Quoted, ReadQuoted;
    assert Quoted(a) + x == (Lead(a) + afterA)[1..];
    assert Quoted(b) + y == (Lead(b) + afterB)[1..];
    assert x[1..] == afterA && y[1..] == afterB;
  }

  /** The prefix test picks out the keys of one dataset. */
  lemma DatasetPrefixIsExact(s: Subject, dataset: Text)
    ensures BelongsToDataset(RangeKey(s), dataset) <==> s.dataset == dataset
  {
    hide Lead, RangeKey;
    var key := RangeKey(s);
    var rest := KeyParts(s);
    var prefix := [OPEN] + Lead(dataset);
    if prefix <= key {
      var after := key[|prefix|..];
      assert key[1..] == Lead(dataset) + after;
      assert key[1..] == Lead(s.dataset) + (Lead(s.table) + rest);
      LeadIsUnique(s.dataset, dataset, Lead(s.table) + rest, after);
    }
  }

  /** The longer prefix test picks out the keys of one table. */
  lemma TablePrefixIsExact(s: Subject, dataset: Text, table: Text)
    ensures BelongsToTable(RangeKey(s), dataset, table) <==> s.dataset == dataset && s.table == table
  {
    hide Lead, RangeKey;
    var key := RangeKey(s);
    var rest := KeyParts(s);
    var prefix := [OPEN] + Lead(dataset) + Lead(table);
    assert key == [OPEN] + Lead(s.dataset) + Lead(s.table) + rest;
    if prefix <= key {
      var after := key[|prefix|..];
      assert key[1..] == Lead(dataset) + (Lead(table) + after);
      assert key[1..] == Lead(s.dataset) + (Lead(s.table) + rest);
      LeadIsUnique(s.dataset, dataset, Lead(s.table) + rest, Lead(table) + after);
      LeadIsUnique(s.table, table, rest, after);
    }
  }

  /** Parsing the key recovers the revision and the schema version, with or without `display`. */
  lemma VersionIsExact(s: Subject, revision: nat, schemaVersion: nat)
    ensures MatchesVersion(RangeKey(s), revision, schemaVersion) <==> s.revision == revision && s.schemaVersion == schemaVersion
  {
    ArrayReadsBack(FieldsOf(s));
  }

  // ---------------------------------------------------------------- the cache under such keys

  /** Every entry was stored for some batch and holds that batch. */
  ghost predicate Coherent<T(!new)>(entries: seq<Entry<T>>, batch: Subject -> T) {
    forall i :: 0 <= i < |entries| ==> IsBatch(entries[i], batch)
  }

  ghost predicate IsBatch<T(!new)>(e: Entry<T>, batch: Subject -> T) {
    exists s :: e.key == RangeKey(s) && e.value == batch(s)
  }

  /** A hit returns the batch of exactly the range, version and variant asked for. */
  lemma HitIsTheBatch<T(!new)>(entries: seq<Entry<T>>, batch: Subject -> T, s: Subject)
    requires Coherent(entries, batch) && Find(entries, RangeKey(s)) < |entries|
    ensures entries[Find(entries, RangeKey(s))].value == batch(s)
  {
    var i := Find(entries, RangeKey(s));
    assert IsBatch(entries[i], batch);
    var t :| entries[i].key == RangeKey(t) && entries[i].value == batch(t);
    KeysAreDistinct(s, t);
  }

  lemma FewerCoherent<T(!new)>(entries: seq<Entry<T>>, fewer: seq<Entry<T>>, batch: Subject -> T)
    requires Coherent(entries, batch) && forall i :: 0 <= i < |fewer| ==> fewer[i] in entries
    ensures Coherent(fewer, batch)
  {
    hide IsBatch;
  }

  /** Looking up, trimming, storing and deleting keep the cache coherent. */
  lemma CacheStaysCoherent<T(!new)>(c: Cache<T>, batch: Subject -> T, s: Subject, size: nat, limit: nat, chosen: Entry<T> -> bool)
    requires CacheOk(c) && Coherent(c.entries, batch)
    ensures Coherent(Touched(c, RangeKey(s)).entries, batch)
    ensures Coherent(Trimmed(c, limit).entries, batch)
    ensures Coherent(Stored(c, RangeKey(s), batch(s), size, limit).entries, batch)
    ensures Coherent(Kept(c.entries, chosen), batch)
  {
    hide RangeKey;
    var key := RangeKey(s);
    FewerCoherent(c.entries, Touched(c, key).entries, batch);
    EvictedIsLongestSuffix(c.entries, |c.entries|, Min(c.maxBytes, limit));
    FewerCoherent(c.entries, Trimmed(c, limit).entries, batch);
    forall e | e in Kept(c.entries, chosen) ensures e in c.entries {
      KeptAreUnchosen(c.entries, chosen, e);
    }
    FewerCoherent(c.entries, Kept(c.entries, chosen), batch);
    StoredCoherent(c, batch, s, size, limit);
  }

  lemma StoredCoherent<T(!new)>(c: Cache<T>, batch: Subject -> T, s: Subject, size: nat, limit: nat)
    requires CacheOk(c) && Coherent(c.entries, batch)
    ensures Coherent(Stored(c, RangeKey(s), batch(s), size, limit).entries, batch)
  {
    hide RangeKey, Stored, IsBatch;
    var key, charged := RangeKey(s), Max(size, c.minimumEntry);
    assert IsBatch(Entry(key, batch(s), charged), batch) by { NewIsBatch(batch, s, charged); }
    StoredIsOldOrNew(c, key, batch(s), size, limit);
    forall e | e in Stored(c, key, batch(s), size, limit).entries ensures IsBatch(e, batch) {
    }
  }

  lemma NewIsBatch<T(!new)>(batch: Subject -> T, s: Subject, charged: nat)
    ensures IsBatch(Entry(RangeKey(s), batch(s), charged), batch)
  {
    hide RangeKey;
  }

  /** Closing a dataset deletes its batches and no others (`clearDatasetCache`). */
  lemma DatasetIsCleared<T(!new)>(entries: seq<Entry<T>>, dataset: Text, i: nat, s: Subject)
    requires i < |entries| && entries[i].key == RangeKey(s)
    ensures entries[i] in Kept(entries, (e: Entry<T>) => BelongsToDataset(e.key, dataset)) <==> s.dataset != dataset
  {
    KeptAreUnchosen(entries, (e: Entry<T>) => BelongsToDataset(e.key, dataset), entries[i]);
    DatasetPrefixIsExact(s, dataset);
  }

  /** A new table version deletes the table's batches of other versions and no others (`updateTableCacheVersion`). */
  lemma StaleVersionsAreCleared<T(!new)>(entries: seq<Entry<T>>, dataset: Text, table: Text, revision: nat, schemaVersion: nat,
                                         i: nat, s: Subject)
    requires i < |entries| && entries[i].key == RangeKey(s)
    ensures entries[i] in Kept(entries, (e: Entry<T>) =>
                BelongsToTable(e.key, dataset, table) && !MatchesVersion(e.key, revision, schemaVersion))
            <==> s.dataset != dataset || s.table != table || (s.revision == revision && s.schemaVersion == schemaVersion)
  {
    KeptAreUnchosen(entries, (e: Entry<T>) =>
      BelongsToTable(e.key, dataset, table) && !MatchesVersion(e.key, revision, schemaVersion), entries[i]);
    TablePrefixIsExact(s, dataset, table);
    VersionIsExact(s, revision, schemaVersion);
  }
}
