/**
 Preview text within a byte limit: plain values are cut by `truncate_utf8_display`, nested ones are
 written escaped by `BoundedEscapedDisplayWriter` (both in `src/arrow.rs`).
 */
module DisplayText {
  import opened Common

  /** One character in UTF-8. */
  type Character = c: seq<byte> | 1 <= |c| <= 4 witness [0]

  type Text = seq<Character>

  function Size(t: Text): nat {
    if t == [] then 0 else Size(t[..|t| - 1]) + |t[|t| - 1]|
  }

  function Utf8(t: Text): (r: seq<byte>)
    ensures |r| == Size(t)
  {
    if t == [] then [] else Utf8(t[..|t| - 1]) + t[|t| - 1]
  }

  /** `... [truncated]` */
  const SUFFIX: Text := [[46], [46], [46], [32], [91], [116], [114], [117], [110], [99], [97], [116], [101], [100], [93]]

  const SUFFIX_BYTES := 15

  function SuffixFor(maxBytes: nat): (r: Text)
    ensures Size(r) == if maxBytes >= SUFFIX_BYTES then SUFFIX_BYTES else 0
  {
    SuffixSize();
    if maxBytes >= SUFFIX_BYTES then SUFFIX else []
  }

  lemma {:induction false} UnitSize(t: Text)
    requires forall i :: 0 <= i < |t| ==> |t[i]| == 1
    ensures Size(t) == |t|
  {
    if t != [] {
      UnitSize(t[..|t| - 1]);
    }
  }

  lemma SuffixSize()
    ensures Size(SUFFIX) == SUFFIX_BYTES
  {
    UnitSize(SUFFIX);
  }

  /** `while value.len() > max { value.pop(); }` */
  function Popped(t: Text, maxBytes: nat): Text {
    if Size(t) <= maxBytes then t else Popped(t[..|t| - 1], maxBytes)
  }

  /** `truncate_utf8_display`. */
  function Truncated(t: Text, maxBytes: nat): Text {
    if Size(t) <= maxBytes then t else Popped(t, maxBytes - Size(SuffixFor(maxBytes))) + SuffixFor(maxBytes)
  }

  lemma {:induction false} SizeConcat(a: Text, b: Text)
    ensures Size(a + b) == Size(a) + Size(b)
  {
    if b == [] {
      assert a + b == a;
    } else {
      assert (a + b)[..|a + b| - 1] == a + b[..|b| - 1];
      SizeConcat(a, b[..|b| - 1]);
    }
  }

  /** Popping leaves the longest prefix of whole characters that fits. */
  lemma {:induction false} PoppedIsLongestPrefix(t: Text, maxBytes: nat)
    ensures var p := Popped(t, maxBytes);
            && |p| <= |t| && p == t[..|p|] && Size(p) <= maxBytes && (|p| < |t| ==> Size(t[..|p| + 1]) > maxBytes)
  {
    if Size(t) <= maxBytes {
      assert t[..|t|] == t;
    } else {
      var front := t[..|t| - 1];
      PoppedIsLongestPrefix(front, maxBytes);
      var p := Popped(front, maxBytes);
      assert front[..|p|] == t[..|p|];
      if |p| < |front| {
        assert front[..|p| + 1] == t[..|p| + 1];
      } else {
        assert t[..|p| + 1] == t;
      }
    }
  }

  /** Text cut after `n` characters, with the suffix that the limit has room for. */
  predicate CutAt(r: Text, t: Text, n: nat, maxBytes: nat) {
    && n < |t| && r == t[..n] + SuffixFor(maxBytes)
    && Size(t[..n + 1]) > maxBytes - Size(SuffixFor(maxBytes))
  }

  /** Truncated text is whole characters and an optional suffix, within the limit; text that fits stays. */
  lemma TruncatedFits(t: Text, maxBytes: nat)
    ensures var r := Truncated(t, maxBytes);
            && Size(r) <= maxBytes && (Size(t) <= maxBytes ==> r == t)
            && (Size(t) > maxBytes ==> exists n :: CutAt(r, t, n, maxBytes))
  {
    hide SuffixFor, Size, Popped;
    if Size(t) > maxBytes {
      var suffix := SuffixFor(maxBytes);
      var p := Popped(t, maxBytes - Size(suffix));
      PoppedIsLongestPrefix(t, maxBytes - Size(suffix));
      SizeConcat(p, suffix);
      assert t[..|t|] == t;
      assert CutAt(Truncated(t, maxBytes), t, |p|, maxBytes);
    }
  }

  // ---------------------------------------------------------------- nested values

  /** What `write_str` makes of one character: a backslash, tab, CR or LF takes two. */
  function Escape(c: Character): Text {
    if c == [92] then [[92], [92]]
    else if c == [9] then [[92], [116]]
    else if c == [13] then [[92], [114]]
    else if c == [10] then [[92], [110]]
    else [c]
  }

  function Escaped(t: Text): Text {
    if t == [] then [] else Escape(t[0]) + Escaped(t[1..])
  }

  /** The character that a backslash and this letter stand for. */
  function Unescape(letter: Character): Option<Character> {
    if letter == [92] then Some([92])
    else if letter == [116] then Some([9])
    else if letter == [114] then Some([13])
    else if letter == [110] then Some([10])
    else None
  }

  /** A reader of escaped text. */
  function ReadEscaped(t: Text): Option<Text>
    decreases |t|
  {
    if t == [] then Some([])
    else if t[0] != [92] then
      var rest := ReadEscaped(t[1..]);
      if rest.None? then None else Some([t[0]] + rest.value)
    else if |t| < 2 || Unescape(t[1]).None? then None
    else
      var rest := ReadEscaped(t[2..]);
      if rest.None? then None else Some([Unescape(t[1]).value] + rest.value)
  }

  lemma EscapeReadsBack(c: Character, rest: Text)
    ensures ReadEscaped(Escape(c) + rest) == var others := ReadEscaped(rest); if others.None? then None else Some([c] + others.value)
  {
    var e := Escape(c);
    if |e| == 2 {
      assert (e + rest)[2..] == rest && (e + rest)[0] == e[0] && (e + rest)[1] == e[1];
    } else {
      assert (e + rest)[1..] == rest && (e + rest)[0] == c;
    }
  }

  /** Escaping loses nothing. */
  lemma {:induction false} EscapedReadsBack(t: Text)
    ensures ReadEscaped(Escaped(t)) == Some(t)
    decreases |t|
  {
    if t != [] {
      hide Escape, ReadEscaped;
      EscapedReadsBack(t[1..]);
      EscapeReadsBack(t[0], Escaped(t[1..]));
      assert [t[0]] + t[1..] == t;
    } else {
      assert Escaped(t) == [];
    }
  }

  /** No tab and no line break is left. */
  lemma {:induction false} EscapedIsOneLine(t: Text, i: nat)
    requires i < |Escaped(t)|
    ensures Escaped(t)[i] !in {[9], [10], [13]}
    decreases |t|
  {
    var e := Escape(t[0]);
    if i >= |e| {
      EscapedIsOneLine(t[1..], i - |e|);
    }
  }

  /** The writer's text after `t` is written to it, and whether the limit stopped it. */
  function Written(value: Text, t: Text, maxBytes: nat): (Text, bool)
    decreases |t|
  {
    if t == [] then (value, false)
    else if Size(value) + Size(Escape(t[0])) > maxBytes then (value, true)
    else Written(value + Escape(t[0]), t[1..], maxBytes)
  }

  function Finished(value: Text, truncated: bool, maxBytes: nat): Text {
    if !truncated then value else Popped(value, maxBytes - Size(SuffixFor(maxBytes))) + SuffixFor(maxBytes)
  }

  /** `format_bounded_nested_display`. */
  function Bounded(t: Text, maxBytes: nat): Text {
    var (value, truncated) := Written([], t, maxBytes);
    Finished(value, truncated, maxBytes)
  }

  /** The formatter may write its text in any pieces. */
  lemma {:induction false} WrittenConcat(value: Text, a: Text, b: Text, maxBytes: nat)
    ensures var first := Written(value, a, maxBytes);
            Written(value, a + b, maxBytes) == if first.1 then first else Written(first.0, b, maxBytes)
    decreases |a|
  {
    hide Escape, Size;
    if a == [] {
      assert a + b == b;
    } else {
      assert (a + b)[1..] == a[1..] + b;
      if Size(value) + Size(Escape(a[0])) <= maxBytes {
        WrittenConcat(value + Escape(a[0]), a[1..], b, maxBytes);
      }
    }
  }

  lemma OneSize(c: Character)
    ensures Size([c]) == |c|
  {
    assert [c][..0] == [];
  }

  lemma EscapeSize(c: Character)
    ensures 1 <= Size(Escape(c)) <= 4 && |Escape(c)| >= 1
  {
    var e := Escape(c);
    OneSize(e[0]);
    if |e| == 2 {
      OneSize(e[1]);
      SizeConcat([e[0]], [e[1]]);
      assert e == [e[0]] + [e[1]];
    } else {
      assert e == [e[0]];
    }
  }

  /** How far the writer got: it holds `value` and whole escapes, and the next one would not fit. */
  predicate StopsAt(value: Text, t: Text, k: nat, v: Text, maxBytes: nat) {
    k < |t| && v == value + Escaped(t[..k]) && Size(v) + Size(Escape(t[k])) > maxBytes
  }

  /** The writer keeps whole escapes, as many as fit, and is stopped exactly if not all do. */
  lemma {:induction false} WrittenIsPrefix(value: Text, t: Text, maxBytes: nat)
    requires Size(value) <= maxBytes
    ensures var (v, cut) := Written(value, t, maxBytes);
            && Size(v) <= maxBytes && (cut <==> Size(value) + Size(Escaped(t)) > maxBytes)
            && (!cut ==> v == value + Escaped(t)) && (cut ==> exists k: nat :: StopsAt(value, t, k, v, maxBytes))
    decreases |t|
  {
    hide Escape, Size;
    if t == [] {
      assert value + [] == value;
      EmptySize();
    } else {
      var piece := Escape(t[0]);
      SizeConcat(piece, Escaped(t[1..]));
      if Size(value) + Size(piece) > maxBytes {
        assert value + Escaped([]) == value && t[..0] == [];
        assert StopsAt(value, t, 0, value, maxBytes);
      } else {
        SizeConcat(value, piece);
        WrittenIsPrefix(value + piece, t[1..], maxBytes);
        var (v, cut) := Written(value + piece, t[1..], maxBytes);
        assert value + (piece + Escaped(t[1..])) == value + piece + Escaped(t[1..]);
        if cut {
          var k: nat :| StopsAt(value + piece, t[1..], k, v, maxBytes);
          assert t[..k + 1][1..] == t[1..][..k];
          assert value + (piece + Escaped(t[1..][..k])) == value + piece + Escaped(t[1..][..k]);
          assert StopsAt(value, t, k + 1, v, maxBytes);
        }
      }
    }
  }

  lemma EmptySize()
    ensures Size([]) == 0
  {
  }

  lemma {:induction false} EscapedConcat(a: Text, b: Text)
    ensures Escaped(a + b) == Escaped(a) + Escaped(b)
  {
    hide Escape;
    if a == [] {
      assert a + b == b;
    } else {
      assert (a + b)[1..] == a[1..] + b;
      EscapedConcat(a[1..], b);
    }
  }

  /** What the writer holds when it stops is a proper beginning of the escaped text, less than one escape short of the limit. */
  lemma StoppedIsPrefix(t: Text, k: nat, v: Text, maxBytes: nat)
    requires StopsAt([], t, k, v, maxBytes)
    ensures |v| < |Escaped(t)| && v == Escaped(t)[..|v|] && Size(v) + 4 > maxBytes
  {
    hide Escape, Size;
    assert v == Escaped(t[..k]);
    assert t == t[..k] + t[k..];
    EscapedConcat(t[..k], t[k..]);
    EscapeSize(t[k]);
    assert Escaped(t[k..]) == Escape(t[k]) + Escaped(t[k..][1..]);
  }

  /** The preview of a nested value fits; text that fits is escaped and nothing else; text that does not is cut between characters. */
  lemma BoundedFits(t: Text, maxBytes: nat)
    ensures var r, e := Bounded(t, maxBytes), Escaped(t);
            && Size(r) <= maxBytes && (Size(e) <= maxBytes ==> r == e)
            && (Size(e) > maxBytes ==> exists n: nat :: n < |e| && r == e[..n] + SuffixFor(maxBytes))
  {
    hide SuffixFor, Size, Popped, Escape, Escaped;
    var e := Escaped(t);
    var (v, cut) := Written([], t, maxBytes);
    EmptySize();
    WrittenIsPrefix([], t, maxBytes);
    if cut {
      var k: nat :| StopsAt([], t, k, v, maxBytes);
      StoppedIsPrefix(t, k, v, maxBytes);
      var suffix := SuffixFor(maxBytes);
      var p := Popped(v, maxBytes - Size(suffix));
      PoppedIsLongestPrefix(v, maxBytes - Size(suffix));
      SizeConcat(p, suffix);
      assert v[..|p|] == e[..|p|];
    } else {
      assert [] + e == e;
    }
  }

  lemma {:induction false} SizeGrows(t: Text, m: nat, n: nat)
    requires m <= n <= |t|
    ensures Size(t[..m]) <= Size(t[..n])
    decreases n - m
  {
    if m < n {
      SizeGrows(t, m, n - 1);
      assert t[..n][..n - 1] == t[..n - 1];
    }
  }

  /** There is one longest beginning that fits. */
  lemma LongestPrefixIsUnique(t: Text, m: nat, n: nat, limit: nat)
    requires m < |t| && n < |t| && Size(t[..m]) <= limit < Size(t[..m + 1]) && Size(t[..n]) <= limit < Size(t[..n + 1])
    ensures m == n
  {
    if m < n {
      SizeGrows(t, m + 1, n);
    } else if n < m {
      SizeGrows(t, n + 1, m);
    }
  }

  /** What is popped off a beginning that is too long is what is popped off the whole. */
  lemma SamePopped(e: Text, v: Text, limit: nat)
    requires |v| <= |e| && v == e[..|v|] && Size(v) > limit
    ensures Popped(v, limit) == Popped(e, limit)
  {
    hide Popped, Size;
    PoppedAt(v, limit);
    SizeGrows(e, |v|, |e|);
    assert e[..|e|] == e;
    PoppedAt(e, limit);
    var p, q := |Popped(v, limit)|, |Popped(e, limit)|;
    assert v[..p] == e[..p] && v[..p + 1] == e[..p + 1];
    LongestPrefixIsUnique(e, p, q, limit);
  }

  lemma PoppedAt(t: Text, limit: nat)
    requires Size(t) > limit
    ensures var n := |Popped(t, limit)|;
            n < |t| && Popped(t, limit) == t[..n] && Size(t[..n]) <= limit < Size(t[..n + 1])
  {
    PoppedIsLongestPrefix(t, limit);
    hide Popped, Size;
    assert t[..|t|] == t;
  }

  /** With room for the suffix, writing with a limit is escaping first and truncating then. */
  lemma BoundedIsTruncated(t: Text, maxBytes: nat)
    requires maxBytes >= SUFFIX_BYTES
    ensures Bounded(t, maxBytes) == Truncated(Escaped(t), maxBytes)
  {
    hide SuffixFor, Size, Popped, Escape, Escaped;
    var e := Escaped(t);
    var (v, cut) := Written([], t, maxBytes);
    EmptySize();
    WrittenIsPrefix([], t, maxBytes);
    if cut {
      var k: nat :| StopsAt([], t, k, v, maxBytes);
      StoppedIsPrefix(t, k, v, maxBytes);
      assert Size(SuffixFor(maxBytes)) == SUFFIX_BYTES;
      SamePopped(e, v, maxBytes - SUFFIX_BYTES);
    } else {
      assert [] + e == e;
    }
  }

  /** Whole escapes of a beginning of the text, of which the next would not fit. */
  predicate EscapesOf(r: Text, t: Text, k: nat, maxBytes: nat) {
    k < |t| && r == Escaped(t[..k]) && Size(r) + Size(Escape(t[k])) > maxBytes
  }

  /** Without room for the suffix no escape is ever cut in two. */
  lemma ShortLimitKeepsEscapes(t: Text, maxBytes: nat)
    requires maxBytes < SUFFIX_BYTES && Size(Escaped(t)) > maxBytes
    ensures exists k: nat :: EscapesOf(Bounded(t, maxBytes), t, k, maxBytes)
  {
    hide Size, Escape, Escaped;
    var (v, cut) := Written([], t, maxBytes);
    EmptySize();
    WrittenIsPrefix([], t, maxBytes);
    var k: nat :| StopsAt([], t, k, v, maxBytes);
    assert [] + Escaped(t[..k]) == Escaped(t[..k]);
    assert v + [] == v;
    assert EscapesOf(Bounded(t, maxBytes), t, k, maxBytes);
  }

  class BoundedEscapedDisplayWriter {
    var value: Text
    const maxBytes: nat
    var truncated: bool

    constructor (limit: nat)
      ensures value == [] && maxBytes == limit && !truncated
    {
      value, maxBytes, truncated := [], limit, false;
    }

    method PushEscaped(piece: Text) returns (ok: bool)
      modifies this
      ensures ok <==> Size(old(value)) + Size(piece) <= maxBytes
      ensures ok ==> value == old(value) + piece && truncated == old(truncated)
      ensures !ok ==> value == old(value) && truncated
    {
      if Size(value) + Size(piece) > maxBytes {
        truncated := true;
        return false;
      }
      value := value + piece;
      return true;
    }

    /** `write_str`; the formatter stops at the first error. */
    method WriteStr(t: Text) returns (ok: bool)
      requires !truncated
      modifies this
      ensures (value, truncated) == Written(old(value), t, maxBytes) && (ok <==> !truncated)
    {
      hide Escape, Size;
      var i := 0;
      assert t[0..] == t;
      while i < |t|
        invariant 0 <= i <= |t| && !truncated
        invariant Written(old(value), t, maxBytes) == Written(value, t[i..], maxBytes)
      {
        assert t[i..][1..] == t[i + 1..];
        var pushed := PushEscaped(Escape(t[i]));
        if !pushed {
          return false;
        }
        i := i + 1;
      }
      return true;
    }

    method Finish() returns (r: Text)
      modifies this
      ensures r == Finished(old(value), old(truncated), maxBytes)
    {
      if !truncated {
        return value;
      }
      var suffix := SuffixFor(maxBytes);
      var prefixBytes := maxBytes - Size(suffix);
      while Size(value) > prefixBytes
        invariant Popped(value, prefixBytes) == Popped(old(value), prefixBytes)
        decreases |value|
      {
        value := value[..|value| - 1];
      }
      return value + suffix;
    }
  }

  /** The preview of a nested value whose formatter writes it in the given pieces. */
  method FormatBoundedNested(pieces: seq<Text>, maxBytes: nat) returns (r: Text)
    ensures r == Bounded(Joined(pieces), maxBytes)
  {
    hide Finished, Written;
    var writer := new BoundedEscapedDisplayWriter(maxBytes);
    var i, ok := 0, true;
    assert pieces[0..] == pieces;
    while i < |pieces| && ok
      invariant 0 <= i <= |pieces| && fresh(writer) && writer.maxBytes == maxBytes && (ok <==> !writer.truncated)
      invariant Written([], Joined(pieces), maxBytes)
             == if ok then Written(writer.value, Joined(pieces[i..]), maxBytes) else (writer.value, true)
    {
      assert pieces[i..][1..] == pieces[i + 1..];
      WrittenConcat(writer.value, pieces[i], Joined(pieces[i + 1..]), maxBytes);
      ok := writer.WriteStr(pieces[i]);
      i := i + 1;
    }
    if ok {
      assert Joined(pieces[i..]) == [];
      WrittenNothing(writer.value, maxBytes);
    }
    r := writer.Finish();
  }

  lemma WrittenNothing(value: Text, maxBytes: nat)
    ensures Written(value, [], maxBytes) == (value, false)
  {
  }

  function Joined(pieces: seq<Text>): Text {
    if pieces == [] then [] else pieces[0] + Joined(pieces[1..])
  }
}
