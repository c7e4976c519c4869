/**
 What the host reads off the preview columns of a typed batch: `decodeDisplayValue` (`js/model.ts`) on the
 buffers that `encode_batch` (`src/arrow.rs`) has stored.
 */
module DisplayDecode {
  import opened Common
  import opened BufferPool
  import opened DisplayText
  import opened DisplayBudget
  import S = StringColumn

  /** The offsets of a preview column are signed in the source: its text ends below 2^31. */
  const MAX_OFFSET: nat := 0x7FFF_FFFF

  function TextOf(cell: Option<Text>): S.Cell {
    if cell.Some? then Some(Utf8(cell.value)) else None
  }

  // ---------------------------------------------------------------- offsets and text

  lemma {:induction false} PrefixBytes(shown: Cells, i: nat)
    requires i < |shown|
    ensures ValueBytes(shown[..i + 1]) == ValueBytes(shown[..i]) + S.CellBytes(TextOf(shown[i]))
    ensures ValueBytes(shown[..i + 1]) <= ValueBytes(shown)
    decreases |shown|
  {
    assert shown[..i + 1][1..] == shown[1..][..i];
    if i > 0 {
      assert shown[..i][1..] == shown[1..][..i - 1];
      PrefixBytes(shown[1..], i - 1);
    }
  }

  lemma FirstData(shown: Cells)
    requires shown != []
    ensures DataBytes(shown) == S.CellText(TextOf(shown[0])) + DataBytes(shown[1..])
    ensures ValueBytes(shown[..1]) == |S.CellText(TextOf(shown[0]))| && ValueBytes(shown[..0]) == 0
  {
    assert shown[..1][1..] == [];
  }

  lemma PrefixTail(shown: Cells, i: nat)
    requires 0 < i <= |shown|
    ensures ValueBytes(shown[..i]) == |S.CellText(TextOf(shown[0]))| + ValueBytes(shown[1..][..i - 1])
  {
    assert shown[..i][1..] == shown[1..][..i - 1];
  }

  /** The text of cell `i` stands between its offsets. */
  predicate DataStands(shown: Cells, i: nat)
    requires i < |shown|
  {
    var a, b := ValueBytes(shown[..i]), ValueBytes(shown[..i + 1]);
    a <= b <= |DataBytes(shown)| && DataBytes(shown)[a..b] == S.CellText(TextOf(shown[i]))
  }

  lemma BehindFirst(first: seq<byte>, rest: seq<byte>, a: nat, b: nat)
    requires a <= b <= |rest|
    ensures (first + rest)[|first| + a..|first| + b] == rest[a..b]
  {
  }

  lemma LaterDataStands(shown: Cells, i: nat)
    requires 0 < i < |shown| && DataStands(shown[1..], i - 1)
    ensures DataStands(shown, i)
  {
    FirstData(shown);
    PrefixTail(shown, i);
    PrefixTail(shown, i + 1);
    hide ValueBytes, DataBytes, S.CellText, TextOf;
    assert shown[1..][i - 1] == shown[i];
    BehindFirst(S.CellText(TextOf(shown[0])), DataBytes(shown[1..]), ValueBytes(shown[1..][..i - 1]), ValueBytes(shown[1..][..i]));
  }

  lemma {:induction false} DataAt(shown: Cells, i: nat)
    requires i < |shown|
    ensures DataStands(shown, i)
    decreases |shown|
  {
    if i == 0 {
      FirstData(shown);
      hide ValueBytes, DataBytes, S.CellText, TextOf;
      assert shown[..0] == [];
    } else {
      hide DataStands;
      DataAt(shown[1..], i - 1);
      LaterDataStands(shown, i);
    }
  }

  lemma OffsetWord(shown: Cells, i: nat)
    requires i <= |shown| && ValueBytes(shown[..i]) <= U32_MAX
    ensures forall k :: 0 <= k < 4 ==> OffsetByte(shown, 4 * i + k) == S.U32Bytes(ValueBytes(shown[..i]))[k]
  {
    var n := ValueBytes(shown[..i]);
    hide ValueBytes;
    assert n / 256 / 256 == n / 0x1_0000 && n / 256 / 256 / 256 == n / 0x100_0000;
  }

  /** Below 2^32, which includes all offsets of the source, the little-endian words read back. */
  lemma OffsetAt(shown: Cells, i: nat)
    requires i <= |shown| && ValueBytes(shown[..i]) <= U32_MAX
    ensures S.ReadOffset(OffsetBytes(shown), i) == Some(ValueBytes(shown[..i]))
  {
    OffsetWord(shown, i);
    S.WordReadsBack(ValueBytes(shown[..i]));
    var word := OffsetBytes(shown)[4 * i..4 * i + 4];
    assert forall k :: 0 <= k < 4 ==> word[k] == OffsetByte(shown, 4 * i + k);
    hide ValueBytes, OffsetByte, LittleEndian;
    assert word == S.U32Bytes(ValueBytes(shown[..i]));
  }

  // ---------------------------------------------------------------- validity

  /** Bit `k` of a number. */
  predicate BitAt(v: nat, k: nat) {
    if k == 0 then v % 2 == 1 else BitAt(v / 2, k - 1)
  }

  lemma {:induction false} NoBits(k: nat)
    ensures !BitAt(0, k)
  {
    if k > 0 {
      NoBits(k - 1);
    }
  }

  lemma {:induction false} TopBit(v: nat, m: nat, on: bool, k: nat)
    requires v < Power(m)
    ensures BitAt(v + if on then Power(m) else 0, k) <==> if k == m then on else BitAt(v, k)
    decreases m
  {
    NoBits(k);
    if m == 0 {
      if k > 0 {
        NoBits(k - 1);
      }
    } else {
      var p := Power(m - 1);
      assert Power(m) == 2 * p;
      assert (v + if on then 2 * p else 0) / 2 == v / 2 + if on then p else 0;
      if k > 0 {
        TopBit(v / 2, m - 1, on, k - 1);
      }
    }
  }

  lemma {:induction false} ValidBitAt(shown: Cells, first: nat, bits: nat, k: nat)
    requires bits <= 8
    ensures BitAt(ValidBits(shown, first, bits), k) <==> k < bits && first + k < |shown| && shown[first + k].Some?
  {
    if bits == 0 {
      NoBits(k);
    } else {
      ValidBitAt(shown, first, bits - 1, k);
      TopBit(ValidBits(shown, first, bits - 1), bits - 1, first + bits - 1 < |shown| && shown[first + bits - 1].Some?, k);
    }
  }

  /** A byte, given as a number, as the host tests it. */
  function AsBits(b: byte, bits: nat): bv8
    requires bits <= 8
  {
    if bits == 0 then 0 else AsBits(b, bits - 1) | if BitAt(b, bits - 1) then S.Mask(bits - 1) else 0
  }

  lemma {:induction false} AsBitsAt(b: byte, bits: nat, k: nat)
    requires bits <= 8 && k < 8
    ensures S.Bit(AsBits(b, bits), k) <==> k < bits && BitAt(b, k)
  {
    if bits == 0 {
      S.ZeroByte(k);
    } else {
      AsBitsAt(b, bits - 1, k);
      S.SetsOnlyThatBit(AsBits(b, bits - 1), bits - 1, k);
      OrNothing(AsBits(b, bits - 1));
    }
  }

  lemma OrNothing(b: bv8)
    ensures b | 0 == b
  {
  }

  function Bitmap(bytes: seq<byte>): (r: seq<bv8>)
    ensures |r| == |bytes|
  {
    seq(|bytes|, i requires 0 <= i < |bytes| => AsBits(bytes[i], 8))
  }

  lemma BitmapAt(shown: Cells, i: nat)
    requires i < |shown|
    ensures S.ValidBit(Bitmap(ValidityBytes(shown)), i) <==> shown[i].Some?
  {
    assert i == 8 * (i / 8) + i % 8;
    AsBitsAt(ValidityBytes(shown)[i / 8], 8, i % 8);
    ValidBitAt(shown, 8 * (i / 8), 8, i % 8);
  }

  lemma {:induction false} NoNulls(shown: Cells, i: nat)
    requires !HasNulls(shown) && i < |shown|
    ensures shown[i].Some?
    decreases |shown|
  {
    PresentAtMost(shown[1..]);
    if i > 0 {
      NoNulls(shown[1..], i - 1);
    }
  }

  lemma {:induction false} PresentAtMost(shown: Cells)
    ensures Present(shown) <= |shown|
    decreases |shown|
  {
    if shown != [] {
      PresentAtMost(shown[1..]);
    }
  }

  // ---------------------------------------------------------------- the host

  /** The regions that a descriptor names, as `regionView` cuts them out. */
  function Region(buffers: seq<seq<byte>>, s: Slice): seq<byte> {
    if s.buffer < |buffers| && s.offset + s.length <= |buffers[s.buffer]| then buffers[s.buffer][s.offset..s.offset + s.length] else []
  }

  function WireOf(buffers: seq<seq<byte>>, d: Descriptor): S.Wire {
    S.Wire(Region(buffers, d.data), Region(buffers, d.offsets),
           if d.validity.Some? then Some(Bitmap(Region(buffers, d.validity.value))) else None, 0, 0)
  }

  function StoredWire(shown: Cells): S.Wire {
    S.Wire(DataBytes(shown), OffsetBytes(shown), if HasNulls(shown) then Some(Bitmap(ValidityBytes(shown))) else None, 0, 0)
  }

  lemma DescribedWire(buffers: seq<seq<byte>>, d: Descriptor, shown: Cells)
    requires Describes(buffers, d, shown)
    ensures WireOf(buffers, d) == StoredWire(shown)
  {
    hide OffsetBytes, DataBytes, ValidityBytes, HasNulls;
  }

  /** A stored preview passes the host's validation. */
  lemma PreviewIsValid(buffers: seq<seq<byte>>, d: Descriptor, shown: Cells)
    requires Describes(buffers, d, shown) && ValueBytes(shown) <= MAX_OFFSET
    ensures S.DisplayValid(WireOf(buffers, d), |shown|)
  {
    DescribedWire(buffers, d, shown);
    var w := StoredWire(shown);
    hide ValueBytes, WireOf, OffsetBytes, DataBytes, ValidityBytes, S.ReadOffset;
    forall i: nat | i <= |shown|
      ensures S.ReadOffset(w.offsets, i) == Some(ValueBytes(shown[..i])) && ValueBytes(shown[..i]) <= |w.data|
      ensures i < |shown| ==> ValueBytes(shown[..i]) <= ValueBytes(shown[..i + 1])
    {
      if i < |shown| {
        PrefixBytes(shown, i);
      } else {
        assert shown[..i] == shown;
      }
      OffsetAt(shown, i);
    }
  }

  lemma ValidAtRow(shown: Cells, row: nat)
    requires row < |shown|
    ensures S.ValidAt(StoredWire(shown), row) == Ok(shown[row].Some?)
  {
    hide OffsetBytes, DataBytes, ValidityBytes, HasNulls, AsBits;
    if HasNulls(shown) {
      BitmapAt(shown, row);
    } else {
      NoNulls(shown, row);
    }
  }

  /** A stored preview shows on the host the texts it was made from, but for a leading byte order mark. */
  lemma PreviewDecodes(buffers: seq<seq<byte>>, d: Descriptor, shown: Cells, row: nat)
    requires Describes(buffers, d, shown) && ValueBytes(shown) <= MAX_OFFSET && row < |shown|
    ensures S.DecodeCell(WireOf(buffers, d), row) == Ok(S.HostCell(TextOf(shown[row])))
  {
    DescribedWire(buffers, d, shown);
    ValidAtRow(shown, row);
    hide ValueBytes, Describes, WireOf, OffsetBytes, ValidityBytes, DataBytes, HasNulls, S.ReadOffset, S.HostText, S.ValidAt, Bitmap;
    if shown[row].Some? {
      PrefixBytes(shown, row);
      OffsetAt(shown, row);
      OffsetAt(shown, row + 1);
      DataAt(shown, row);
    }
  }

  // ---------------------------------------------------------------- all columns of a batch

  lemma {:induction false} PreviewsFit(columns: seq<Column>, maxCell: nat, remaining: nat, remainingCells: nat, usizeMax: nat, c: nat)
    requires PresentTotal(columns) <= remainingCells && c < |columns|
    ensures ValueBytes(ShownColumns(columns, maxCell, remaining, remainingCells, usizeMax)[c]) <= remaining
    ensures |ShownColumns(columns, maxCell, remaining, remainingCells, usizeMax)[c]| == |columns[c].cells|
    decreases |columns|
  {
    hide Shown, ValueBytes, Present, ColumnBudget;
    var budget := ColumnBudget(remaining, Present(columns[0].cells), remainingCells, usizeMax);
    BudgetWithinRemaining(remaining, Present(columns[0].cells), remainingCells, usizeMax);
    ShownFits(columns[0].nested, columns[0].cells, maxCell, budget);
    if c > 0 {
      var shown := Shown(columns[0].nested, columns[0].cells, maxCell, budget);
      PreviewsFit(columns[1..], maxCell, Max(0, remaining - ValueBytes(shown)), Max(0, remainingCells - Present(columns[0].cells)), usizeMax, c - 1);
    }
  }

  /** End to end: with an output limit below 2^31, the host shows of every cell of a batch the text that its share allows. */
  lemma AllPreviewsDecode(buffers: seq<seq<byte>>, ds: seq<Descriptor>, columns: seq<Column>, maxCell: nat, remaining: nat, usizeMax: nat, c: nat, row: nat)
    requires remaining <= MAX_OFFSET && |ds| == |columns|
    requires AllDescribe(buffers, ds, ShownColumns(columns, maxCell, remaining, PresentTotal(columns), usizeMax))
    requires c < |columns| && row < |columns[c].cells|
    ensures var shown := ShownColumns(columns, maxCell, remaining, PresentTotal(columns), usizeMax)[c];
            && S.DisplayValid(WireOf(buffers, ds[c]), |columns[c].cells|) && |shown| == |columns[c].cells|
            && S.DecodeCell(WireOf(buffers, ds[c]), row) == Ok(S.HostCell(TextOf(shown[row])))
  {
    hide ShownColumns, ValueBytes, PresentTotal, Describes, WireOf, S.DisplayValid, S.DecodeCell, S.HostCell;
    PreviewsFit(columns, maxCell, remaining, PresentTotal(columns), usizeMax, c);
    var shown := ShownColumns(columns, maxCell, remaining, PresentTotal(columns), usizeMax)[c];
    PreviewIsValid(buffers, ds[c], shown);
    PreviewDecodes(buffers, ds[c], shown, row);
  }

  /** End to end: a text within an equal share of the bytes left for text is read whole on the host. */
  lemma EqualShareDecodes(buffers: seq<seq<byte>>, ds: seq<Descriptor>, columns: seq<Column>, maxCell: nat, remaining: nat, usizeMax: nat,
                          share: nat, c: nat, row: nat)
    requires remaining <= MAX_OFFSET && |ds| == |columns|
    requires AllDescribe(buffers, ds, ShownColumns(columns, maxCell, remaining, PresentTotal(columns), usizeMax))
    requires share * PresentTotal(columns) <= remaining && remaining * PresentTotal(columns) <= usizeMax
    requires c < |columns| && row < |columns[c].cells| && columns[c].cells[row].Some?
    requires Size(FullText(columns[c].nested, columns[c].cells[row].value)) <= Min(maxCell, share)
    ensures S.DecodeCell(WireOf(buffers, ds[c]), row)
         == Ok(S.HostCell(Some(Utf8(FullText(columns[c].nested, columns[c].cells[row].value)))))
  {
    hide ShownColumns, PresentTotal, AllDescribe, WireOf, S.DecodeCell, S.HostCell, FullText, Size, S.DisplayValid;
    AllPreviewsDecode(buffers, ds, columns, maxCell, remaining, usizeMax, c, row);
    EveryShareIsShown(columns, maxCell, remaining, PresentTotal(columns), usizeMax, share, c, row);
  }
}
