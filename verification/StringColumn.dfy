/**
 A column of optional texts: how `StringColumnBuilder` (`src/csv.rs`) encodes it, and how the
 host (`js/model.ts`) validates and decodes it.
 */
module StringColumn {
  import opened Common

  type Text = seq<byte>
  type Cell = Option<Text>

  // ---------------------------------------------------------------- validity bits

  /** `1 << k`. */
  function Mask(k: nat): bv8
    requires k < 8
  {
    match k
    case 0 => 1
    case 1 => 2
    case 2 => 4
    case 3 => 8
    case 4 => 16
    case 5 => 32
    case 6 => 64
    case _ => 128
  }

  /** Bit `k` of a bitmap byte, least significant first. */
  predicate Bit(b: bv8, k: nat)
    requires k < 8
  {
    b & Mask(k) != 0
  }

  lemma SetsOnlyThatBit(b: bv8, k: nat, j: nat)
    requires k < 8 && j < 8
    ensures Bit(b | Mask(k), j) <==> j == k || Bit(b, j)
  {
    Distributes(b, Mask(k), Mask(j));
    Disjoint(k, j);
    Absorbs(b & Mask(j), Mask(k) & Mask(j));
  }

  lemma Distributes(b: bv8, m: bv8, n: bv8)
    ensures (b | m) & n == (b & n) | (m & n)
  {
  }

  lemma Absorbs(x: bv8, y: bv8)
    ensures (x | y) != 0 <==> x != 0 || y != 0
  {
  }

  lemma Disjoint(k: nat, j: nat)
    requires k < 8 && j < 8
    ensures (Mask(k) & Mask(j)) != 0 <==> k == j
  {
  }

  // ---------------------------------------------------------------- the encoded column

  /** `values` counts the cells; the bitmap has one bit a cell, and offset `i + 1` ends cell `i`. */
  datatype Column = Column(data: seq<byte>, offsets: seq<nat>, validity: seq<bv8>, values: nat)

  const EMPTY_COLUMN := Column([], [0], [], 0)

  function CellBytes(cell: Cell): nat {
    if cell.Some? then |cell.value| else 0
  }

  /** The bytes one more cell costs: its text, an offset, and a bitmap byte for every eighth cell. */
  function PushBytes(values: nat, cell: Cell): nat {
    CellBytes(cell) + 4 + if values % 8 == 0 then 1 else 0
  }

  /** The bitmap with the bit of cell `values` appended. */
  function PushBit(validity: seq<bv8>, values: nat, valid: bool): seq<bv8>
    requires |validity| == (values + 7) / 8
  {
    var byte := values / 8;
    var grown := if |validity| <= byte then validity + [0] else validity;
    if valid then grown[byte := grown[byte] | Mask(values % 8)] else grown
  }

  /** The bitmap has a byte for every eight cells. */
  predicate ColumnOk(c: Column) {
    |c.validity| == (c.values + 7) / 8
  }

  function Pushed(c: Column, cell: Cell): Column
    requires ColumnOk(c)
  {
    var data := c.data + if cell.Some? then cell.value else [];
    Column(data, c.offsets + [|data|], PushBit(c.validity, c.values, cell.Some?), c.values + 1)
  }

  // ---------------------------------------------------------------- what a column holds

  predicate Spans(c: Column, i: nat) {
    i + 1 < |c.offsets| && c.offsets[i] <= c.offsets[i + 1] <= |c.data|
  }

  function Span(c: Column, i: nat): Text
    requires Spans(c, i)
  {
    c.data[c.offsets[i]..c.offsets[i + 1]]
  }

  predicate ValidBit(validity: seq<bv8>, i: nat)
    requires i < 8 * |validity|
  {
    Bit(validity[i / 8], i % 8)
  }

  function CellText(cell: Cell): Text {
    if cell.Some? then cell.value else []
  }

  predicate TextsAre(c: Column, cells: seq<Cell>) {
    && |c.offsets| == |cells| + 1 && c.offsets[0] == 0 && c.offsets[|cells|] == |c.data|
    && (forall i :: 0 <= i < |cells| ==> Spans(c, i) && Span(c, i) == CellText(cells[i]))
  }

  predicate BitsAre(validity: seq<bv8>, cells: seq<Cell>) {
    && |validity| == (|cells| + 7) / 8
    && (forall i :: 0 <= i < 8 * |validity| ==> (ValidBit(validity, i) <==> i < |cells| && cells[i].Some?))
  }

  /** The column holds exactly these cells. */
  predicate Holds(c: Column, cells: seq<Cell>) {
    c.values == |cells| && TextsAre(c, cells) && BitsAre(c.validity, cells)
  }

  lemma EmptyHolds()
    ensures Holds(EMPTY_COLUMN, [])
  {
  }

  lemma PushBitKeeps(validity: seq<bv8>, values: nat, valid: bool, i: nat)
    requires |validity| == (values + 7) / 8
    requires i < 8 * |PushBit(validity, values, valid)|
    requires forall j :: values <= j < 8 * |validity| ==> !ValidBit(validity, j)
    ensures ValidBit(PushBit(validity, values, valid), i)
            <==> if i == values then valid else i < 8 * |validity| && ValidBit(validity, i)
  {
    var byte := values / 8;
    var grown := if |validity| <= byte then validity + [0] else validity;
    assert i == 8 * (i / 8) + i % 8 && values == 8 * byte + values % 8;
    if i / 8 == byte {
      SetsOnlyThatBit(grown[byte], values % 8, i % 8);
      ZeroByte(i % 8);
      if i < 8 * |validity| && i == values {
        assert !ValidBit(validity, i);
      }
    }
  }

  lemma ZeroByte(k: nat)
    requires k < 8
    ensures !Bit(0, k)
  {
  }

  lemma PushTexts(c: Column, cells: seq<Cell>, cell: Cell)
    requires TextsAre(c, cells) && ColumnOk(c)
    ensures TextsAre(Pushed(c, cell), cells + [cell])
  {
    hide PushBit;
    var after, all := Pushed(c, cell), cells + [cell];
    assert after.data == c.data + CellText(cell);
    forall i: nat | i < |all| ensures Spans(after, i) && Span(after, i) == CellText(all[i]) {
      if i < |cells| {
        assert Spans(c, i) && Span(c, i) == CellText(cells[i]);
        assert after.data[c.offsets[i]..c.offsets[i + 1]] == c.data[c.offsets[i]..c.offsets[i + 1]];
      }
    }
  }

  lemma PushBits(validity: seq<bv8>, cells: seq<Cell>, cell: Cell)
    requires BitsAre(validity, cells)
    ensures BitsAre(PushBit(validity, |cells|, cell.Some?), cells + [cell])
  {
    var after, all := PushBit(validity, |cells|, cell.Some?), cells + [cell];
    assert |after| == (|all| + 7) / 8;
    forall i: nat | i < 8 * |after| ensures ValidBit(after, i) <==> i < |all| && all[i].Some? {
      PushBitKeeps(validity, |cells|, cell.Some?, i);
    }
  }

  lemma PushHolds(c: Column, cells: seq<Cell>, cell: Cell)
    requires Holds(c, cells)
    ensures Holds(Pushed(c, cell), cells + [cell])
  {
    PushTexts(c, cells, cell);
    PushBits(c.validity, cells, cell);
  }

  /** The exact encoded size: texts, one u32 a cell and one more, and the bitmap. */
  function EncodedBytes(cells: seq<Cell>): nat {
    TextBytes(cells) + 4 * (|cells| + 1) + (|cells| + 7) / 8
  }

  function TextBytes(cells: seq<Cell>): nat {
    if cells == [] then 0 else TextBytes(cells[..|cells| - 1]) + CellBytes(cells[|cells| - 1])
  }

  /** `batch_bytes` grows by what the encoding grows. */
  lemma PushBytesAreExact(cells: seq<Cell>, cell: Cell)
    ensures EncodedBytes(cells + [cell]) == EncodedBytes(cells) + PushBytes(|cells|, cell)
  {
    assert (cells + [cell])[..|cells|] == cells;
  }

  lemma {:induction false} HeldBytes(c: Column, cells: seq<Cell>)
    requires TextsAre(c, cells)
    ensures |c.data| == TextBytes(cells)
    decreases |cells|
  {
    if cells != [] {
      var last := |cells| - 1;
      assert Spans(c, last) && Span(c, last) == CellText(cells[last]);
      var front := c.(data := c.data[..c.offsets[last]], offsets := c.offsets[..|cells|]);
      forall i: nat | i < last ensures Spans(front, i) && Span(front, i) == CellText(cells[..last][i]) {
        assert Spans(c, i) && Span(c, i) == CellText(cells[i]);
        OffsetsGrow(c, cells, i + 1, last);
        assert front.data[c.offsets[i]..c.offsets[i + 1]] == c.data[c.offsets[i]..c.offsets[i + 1]];
      }
      HeldBytes(front, cells[..last]);
    }
  }

  /** What is charged is what the encoding takes: its text, four bytes an offset, and the bitmap. */
  lemma EncodedIsSize(c: Column, cells: seq<Cell>)
    requires Holds(c, cells)
    ensures EncodedBytes(cells) == |c.data| + 4 * |c.offsets| + |c.validity|
  {
    HeldBytes(c, cells);
  }

  lemma {:induction false} OffsetsGrow(c: Column, cells: seq<Cell>, i: nat, j: nat)
    requires TextsAre(c, cells) && i <= j <= |cells|
    ensures c.offsets[i] <= c.offsets[j] <= |c.data|
    decreases j - i
  {
    if i < j {
      assert Spans(c, i);
      OffsetsGrow(c, cells, i + 1, j);
    } else if j < |cells| {
      assert Spans(c, j);
    }
  }

  // ---------------------------------------------------------------- the builder object

  lemma HeldCount(c: Column, cells: seq<Cell>)
    requires Holds(c, cells)
    ensures c.values == |cells| && |c.validity| == (c.values + 7) / 8
  {
  }

  class StringColumnBuilder {
    var data: seq<byte>
    var offsets: seq<nat>
    var validity: seq<bv8>
    var values: nat
    ghost var cells: seq<Cell>

    function View(): Column
      reads this
    {
      Column(data, offsets, validity, values)
    }

    ghost predicate Valid()
      reads this
    {
      Holds(View(), cells)
    }

    constructor ()
      ensures Valid() && cells == [] && View() == EMPTY_COLUMN
    {
      data, offsets, validity, values := [], [0], [], 0;
      cells := [];
    }

    /** The bitmap grows by a byte for every eight cells; a present cell sets its bit. */
    static method AppendBit(bitmap: seq<bv8>, values: nat, valid: bool) returns (grown: seq<bv8>)
      requires |bitmap| == (values + 7) / 8
      ensures grown == PushBit(bitmap, values, valid)
    {
      grown := bitmap;
      var byte := values / 8;
      if |grown| <= byte {
        grown := grown + [0];
      }
      if valid {
        grown := grown[byte := grown[byte] | Mask(values % 8)];
      }
    }

    /**
     `push`: refused exactly when the batch limit or the u32 offsets would overflow.  In the second
     case the data and the bitmap have already grown, and the column is of no further use.
     */
    method Push(value: Cell, batchBytes: nat, maxBatchBytes: nat) returns (r: Result<nat>)
      requires Valid()
      modifies this
      ensures r.Ok? <==> batchBytes + PushBytes(old(values), value) <= maxBatchBytes
                         && |old(data)| + CellBytes(value) <= U32_MAX
      ensures r.Ok? ==> Valid() && cells == old(cells) + [value] && View() == Pushed(old(View()), value)
                        && r.value - batchBytes == EncodedBytes(cells) - EncodedBytes(old(cells))
      ensures r.Err? ==> r.error == ResourceLimit
    {
      ghost var before := View();
      HeldCount(before, cells);
      PushHolds(before, cells, value);
      PushBytesAreExact(cells, value);
      hide EncodedBytes, Holds, PushBit, PushBytes;
      var encodedBytes := PushBytes(values, value);
      if batchBytes + encodedBytes > maxBatchBytes {
        return Err(ResourceLimit);
      }
      data := data + if value.Some? then value.value else [];
      validity := AppendBit(validity, values, value.Some?);
      if |data| > U32_MAX {
        return Err(ResourceLimit);
      }
      offsets := offsets + [|data|];
      values := values + 1;
      cells := cells + [value];
      assert View() == Pushed(before, value);
      return Ok(batchBytes + encodedBytes);
    }
  }

  // ---------------------------------------------------------------- on the host

  function U32Bytes(n: nat): seq<byte>
    requires n <= U32_MAX
  {
    var n1, n2, n3 := n / 256, n / 256 / 256, n / 256 / 256 / 256;
    [n % 256, n1 % 256, n2 % 256, n3]
  }

  function OffsetBytes(offsets: seq<nat>): seq<byte>
    requires forall i :: 0 <= i < |offsets| ==> offsets[i] <= U32_MAX
  {
    if offsets == [] then [] else U32Bytes(offsets[0]) + OffsetBytes(offsets[1..])
  }

  /** A display column as it crosses to the host: its regions, where its rows and its validity bits begin. */
  datatype Wire = Wire(data: seq<byte>, offsets: seq<byte>, validity: Option<seq<bv8>>, bitOffset: int, offset: nat)

  function ToWire(c: Column): Wire
    requires forall i :: 0 <= i < |c.offsets| ==> c.offsets[i] <= U32_MAX
  {
    Wire(c.data, OffsetBytes(c.offsets), Some(c.validity), 0, 0)
  }

  /** `readUnsignedOffset` with width 4. */
  function ReadOffset(offsets: seq<byte>, index: nat): Option<nat> {
    if 4 * index + 4 > |offsets| then None else Some(LittleEndian(offsets[4 * index..4 * index + 4]))
  }

  lemma {:induction false} OffsetReadsBack(offsets: seq<nat>, index: nat)
    requires forall i :: 0 <= i < |offsets| ==> offsets[i] <= U32_MAX
    requires index < |offsets|
    ensures |OffsetBytes(offsets)| == 4 * |offsets|
    ensures ReadOffset(OffsetBytes(offsets), index) == Some(offsets[index])
    decreases |offsets|
  {
    var first, rest := U32Bytes(offsets[0]), OffsetBytes(offsets[1..]);
    if |offsets| == 1 {
      assert rest == [];
    } else {
      OffsetReadsBack(offsets[1..], if index == 0 then 0 else index - 1);
    }
    if index == 0 {
      assert (first + rest)[0..4] == first;
      WordReadsBack(offsets[0]);
    } else {
      assert (first + rest)[4 * index..4 * index + 4] == rest[4 * (index - 1)..4 * (index - 1) + 4];
    }
  }

  lemma WordReadsBack(n: nat)
    requires n <= U32_MAX
    ensures LittleEndian(U32Bytes(n)) == n
  {
    var b := U32Bytes(n);
    var b1 := b[1..];
    var b2 := b1[1..];
    var b3 := b2[1..];
    assert b3[1..] == [] && b1[0] == b[1] && b2[0] == b[2] && b3[0] == b[3];
    var q1: int, q2: int, q3: int := n / 256, n / 256 / 256, n / 256 / 256 / 256;
    assert LittleEndian(b3) == q3;
    assert LittleEndian(b2) == q2 % 256 + 256 * q3 == q2;
    assert LittleEndian(b1) == q1 % 256 + 256 * q2 == q1;
  }

  /** What `validateDisplay` asks of a column of so many rows. */
  predicate DisplayValid(w: Wire, rows: nat) {
    && |w.offsets| >= 4 * (w.offset + rows + 1)
    && (w.validity.Some? ==> |w.validity.value| >= (w.offset + rows + 7) / 8)
    && (forall i :: w.offset <= i <= w.offset + rows ==> ReadOffset(w.offsets, i).Some? && ReadOffset(w.offsets, i).value <= |w.data|)
    && (forall i :: w.offset <= i < w.offset + rows ==> ReadOffset(w.offsets, i).value <= ReadOffset(w.offsets, i + 1).value)
  }

  /** `validateDisplay`: one pass over the offsets. */
  method ValidateDisplay(w: Wire, rows: nat) returns (ok: bool)
    ensures ok <==> DisplayValid(w, rows)
  {
    if |w.offsets| < 4 * (w.offset + rows + 1) || (w.validity.Some? && |w.validity.value| < (w.offset + rows + 7) / 8) {
      return false;
    }
    var previous, index := 0, w.offset;
    while index <= w.offset + rows
      invariant w.offset <= index <= w.offset + rows + 1
      invariant forall i :: w.offset <= i < index ==> ReadOffset(w.offsets, i).Some? && ReadOffset(w.offsets, i).value <= |w.data|
      invariant forall i :: w.offset <= i < index - 1 ==> ReadOffset(w.offsets, i).value <= ReadOffset(w.offsets, i + 1).value
      invariant index == w.offset ==> previous == 0
      invariant index > w.offset ==> previous == ReadOffset(w.offsets, index - 1).value
    {
      var next := ReadOffset(w.offsets, index).value;
      if next < previous || next > |w.data| {
        return false;
      }
      previous, index := next, index + 1;
    }
    return true;
  }

  /** `validAt`. */
  function ValidAt(w: Wire, index: nat): Result<bool> {
    if w.validity.None? then Ok(true)
    else
      var bit := w.bitOffset + index;
      if bit < 0 || bit / 8 >= |w.validity.value| then Err(InvalidArgument) else Ok(Bit(w.validity.value[bit / 8], bit % 8))
  }

  /**
   `TextDecoder.decode` with default options: one leading byte order mark is dropped.  A host text is
   represented by its UTF-8 bytes.
   */
  function HostText(t: Text): Text {
    if BOM <= t then t[|BOM|..] else t
  }

  function HostCell(cell: Cell): Cell {
    if cell.Some? then Some(HostText(cell.value)) else None
  }

  predicate Marked(cell: Cell) {
    cell.Some? && BOM <= cell.value
  }

  /** The host sees another text exactly where a cell begins with the mark. */
  lemma LosesOnlyTheMark(cell: Cell)
    ensures HostCell(cell) == cell <==> !Marked(cell)
    ensures Marked(cell) ==> cell.value == BOM + HostCell(cell).value
  {
    if Marked(cell) {
      assert |HostCell(cell).value| < |cell.value|;
    }
  }

  /** `decodeDisplayValue`: absent when `validAt` says so. */
  function DecodeCell(w: Wire, row: nat): Result<Cell> {
    var index := w.offset + row;
    var valid :- ValidAt(w, index);
    if !valid then Ok(None)
    else
      var start, end := ReadOffset(w.offsets, index), ReadOffset(w.offsets, index + 1);
      if start.None? || end.None? || end.value < start.value || end.value > |w.data| then Err(InvalidArgument)
      else Ok(Some(HostText(w.data[start.value..end.value])))
  }

  /** The bitmap reaches as far as its bit offset moves the last row. */
  predicate BitmapReaches(w: Wire, rows: nat) {
    rows == 0 || w.validity.None? || 0 <= w.bitOffset + w.offset <= 8 * |w.validity.value| - rows
  }

  /**
   Validation does not look at the bit offset: a column that passes it decodes in every row if and
   only if the bitmap reaches far enough for it.
   */
  lemma ValidatedDecodes(w: Wire, rows: nat)
    requires DisplayValid(w, rows)
    ensures (forall row: nat :: row < rows ==> DecodeCell(w, row).Ok?) <==> BitmapReaches(w, rows)
  {
    forall row: nat | row < rows ensures DecodeCell(w, row).Ok? <==> ValidAt(w, w.offset + row).Ok? {
      var i := w.offset + row;
      assert ReadOffset(w.offsets, i).value <= ReadOffset(w.offsets, i + 1).value;
    }
    if rows > 0 && w.validity.Some? {
      assert DecodeCell(w, rows - 1).Ok? <==> 0 <= w.bitOffset + w.offset + rows - 1 < 8 * |w.validity.value|;
      assert DecodeCell(w, 0).Ok? <==> 0 <= w.bitOffset + w.offset < 8 * |w.validity.value|;
    }
  }

  /** The bitmap of one byte holds row 0, but the bit offset asks for bit 8. */
  lemma AValidatedColumnFails()
    ensures var w := Wire([], [0, 0, 0, 0, 0, 0, 0, 0], Some([1]), 8, 0);
            DisplayValid(w, 1) && DecodeCell(w, 0) == Err(InvalidArgument)
  {
    var w := Wire([], [0, 0, 0, 0, 0, 0, 0, 0], Some([1]), 8, 0);
    assert forall i :: 0 <= i <= 1 ==> ReadOffset(w.offsets, i) == Some(0) by {
      assert LittleEndian([0, 0, 0, 0]) == 0 by {
        WordReadsBack(0);
        assert U32Bytes(0) == [0, 0, 0, 0];
      }
      assert w.offsets[0..4] == [0, 0, 0, 0] && w.offsets[4..8] == [0, 0, 0, 0];
    }
  }

  /** What is pushed is what the host decodes, cell by cell, but for a leading byte order mark. */
  lemma HeldCellsDecode(c: Column, cells: seq<Cell>, row: nat)
    requires Holds(c, cells) && |c.data| <= U32_MAX && row < |cells|
    ensures forall i :: 0 <= i < |c.offsets| ==> c.offsets[i] <= U32_MAX
    ensures DecodeCell(ToWire(c), row) == Ok(HostCell(cells[row]))
    ensures DecodeCell(ToWire(c), row) == Ok(cells[row]) <==> !Marked(cells[row])
  {
    LosesOnlyTheMark(cells[row]);
    hide HostText, Marked;
    HeldOffsets(c, cells);
    HeldSpan(c, cells, row);
    HeldBit(c, cells, row);
    hide Holds, ReadOffset, OffsetBytes, Bit, ValidBit;
  }

  lemma HeldOffsets(c: Column, cells: seq<Cell>)
    requires Holds(c, cells) && |c.data| <= U32_MAX
    ensures forall i :: 0 <= i < |c.offsets| ==> c.offsets[i] <= U32_MAX
  {
    forall i | 0 <= i < |c.offsets| ensures c.offsets[i] <= U32_MAX {
      OffsetsGrow(c, cells, i, |cells|);
    }
  }

  /** The offsets of a cell, as they cross to the host, enclose its text. */
  lemma HeldSpan(c: Column, cells: seq<Cell>, row: nat)
    requires Holds(c, cells) && row < |cells| && forall i :: 0 <= i < |c.offsets| ==> c.offsets[i] <= U32_MAX
    ensures var start, end := ReadOffset(OffsetBytes(c.offsets), row), ReadOffset(OffsetBytes(c.offsets), row + 1);
            && start.Some? && end.Some? && start.value <= end.value <= |c.data|
            && c.data[start.value..end.value] == CellText(cells[row])
  {
    OffsetReadsBack(c.offsets, row);
    OffsetReadsBack(c.offsets, row + 1);
    assert Spans(c, row) && Span(c, row) == CellText(cells[row]);
    hide ReadOffset, OffsetBytes;
  }

  lemma HeldBit(c: Column, cells: seq<Cell>, row: nat)
    requires Holds(c, cells) && row < |cells| && forall i :: 0 <= i < |c.offsets| ==> c.offsets[i] <= U32_MAX
    ensures ValidAt(ToWire(c), row) == Ok(cells[row].Some?)
  {
    assert ValidBit(c.validity, row) <==> cells[row].Some?;
    hide OffsetBytes, Bit;
  }

  /** What is pushed passes the host's validation. */
  lemma HeldOffsetsAreOrdered(c: Column, cells: seq<Cell>)
    requires Holds(c, cells) && |c.data| <= U32_MAX
    ensures forall i :: 0 <= i < |c.offsets| ==> c.offsets[i] <= U32_MAX
    ensures DisplayValid(ToWire(c), |cells|)
  {
    forall i | 0 <= i < |c.offsets| ensures c.offsets[i] <= |c.data| {
      OffsetsGrow(c, cells, i, |cells|);
    }
    var w := ToWire(c);
    forall i: nat | i <= |cells| ensures ReadOffset(w.offsets, i) == Some(c.offsets[i]) && |w.offsets| == 4 * (|cells| + 1) {
      OffsetReadsBack(c.offsets, i);
    }
    assert ReadOffset(w.offsets, 0) == Some(c.offsets[0]);
    forall i: nat | i < |cells| ensures ReadOffset(w.offsets, i).value <= ReadOffset(w.offsets, i + 1).value {
      assert Spans(c, i);
    }
  }

  /** All cells pushed into one builder, as for one column of a batch. */
  method BuildColumn(input: seq<Cell>, maxBatchBytes: nat) returns (r: Result<Column>)
    ensures r.Ok? ==> Holds(r.value, input) && |r.value.data| <= U32_MAX && EncodedBytes(input) <= maxBatchBytes
    ensures r.Err? ==> EncodedBytes(input) > maxBatchBytes || TextBytes(input) > U32_MAX
  {
    SizeGrows(input, 0);
    if maxBatchBytes < 4 {
      return Err(ResourceLimit);
    }
    var builder := new StringColumnBuilder();
    var batchBytes, i := 4, 0;
    while i < |input|
      invariant 0 <= i <= |input| && builder.Valid() && fresh(builder) && builder.cells == input[..i]
      invariant batchBytes == EncodedBytes(input[..i]) <= maxBatchBytes && |builder.data| <= U32_MAX
    {
      SizeSteps(input, i);
      HeldBytes(builder.View(), input[..i]);
      hide Holds, EncodedBytes, TextBytes;
      var pushed := builder.Push(input[i], batchBytes, maxBatchBytes);
      if pushed.Err? {
        SizeGrows(input, i + 1);
        return Err(pushed.error);
      }
      batchBytes, i := pushed.value, i + 1;
    }
    assert input[..i] == input;
    return Ok(builder.View());
  }

  lemma SizeSteps(cells: seq<Cell>, i: nat)
    requires i < |cells|
    ensures cells[..i + 1] == cells[..i] + [cells[i]]
    ensures EncodedBytes(cells[..i + 1]) == EncodedBytes(cells[..i]) + PushBytes(i, cells[i])
    ensures TextBytes(cells[..i + 1]) == TextBytes(cells[..i]) + CellBytes(cells[i])
  {
    assert cells[..i + 1] == cells[..i] + [cells[i]];
    PushBytesAreExact(cells[..i], cells[i]);
    assert cells[..i + 1][..i] == cells[..i];
  }

  /** The host's side: every such column is valid and decodes to the cells that went in, but for leading marks. */
  method DecodeColumn(c: Column, ghost cells: seq<Cell>) returns (decoded: seq<Cell>)
    requires Holds(c, cells) && |c.data| <= U32_MAX
    ensures |decoded| == |cells| && forall i :: 0 <= i < |cells| ==> decoded[i] == HostCell(cells[i])
    ensures decoded == cells <==> forall i :: 0 <= i < |cells| ==> !Marked(cells[i])
  {
    hide Holds, DisplayValid, DecodeCell, ToWire, ReadOffset, OffsetBytes, HostCell, Marked;
    HeldOffsetsAreOrdered(c, cells);
    HeldCount(c, cells);
    var w := ToWire(c);
    var ok := ValidateDisplay(w, c.values);
    assert ok;
    decoded := [];
    var i := 0;
    while i < c.values
      invariant 0 <= i <= c.values && |decoded| == i
      invariant forall k :: 0 <= k < i ==> decoded[k] == HostCell(cells[k]) && (decoded[k] == cells[k] <==> !Marked(cells[k]))
    {
      HeldCellsDecode(c, cells, i);
      LosesOnlyTheMark(cells[i]);
      var cell := DecodeCell(w, i);
      assert cell == Ok(HostCell(cells[i]));
      decoded := decoded + [cell.value];
      i := i + 1;
    }
  }

  lemma {:induction false} SizeGrows(cells: seq<Cell>, i: nat)
    requires i <= |cells|
    ensures EncodedBytes(cells[..i]) <= EncodedBytes(cells) && TextBytes(cells[..i]) <= TextBytes(cells)
    ensures EncodedBytes(cells) >= 4
    decreases |cells| - i
  {
    if i == |cells| {
      assert cells[..i] == cells;
    } else {
      SizeGrows(cells, i + 1);
      SizeSteps(cells, i);
    }
  }
}
