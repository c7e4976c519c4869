/**
 The preview text of a typed batch: every cell gets a share of the bytes that the output limit
 leaves, and the shares never add up to more (`encode_batch` and `display_array_with_total_limit` in
 `src/arrow.rs`).
 */
module DisplayBudget {
  import opened Common
  import opened BufferPool
  import opened DisplayText

  type Cells = seq<Option<Text>>

  /** A column to preview: the texts of its cells, and whether they are those of nested values. */
  datatype Column = Column(nested: bool, cells: Cells)

  // ---------------------------------------------------------------- shares

  function DivCeil(a: nat, b: nat): nat
    requires b > 0
  {
    (a + b - 1) / b
  }

  /** A ceiling share of what remains never exceeds it, and leaves the others their floor share. */
  lemma ShareLeavesEnough(amount: nat, parts: nat)
    requires parts > 0
    ensures amount / parts <= DivCeil(amount, parts) <= amount
    ensures amount - DivCeil(amount, parts) >= amount / parts * (parts - 1)
  {
    hide DivCeil;
    var q, r := amount / parts, amount % parts;
    CeilingIs(amount, parts);
    assert amount == q * parts + r;
    assert q * (parts - 1) == q * parts - q;
    ScaledOrder(1, parts, q);
    assert 1 * q == q && parts * q == q * parts;
  }

  lemma CeilingIs(amount: nat, parts: nat)
    requires parts > 0
    ensures DivCeil(amount, parts) == amount / parts + if amount % parts == 0 then 0 else 1
  {
    var q, r := amount / parts, amount % parts;
    assert amount == q * parts + r;
    if r == 0 {
      DivideExactly(amount + parts - 1, parts, q, parts - 1);
    } else {
      assert (q + 1) * parts == q * parts + parts;
      DivideExactly(amount + parts - 1, parts, q + 1, r - 1);
    }
  }

  function Present(cells: Cells): nat {
    if cells == [] then 0 else (if cells[0].Some? then 1 else 0) + Present(cells[1..])
  }

  function ValueBytes(cells: Cells): nat {
    if cells == [] then 0 else (if cells[0].Some? then Size(cells[0].value) else 0) + ValueBytes(cells[1..])
  }

  /** The text of a cell without a limit: nested values are escaped. */
  function FullText(nested: bool, t: Text): Text {
    if nested then Escaped(t) else t
  }

  function CellText(nested: bool, t: Text, limit: nat): Text {
    if nested then Bounded(t, limit) else Truncated(t, limit)
  }

  /** Both ways of cutting fit the limit and leave a text that fits as it is. */
  lemma CellTextFits(nested: bool, t: Text, limit: nat)
    ensures Size(CellText(nested, t, limit)) <= limit
    ensures Size(FullText(nested, t)) <= limit ==> CellText(nested, t, limit) == FullText(nested, t)
    ensures Size(FullText(nested, t)) > limit ==>
              exists n: nat :: n < |FullText(nested, t)| && CellText(nested, t, limit) == FullText(nested, t)[..n] + SuffixFor(limit)
  {
    if nested {
      BoundedFits(t, limit);
    } else {
      TruncatedFits(t, limit);
      if Size(t) > limit {
        var n: nat :| CutAt(Truncated(t, limit), t, n, limit);
        assert n < |t| && Truncated(t, limit) == t[..n] + SuffixFor(limit);
      }
    }
  }

  /** What each cell shows, given the bytes that remain for it and the cells after it. */
  function Shown(nested: bool, cells: Cells, maxCell: nat, remaining: nat): (r: Cells)
    ensures |r| == |cells|
  {
    if cells == [] then []
    else if cells[0].None? then [None] + Shown(nested, cells[1..], maxCell, remaining)
    else
      var value := FirstShown(nested, cells, maxCell, remaining);
      [Some(value)] + Shown(nested, cells[1..], maxCell, Max(0, remaining - Size(value)))
  }

  function FirstShown(nested: bool, cells: Cells, maxCell: nat, remaining: nat): Text
    requires cells != [] && cells[0].Some?
  {
    CellText(nested, cells[0].value, Min(maxCell, DivCeil(remaining, Present(cells))))
  }

  lemma FirstFits(nested: bool, cells: Cells, maxCell: nat, remaining: nat)
    requires cells != [] && cells[0].Some?
    ensures var value := FirstShown(nested, cells, maxCell, remaining);
            && Size(value) <= Min(maxCell, remaining)
            && Shown(nested, cells, maxCell, remaining) == [Some(value)] + Shown(nested, cells[1..], maxCell, remaining - Size(value))
  {
    ShareLeavesEnough(remaining, Present(cells));
    CellTextFits(nested, cells[0].value, Min(maxCell, DivCeil(remaining, Present(cells))));
    hide CellText, DivCeil, Size, Present, FullText;
  }

  lemma NullShown(nested: bool, cells: Cells, maxCell: nat, remaining: nat)
    requires cells != [] && cells[0].None?
    ensures Shown(nested, cells, maxCell, remaining) == [None] + Shown(nested, cells[1..], maxCell, remaining)
    ensures Present(cells) == Present(cells[1..])
  {
  }

  lemma PresentFirst(cells: Cells)
    requires cells != [] && cells[0].Some?
    ensures Present(cells) == 1 + Present(cells[1..])
  {
  }

  /** The shares stay within what there is; nulls stay nulls. */
  lemma {:induction false} ShownFits(nested: bool, cells: Cells, maxCell: nat, remaining: nat)
    ensures var r := Shown(nested, cells, maxCell, remaining);
            && ValueBytes(r) <= remaining && Present(r) == Present(cells)
            && forall i :: 0 <= i < |cells| ==> (r[i].Some? <==> cells[i].Some?)
    decreases |cells|
  {
    if cells != [] {
      var rest, left := cells[1..], remaining;
      if cells[0].Some? {
        FirstFits(nested, cells, maxCell, remaining);
        left := remaining - Size(FirstShown(nested, cells, maxCell, remaining));
        hide FirstShown, Size;
      }
      ShownFits(nested, rest, maxCell, left);
      assert Shown(nested, cells, maxCell, remaining)[1..] == Shown(nested, rest, maxCell, left);
    }
  }

  /** No cell starves: a text within an equal share of the bytes is shown whole, whatever the others hold. */
  lemma {:induction false} EqualShareIsShown(nested: bool, cells: Cells, maxCell: nat, remaining: nat, share: nat, i: nat)
    requires i < |cells| && cells[i].Some? && Size(FullText(nested, cells[i].value)) <= Min(maxCell, share)
    requires share * Present(cells) <= remaining
    ensures Shown(nested, cells, maxCell, remaining)[i] == Some(FullText(nested, cells[i].value))
    decreases |cells|
  {
    hide FullText, CellText, Size;
    var rest := cells[1..];
    if cells[0].None? {
      EqualShareIsShown(nested, rest, maxCell, remaining, share, i - 1);
    } else {
      FirstFits(nested, cells, maxCell, remaining);
      FirstShare(nested, cells, maxCell, remaining, share);
      hide DivCeil, FirstShown, Present;
      if i > 0 {
        EqualShareIsShown(nested, rest, maxCell, remaining - Size(FirstShown(nested, cells, maxCell, remaining)), share, i - 1);
      }
    }
  }

  /** The first cell is shown whole within an equal share, and leaves an equal share to each of the others. */
  lemma FirstShare(nested: bool, cells: Cells, maxCell: nat, remaining: nat, share: nat)
    requires cells != [] && cells[0].Some? && share * Present(cells) <= remaining
    ensures Size(FullText(nested, cells[0].value)) <= Min(maxCell, share) ==>
              FirstShown(nested, cells, maxCell, remaining) == FullText(nested, cells[0].value)
    ensures share * Present(cells[1..]) <= remaining - Size(FirstShown(nested, cells, maxCell, remaining))
  {
    var parts := Present(cells);
    PresentFirst(cells);
    ShareAtLeast(remaining, parts, share);
    ShareLeavesEnough(remaining, parts);
    CellTextFits(nested, cells[0].value, Min(maxCell, DivCeil(remaining, parts)));
    ScaledOrder(share, remaining / parts, parts - 1);
    hide FullText, CellText, Size, DivCeil, Present;
  }

  lemma ShareAtLeast(amount: nat, parts: nat, share: nat)
    requires parts > 0 && share * parts <= amount
    ensures share <= amount / parts
  {
    var q := amount / parts;
    assert amount < q * parts + parts == (q + 1) * parts;
    if share > q {
      ScaledOrder(q + 1, share, parts);
    }
  }

  // ---------------------------------------------------------------- columns

  /** `display_structural_bytes`: the offsets and the validity bits of a preview column. */
  function Structural(rows: nat): nat {
    4 * (rows + 1) + (rows + 7) / 8
  }

  /** Byte `i` of the offsets, little-endian, in words of four bytes; `DisplayDecode` says when they are exact. */
  function OffsetByte(shown: Cells, i: nat): byte
    requires i < 4 * (|shown| + 1)
  {
    var end := ValueBytes(shown[..i / 4]);
    (if i % 4 == 0 then end else if i % 4 == 1 then end / 0x100 else if i % 4 == 2 then end / 0x1_0000 else end / 0x100_0000) % 0x100
  }

  function OffsetBytes(shown: Cells): (r: seq<byte>)
    ensures |r| == 4 * (|shown| + 1)
  {
    seq(4 * (|shown| + 1), i requires 0 <= i < 4 * (|shown| + 1) => OffsetByte(shown, i))
  }

  /** The validity bits of the eight cells from `first` on. */
  function ValidBits(shown: Cells, first: nat, bit: nat): (r: nat)
    requires bit <= 8
    ensures r < Power(bit)
  {
    if bit == 0 then 0
    else ValidBits(shown, first, bit - 1) + if first + bit - 1 < |shown| && shown[first + bit - 1].Some? then Power(bit - 1) else 0
  }

  function Power(n: nat): nat {
    if n == 0 then 1 else 2 * Power(n - 1)
  }

  function ValidityBytes(shown: Cells): (r: seq<byte>)
    ensures |r| == (|shown| + 7) / 8
  {
    assert Power(8) == 256;
    seq((|shown| + 7) / 8, i requires 0 <= i < (|shown| + 7) / 8 => ValidBits(shown, 8 * i, 8))
  }

  function DataBytes(shown: Cells): (r: seq<byte>)
    ensures |r| == ValueBytes(shown)
  {
    if shown == [] then [] else (if shown[0].Some? then Utf8(shown[0].value) else []) + DataBytes(shown[1..])
  }

  /** The structural bytes are exactly what a shown column takes besides its text. */
  lemma StructuralIsSize(shown: Cells)
    ensures Structural(|shown|) == |OffsetBytes(shown)| + |ValidityBytes(shown)|
    ensures Structural(|shown|) + ValueBytes(shown) == |OffsetBytes(shown)| + |ValidityBytes(shown)| + |DataBytes(shown)|
  {
  }

  /** The text of one cell: nested values are written with a bounded writer, others formatted and cut. */
  method FormatCell(nested: bool, t: Text, limit: nat) returns (r: Text)
    ensures r == CellText(nested, t, limit)
  {
    if nested {
      r := FormatBoundedNested([t], limit);
      assert Joined([t]) == t by {
        assert [t][1..] == [] && t + [] == t;
      }
    } else {
      return Truncated(t, limit);
    }
  }

  lemma Regroup(a: Cells, x: Option<Text>, b: Cells)
    ensures a + ([x] + b) == a + [x] + b
  {
  }

  lemma FirstIs(nested: bool, cells: Cells, maxCell: nat, remaining: nat)
    requires cells != [] && cells[0].Some?
    ensures Present(cells) > 0
    ensures FirstShown(nested, cells, maxCell, remaining)
         == CellText(nested, cells[0].value, Min(maxCell, DivCeil(remaining, Present(cells))))
  {
  }

  /** `display_array_with_total_limit`: the second limit error of the loop cannot be reached. */
  method DisplayArray(nested: bool, cells: Cells, maxCell: nat, maxTotal: nat) returns (r: Result<Cells>)
    ensures r == if Structural(|cells|) > maxTotal then Err(ResourceLimit) else Ok(Shown(nested, cells, maxCell, maxTotal - Structural(|cells|)))
  {
    hide Shown, Present, CellText, DivCeil, Size, FirstShown;
    var structural := Structural(|cells|);
    if structural > maxTotal {
      return Err(ResourceLimit);
    }
    var total := structural;
    var remaining: nat := Present(cells);
    var values: Cells := [];
    var i := 0;
    assert cells[0..] == cells;
    assert [] + Shown(nested, cells, maxCell, maxTotal - structural) == Shown(nested, cells, maxCell, maxTotal - structural);
    while i < |cells|
      invariant 0 <= i <= |cells| && total <= maxTotal && remaining == Present(cells[i..])
      invariant Shown(nested, cells, maxCell, maxTotal - structural) == values + Shown(nested, cells[i..], maxCell, maxTotal - total)
    {
      assert cells[i..][1..] == cells[i + 1..] && cells[i..][0] == cells[i];
      if cells[i].None? {
        NullShown(nested, cells[i..], maxCell, maxTotal - total);
        Regroup(values, None, Shown(nested, cells[i + 1..], maxCell, maxTotal - total));
        values := values + [None];
      } else {
        PresentFirst(cells[i..]);
        FirstFits(nested, cells[i..], maxCell, maxTotal - total);
        FirstIs(nested, cells[i..], maxCell, maxTotal - total);
        var limit := if remaining == 0 then 0 else Min(maxCell, DivCeil(maxTotal - total, remaining));
        var value := FormatCell(nested, cells[i].value, limit);
        total := total + Size(value);
        if total > maxTotal {
          return Err(ResourceLimit);
        }
        Regroup(values, Some(value), Shown(nested, cells[i + 1..], maxCell, maxTotal - total));
        values := values + [Some(value)];
        remaining := Max(0, remaining - 1);
      }
      i := i + 1;
    }
    assert values + [] == values;
    return Ok(values);
  }

  datatype Descriptor = Descriptor(validity: Option<Slice>, offsets: Slice, data: Slice)

  function HasNulls(cells: Cells): bool {
    Present(cells) < |cells|
  }

  /** The descriptor reads back the column from the pool. */
  predicate Describes(buffers: seq<seq<byte>>, d: Descriptor, shown: Cells) {
    && Reads(buffers, d.offsets, OffsetBytes(shown)) && Reads(buffers, d.data, DataBytes(shown))
    && (d.validity.Some? <==> HasNulls(shown)) && (d.validity.Some? ==> Reads(buffers, d.validity.value, ValidityBytes(shown)))
  }

  function StructuralTotal(columns: seq<Column>): nat {
    if columns == [] then 0 else Structural(|columns[0].cells|) + StructuralTotal(columns[1..])
  }

  function PresentTotal(columns: seq<Column>): nat {
    if columns == [] then 0 else Present(columns[0].cells) + PresentTotal(columns[1..])
  }

  /** What a column may spend on text: its share of the bytes that remain, by its number of values. */
  function ColumnBudget(remaining: nat, present: nat, remainingCells: nat, usizeMax: nat): nat {
    if remainingCells == 0 then 0 else DivCeil(Min(remaining * present, usizeMax), remainingCells)
  }

  /** All columns' previews. */
  function ShownColumns(columns: seq<Column>, maxCell: nat, remaining: nat, remainingCells: nat, usizeMax: nat): (r: seq<Cells>)
    ensures |r| == |columns|
  {
    if columns == [] then []
    else
      var shown := Shown(columns[0].nested, columns[0].cells, maxCell, ColumnBudget(remaining, Present(columns[0].cells), remainingCells, usizeMax));
      [shown] + ShownColumns(columns[1..], maxCell, Max(0, remaining - ValueBytes(shown)), Max(0, remainingCells - Present(columns[0].cells)), usizeMax)
  }

  /** A column's budget never exceeds what remains. */
  lemma BudgetWithinRemaining(remaining: nat, present: nat, remainingCells: nat, usizeMax: nat)
    requires present <= remainingCells
    ensures ColumnBudget(remaining, present, remainingCells, usizeMax) <= remaining
  {
    if remainingCells > 0 {
      var a := Min(remaining * present, usizeMax);
      ScaledOrder(present, remainingCells, remaining);
      assert present * remaining == remaining * present && remainingCells * remaining == remaining * remainingCells;
      CeilingAtMost(a, remainingCells, remaining);
    }
  }

  lemma CeilingAtMost(a: nat, parts: nat, bound: nat)
    requires parts > 0 && a <= bound * parts
    ensures DivCeil(a, parts) <= bound
  {
    CeilingIs(a, parts);
    var q, r := a / parts, a % parts;
    assert a == q * parts + r;
    assert (bound + 1) * parts == bound * parts + parts;
    if q > bound {
      ScaledOrder(bound + 1, q, parts);
    }
  }

  /** With its budget a column has an equal share for each of its values, and leaves one to every value of the other columns. */
  lemma BudgetIsFair(remaining: nat, present: nat, remainingCells: nat, usizeMax: nat, share: nat)
    requires present <= remainingCells && share * remainingCells <= remaining && remaining * present <= usizeMax
    ensures var budget := ColumnBudget(remaining, present, remainingCells, usizeMax);
            budget <= remaining && share * present <= budget && share * (remainingCells - present) <= remaining - budget
  {
    BudgetWithinRemaining(remaining, present, remainingCells, usizeMax);
    if remainingCells > 0 {
      UnsaturatedBudget(remaining, present, remainingCells, usizeMax);
      hide ColumnBudget, DivCeil;
      CeilingPart(remaining, remainingCells, present, share);
      CeilingLeaves(remaining, remainingCells, present, share);
    }
  }

  lemma UnsaturatedBudget(remaining: nat, present: nat, remainingCells: nat, usizeMax: nat)
    requires remainingCells > 0 && remaining * present <= usizeMax
    ensures ColumnBudget(remaining, present, remainingCells, usizeMax) == DivCeil(remaining * present, remainingCells)
  {
    hide DivCeil;
  }

  lemma CeilingPart(remaining: nat, cells: nat, part: nat, share: nat)
    requires cells > 0 && share * cells <= remaining
    ensures share * part <= DivCeil(remaining * part, cells)
  {
    PartIsFair(remaining, cells, part, share);
    CeilingIs(remaining * part, cells);
    hide DivCeil;
  }

  lemma CeilingLeaves(remaining: nat, cells: nat, part: nat, share: nat)
    requires part <= cells && cells > 0 && share * cells <= remaining
    ensures share * (cells - part) <= remaining - DivCeil(remaining * part, cells)
  {
    PartIsFair(remaining, cells, cells - part, share);
    PartsMakeTheWhole(remaining, part, cells - part);
    CeilingSplits(remaining * part, remaining * (cells - part), cells, remaining);
    hide DivCeil;
  }

  /** A floor share of some of the cells has an equal share for each of them. */
  lemma PartIsFair(remaining: nat, cells: nat, part: nat, share: nat)
    requires cells > 0 && share * cells <= remaining
    ensures share * part <= remaining * part / cells
  {
    ScaledOrder(share * cells, remaining, part);
    Shuffle(share, cells, part);
    ShareAtLeast(remaining * part, cells, share * part);
  }

  lemma PartsMakeTheWhole(remaining: nat, a: nat, b: nat)
    ensures remaining * a + remaining * b == remaining * (a + b)
  {
  }

  lemma Shuffle(x: nat, y: nat, z: nat)
    ensures x * y * z == x * z * y
  {
  }

  /** A ceiling and a floor share of the two parts of a multiple make up the whole. */
  lemma CeilingSplits(a: nat, b: nat, parts: nat, whole: nat)
    requires parts > 0 && a + b == whole * parts
    ensures DivCeil(a, parts) + b / parts == whole && DivCeil(a, parts) >= a / parts
  {
    CeilingIs(a, parts);
    var q, r, p, s := a / parts, a % parts, b / parts, b % parts;
    assert a == q * parts + r && b == p * parts + s;
    assert (whole - q - p) * parts == r + s by {
      assert (whole - q - p) * parts == whole * parts - q * parts - p * parts;
    }
    if r + s == 0 {
      NoneLeft(whole - q - p, parts);
    } else {
      OneLeft(whole - q - p, parts, r + s);
    }
  }

  lemma NoneLeft(k: int, parts: nat)
    requires parts > 0 && k * parts == 0
    ensures k == 0
  {
    if k > 0 {
      ScaledOrder(1, k, parts);
    }
  }

  lemma OneLeft(k: int, parts: nat, left: nat)
    requires 0 < left < 2 * parts && k * parts == left
    ensures k == 1
  {
    if k > 1 {
      ScaledOrder(2, k, parts);
    }
  }

  /**
   No cell of any column starves: a text within an equal share of all bytes that are left for text is
   shown whole, whatever the other cells and columns hold.
   */
  lemma {:induction false} EveryShareIsShown(columns: seq<Column>, maxCell: nat, remaining: nat, remainingCells: nat, usizeMax: nat, share: nat, c: nat, i: nat)
    requires PresentTotal(columns) == remainingCells && share * remainingCells <= remaining && remaining * remainingCells <= usizeMax
    requires c < |columns| && i < |columns[c].cells| && columns[c].cells[i].Some?
    requires Size(FullText(columns[c].nested, columns[c].cells[i].value)) <= Min(maxCell, share)
    ensures var shown := ShownColumns(columns, maxCell, remaining, remainingCells, usizeMax)[c];
            i < |shown| && shown[i] == Some(FullText(columns[c].nested, columns[c].cells[i].value))
    decreases |columns|
  {
    hide Shown, ValueBytes, Present, ColumnBudget, FullText, Size;
    var first, present := columns[0], Present(columns[0].cells);
    assert present <= remainingCells;
    ScaledOrder(present, remainingCells, remaining);
    assert remaining * present == present * remaining && remaining * remainingCells == remainingCells * remaining;
    var budget := ColumnBudget(remaining, present, remainingCells, usizeMax);
    BudgetIsFair(remaining, present, remainingCells, usizeMax, share);
    var shown := Shown(first.nested, first.cells, maxCell, budget);
    ShownFits(first.nested, first.cells, maxCell, budget);
    if c == 0 {
      EqualShareIsShown(first.nested, first.cells, maxCell, budget, share, i);
    } else {
      var left, cells := remaining - ValueBytes(shown), remainingCells - present;
      ScaledOrder(left, remaining, cells);
      ScaledOrder(cells, remainingCells, remaining);
      assert remaining * cells == cells * remaining;
      EveryShareIsShown(columns[1..], maxCell, left, cells, usizeMax, share, c - 1, i);
    }
  }

  predicate AllDescribe(buffers: seq<seq<byte>>, descriptors: seq<Descriptor>, shown: seq<Cells>) {
    |descriptors| <= |shown| && forall c :: 0 <= c < |descriptors| ==> Describes(buffers, descriptors[c], shown[c])
  }

  /**
   The previews of all columns, stored in the pool.  Once the structural bytes fit, nothing can fail
   any more but the number of buffers, and the pool stays within its limit.
   */
  method EncodeDisplays(columns: seq<Column>, maxCell: nat, usizeMax: nat, pool: BufferPoolBuilder) returns (r: Result<seq<Descriptor>>)
    requires pool.Valid()
    modifies pool`buffers, pool`bytes, pool`bufferIndex
    ensures pool.Valid() && Extends(old(pool.buffers), pool.buffers, 3 * |columns|)
    ensures StructuralTotal(columns) > old(pool.RemainingBytes()) ==> r == Err(ResourceLimit) && pool.buffers == old(pool.buffers)
    ensures StructuralTotal(columns) <= old(pool.RemainingBytes()) && |old(pool.buffers)| + 3 * |columns| <= U32_MAX ==> r.Ok?
    ensures r.Ok? ==>
              var shown := ShownColumns(columns, maxCell, old(pool.RemainingBytes()) - StructuralTotal(columns), PresentTotal(columns), usizeMax);
              |r.value| == |columns| && AllDescribe(pool.buffers, r.value, shown)
  {
    hide ShownColumns, Shown, ColumnBudget, Present, PresentTotal, Describes, AllDescribe, Extends, BufferPoolBuilder.Valid, Structural, ValueBytes;
    var structural := TotalStructural(columns);
    ExtendsItself(pool.buffers);
    if structural > pool.RemainingBytes() {
      ExtendsMore(pool.buffers, pool.buffers, 0, 3 * |columns|);
      return Err(ResourceLimit);
    }
    var remaining: nat := pool.RemainingBytes() - structural;
    var remainingCells := TotalPresent(columns);
    ghost var all := ShownColumns(columns, maxCell, remaining, remainingCells, usizeMax);
    ghost var before := pool.buffers;
    var descriptors: seq<Descriptor> := [];
    var i := 0;
    assert columns[0..] == columns && all[0..] == all;
    NoneDescribe(pool.buffers, all);
    while i < |columns|
      invariant 0 <= i <= |columns| == |all| && |descriptors| == i
      invariant pool.Valid() && Extends(before, pool.buffers, 3 * i) && |pool.buffers| <= |before| + 3 * i
      invariant remainingCells == PresentTotal(columns[i..])
      invariant remaining + StructuralTotal(columns[i..]) <= pool.RemainingBytes()
      invariant all[i..] == ShownColumns(columns[i..], maxCell, remaining, remainingCells, usizeMax)
      invariant AllDescribe(pool.buffers, descriptors, all)
    {
      var present := Present(columns[i].cells);
      assert columns[i..][1..] == columns[i + 1..] && all[i..][0] == all[i] && all[i..][1..] == all[i + 1..];
      var budget := ColumnBudget(remaining, present, remainingCells, usizeMax);
      ColumnsStep(columns[i..], maxCell, remaining, remainingCells, usizeMax);
      BudgetWithinRemaining(remaining, present, remainingCells, usizeMax);
      ghost var buffers := pool.buffers;
      var stored := EncodeColumn(columns[i], maxCell, budget, pool);
      ExtendsOn(before, buffers, pool.buffers, 3 * i, 3);
      if stored.Err? {
        ExtendsMore(before, pool.buffers, 3 * i + 3, 3 * |columns|);
        return Err(stored.error);
      }
      OneMoreDescribed(buffers, pool.buffers, descriptors, stored.value.0, all);
      ExtendsSize(before, pool.buffers, 3 * i + 3);
      descriptors := descriptors + [stored.value.0];
      remaining := Max(0, remaining - stored.value.1);
      remainingCells := Max(0, remainingCells - present);
      i := i + 1;
    }
    return Ok(descriptors);
  }

  /** One turn of the loop: the preview of a column, stored, and the bytes of text it used. */
  method EncodeColumn(column: Column, maxCell: nat, budget: nat, pool: BufferPoolBuilder) returns (r: Result<(Descriptor, nat)>)
    requires pool.Valid() && Structural(|column.cells|) + budget <= pool.RemainingBytes()
    modifies pool`buffers, pool`bytes, pool`bufferIndex
    ensures pool.Valid() && Extends(old(pool.buffers), pool.buffers, 3)
    ensures |old(pool.buffers)| + 3 <= U32_MAX ==> r.Ok?
    ensures r.Ok? ==>
              var shown := Shown(column.nested, column.cells, maxCell, budget);
              && Describes(pool.buffers, r.value.0, shown) && r.value.1 == ValueBytes(shown) <= budget
              && pool.RemainingBytes() >= old(pool.RemainingBytes()) - Structural(|column.cells|) - r.value.1
  {
    hide Shown, Describes, Extends, BufferPoolBuilder.Valid, ValueBytes;
    ShownFits(column.nested, column.cells, maxCell, budget);
    var displayed := DisplayArray(column.nested, column.cells, maxCell, Structural(|column.cells|) + budget);
    var shown := displayed.Extract();
    var stored := StoreColumn(shown, pool);
    return if stored.Err? then Err(stored.error) else Ok((stored.value, ValueBytes(shown)));
  }

  lemma ExtendsMore(a: seq<seq<byte>>, b: seq<seq<byte>>, m: nat, n: nat)
    requires Extends(a, b, m) && m <= n
    ensures Extends(a, b, n)
  {
  }

  lemma ExtendsSize(a: seq<seq<byte>>, b: seq<seq<byte>>, m: nat)
    requires Extends(a, b, m)
    ensures |b| <= |a| + m
  {
  }

  lemma NoneDescribe(buffers: seq<seq<byte>>, shown: seq<Cells>)
    ensures AllDescribe(buffers, [], shown)
  {
  }

  lemma OneMoreDescribed(buffers: seq<seq<byte>>, grown: seq<seq<byte>>, descriptors: seq<Descriptor>, d: Descriptor, shown: seq<Cells>)
    requires Extends(buffers, grown, 3) && AllDescribe(buffers, descriptors, shown)
    requires |descriptors| < |shown| && Describes(grown, d, shown[|descriptors|])
    ensures AllDescribe(grown, descriptors + [d], shown)
  {
    forall c | 0 <= c < |descriptors| ensures Describes(grown, descriptors[c], shown[c]) {
      DescriptorStays(buffers, grown, descriptors[c], shown[c]);
    }
  }

  lemma DescriptorStays(buffers: seq<seq<byte>>, grown: seq<seq<byte>>, d: Descriptor, shown: Cells)
    requires Extends(buffers, grown, 3) && Describes(buffers, d, shown)
    ensures Describes(grown, d, shown)
  {
    hide Extends, Reads, OffsetBytes, DataBytes, ValidityBytes;
    ReadsLater(buffers, grown, 3, d.offsets, OffsetBytes(shown));
    ReadsLater(buffers, grown, 3, d.data, DataBytes(shown));
    if d.validity.Some? {
      ReadsLater(buffers, grown, 3, d.validity.value, ValidityBytes(shown));
    }
  }

  lemma ColumnsStep(columns: seq<Column>, maxCell: nat, remaining: nat, remainingCells: nat, usizeMax: nat)
    requires columns != []
    ensures var shown := Shown(columns[0].nested, columns[0].cells, maxCell, ColumnBudget(remaining, Present(columns[0].cells), remainingCells, usizeMax));
            ShownColumns(columns, maxCell, remaining, remainingCells, usizeMax)
            == [shown] + ShownColumns(columns[1..], maxCell, Max(0, remaining - ValueBytes(shown)), Max(0, remainingCells - Present(columns[0].cells)), usizeMax)
    ensures PresentTotal(columns) == Present(columns[0].cells) + PresentTotal(columns[1..])
    ensures StructuralTotal(columns) == Structural(|columns[0].cells|) + StructuralTotal(columns[1..])
  {
  }

  method TotalStructural(columns: seq<Column>) returns (total: nat)
    ensures total == StructuralTotal(columns)
  {
    total := 0;
    var i := |columns|;
    while i > 0
      invariant 0 <= i <= |columns| && total == StructuralTotal(columns[i..])
    {
      i := i - 1;
      assert columns[i..][1..] == columns[i + 1..];
      total := Structural(|columns[i].cells|) + total;
    }
    assert columns[0..] == columns;
  }

  method TotalPresent(columns: seq<Column>) returns (total: nat)
    ensures total == PresentTotal(columns)
  {
    total := 0;
    var i := |columns|;
    while i > 0
      invariant 0 <= i <= |columns| && total == PresentTotal(columns[i..])
    {
      i := i - 1;
      assert columns[i..][1..] == columns[i + 1..];
      total := Present(columns[i].cells) + total;
    }
    assert columns[0..] == columns;
  }

  /** `descriptor_from_array` of a preview column: its bytes cost no more than its structure and its text. */
  method StoreColumn(shown: Cells, pool: BufferPoolBuilder) returns (r: Result<Descriptor>)
    requires pool.Valid()
    modifies pool`buffers, pool`bytes, pool`bufferIndex
    ensures pool.Valid() && Extends(old(pool.buffers), pool.buffers, 3)
    ensures Structural(|shown|) + ValueBytes(shown) <= old(pool.RemainingBytes()) && |old(pool.buffers)| + 3 <= U32_MAX ==> r.Ok?
    ensures r.Ok? ==> Describes(pool.buffers, r.value, shown)
                      && pool.RemainingBytes() >= old(pool.RemainingBytes()) - Structural(|shown|) - ValueBytes(shown)
  {
    hide OffsetBytes, DataBytes, ValidityBytes, ValueBytes, HasNulls, Extends, Reads, BufferPoolBuilder.Valid;
    ghost var b0 := pool.buffers;
    var validity: Option<Slice> := None;
    ExtendsItself(b0);
    if HasNulls(shown) {
      var bitmap := pool.Put(ValidityBytes(shown));
      if bitmap.Err? {
        ExtendsMore(b0, pool.buffers, 1, 3);
        return Err(bitmap.error);
      }
      validity := Some(bitmap.value);
    }
    ghost var b1 := pool.buffers;
    ExtendsSize(b0, b1, 1);
    var offsets := pool.Put(OffsetBytes(shown));
    ghost var b2 := pool.buffers;
    ExtendsOn(b0, b1, b2, 1, 1);
    ExtendsSize(b0, b2, 2);
    if offsets.Err? {
      ExtendsMore(b0, b2, 2, 3);
      return Err(offsets.error);
    }
    var data := pool.Put(DataBytes(shown));
    ghost var b3 := pool.buffers;
    ExtendsOn(b0, b2, b3, 2, 1);
    if data.Err? {
      return Err(data.error);
    }
    ReadsLater(b2, b3, 1, offsets.value, OffsetBytes(shown));
    if validity.Some? {
      ReadsLater(b1, b2, 1, validity.value, ValidityBytes(shown));
      ReadsLater(b2, b3, 1, validity.value, ValidityBytes(shown));
    }
    return Ok(Descriptor(validity, offsets.value, data.value));
  }
}
