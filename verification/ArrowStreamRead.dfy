/** `ArrowIpcSource` as the object that deltas grow and range reads slice (`src/arrow.rs`). */
module ArrowStreamRead {
  import opened Common
  import opened RangeRequests
  import opened ArrowRange
  import opened ArrowSource

  lemma OffsetStep(batches: seq<Batch>, i: nat)
    requires i < |batches|
    ensures Offsets(batches)[i + 1] == Offsets(batches)[i] + batches[i].rows
    ensures Offsets(batches)[..i + 2] == Offsets(batches)[..i + 1] + [Offsets(batches)[i + 1]]
  {
  }

  /** The loop of `from_batches_with_extent`: row offsets and bytes, as long as they fit. */
  lemma OffsetsAt(batches: seq<Batch>, i: nat)
    requires i < |batches|
    ensures |Offsets(batches)| == |batches| + 1 && Offsets(batches)[i] == RowsBefore(batches, i)
    ensures Offsets(batches)[i + 1] == RowsBefore(batches, i + 1) == RowsBefore(batches, i) + batches[i].rows
  {
  }

  /** The slice that a batch gives, if it meets the rows. */
  lemma OverlapIs(batches: seq<Batch>, i: nat, c: nat, schema: nat, width: nat, from: nat, to: nat)
    requires BatchesOk(batches, schema, width) && i < |batches| && c < width
    ensures c < |batches[i].columns|
    ensures var lo := RowsBefore(batches, i);
            var start, end := Max(from, lo), Min(to, RowsBefore(batches, i + 1));
            if start < end
            then end - lo <= |batches[i].columns[c]| && Overlap(batches, i, c, from, to) == batches[i].columns[c][start - lo..end - lo] != []
            else Overlap(batches, i, c, from, to) == []
  {
  }

  /** One turn of the projection loop. */
  lemma SliceStep(batches: seq<Batch>, i: nat, c: nat, schema: nat, width: nat, from: nat, to: nat)
    requires BatchesOk(batches, schema, width) && i < |batches| && c < width && from <= to
    ensures |Offsets(batches)| == |batches| + 1 && c < |batches[i].columns|
    ensures var lo, hi := Offsets(batches)[i], Offsets(batches)[i + 1];
            var full, start, end := Column(batches, |batches|, c), Max(from, lo), Min(to, hi);
            && lo <= hi <= |full| && (start < end ==> lo <= start && end - lo <= |batches[i].columns[c]|)
            && Upto(full, from, to, hi)
               == Upto(full, from, to, lo) + if start < end then batches[i].columns[c][start - lo..end - lo] else []
  {
    hide Column, Overlap, Upto, BatchesOk;
    OffsetsAt(batches, i);
    OneBatchMore(batches, i, c, schema, width, from, to);
    OverlapIs(batches, i, c, schema, width, from, to);
  }

  lemma SourceFacts(s: Source, c: nat)
    requires SourceOk(s) && c < s.schema.width
    ensures BatchesOk(s.batches, s.schema.id, s.schema.width) && s.rowOffsets == Offsets(s.batches)
    ensures |s.rowOffsets| == |s.batches| + 1 && s.rowOffsets[0] == 0
    ensures s.rowOffsets[|s.batches|] == Rows(s.batches) == |Column(s.batches, |s.batches|, c)|
  {
    ColumnLength(s.batches, |s.batches|, c, s.schema.id, s.schema.width);
  }

  lemma NothingUpTo(full: Array, from: nat, to: nat)
    requires from <= to
    ensures Upto(full, from, to, 0) == []
  {
  }

  lemma AllUpTo(full: Array, from: nat, to: nat)
    requires from < to <= |full|
    ensures Upto(full, from, to, |full|) == full[from..to] != []
  {
  }

  lemma OffsetsEnd(batches: seq<Batch>)
    ensures |Offsets(batches)| == |batches| + 1 && Offsets(batches)[0] == 0 && Offsets(batches)[|batches|] == RowsBefore(batches, |batches|)
  {
  }

  lemma NothingTallied(batches: seq<Batch>, schema: nat, rows: nat, memory: nat, usizeMax: nat)
    ensures Tally(batches, 0, schema, rows, memory, usizeMax, None) == Ok((rows, memory))
  {
  }

  lemma NoRowsBefore(batches: seq<Batch>)
    ensures RowsBefore(batches, 0) == 0
  {
  }

  /** What appending comes to once all batches are counted. */
  lemma AppendedIs(s: Source, d: Delta, rows: nat, bytes: nat)
    requires s.stream && d.batchStart == |s.batches| && d.schema == s.schema && d.limits == s.limits
    requires Tally(d.batches, |d.batches|, s.schema.id, Rows(s.batches), s.decodedBytes, s.limits.usizeMax, None) == Ok((rows, bytes))
    ensures Appended(s, d)
         == if rows != d.cumulativeRows || bytes != d.cumulativeDecodedBytes then Err(RuntimeFailure)
            else if bytes > s.limits.maxDecodedBytes then Err(ResourceLimit)
            else Ok(s.(batches := s.batches + d.batches, rowOffsets := Offsets(s.batches + d.batches), decodedBytes := bytes, exact := d.exact))
  {
    hide Tally, Offsets, Rows;
  }

  /** A count that fails part of the way is what appending fails with. */
  lemma AppendFails(s: Source, d: Delta)
    requires s.stream && d.batchStart == |s.batches| && d.schema == s.schema && d.limits == s.limits
    requires Tally(d.batches, |d.batches|, s.schema.id, Rows(s.batches), s.decodedBytes, s.limits.usizeMax, None).Err?
    ensures Appended(s, d) == Err(Tally(d.batches, |d.batches|, s.schema.id, Rows(s.batches), s.decodedBytes, s.limits.usizeMax, None).error)
  {
    hide Tally, Offsets, Rows;
  }

  method IndexBatches(s: Schema, initial: seq<Batch>, l: Limits) returns (r: Result<(seq<nat>, nat)>)
    ensures var spec := Tally(initial, |initial|, s.id, 0, 0, l.usizeMax, Some(l.maxDecodedBytes));
            r == if spec.Err? then Err(spec.error) else Ok((Offsets(initial), spec.value.1))
  {
    ghost var cap := Some(l.maxDecodedBytes);
    var offsets: seq<nat> := [0];
    var rows: nat, bytes: nat := 0, 0;
    var i := 0;
    assert Tally(initial, 0, s.id, 0, 0, l.usizeMax, cap) == Ok((0, 0));
    assert Offsets(initial)[..1] == [0];
    hide Tally, Offsets, RowsBefore;
    while i < |initial|
      invariant 0 <= i <= |initial| && offsets == Offsets(initial)[..i + 1] && rows == Offsets(initial)[i]
      invariant Tally(initial, i, s.id, 0, 0, l.usizeMax, cap) == Ok((rows, bytes))
    {
      var batch := initial[i];
      TallyStep(initial, i, s.id, 0, 0, l.usizeMax, cap, rows, bytes);
      OffsetStep(initial, i);
      if batch.schema != s.id {
        return Err(ParseFailed);
      }
      if rows + batch.rows > l.usizeMax || bytes + batch.memory > l.usizeMax {
        return Err(ResourceLimit);
      }
      rows, bytes := rows + batch.rows, bytes + batch.memory;
      if bytes > l.maxDecodedBytes {
        return Err(ResourceLimit);
      }
      offsets := offsets + [rows];
      i := i + 1;
    }
    assert Offsets(initial)[..i + 1] == Offsets(initial);
    return Ok((offsets, bytes));
  }

  class ArrowIpcSource {
    const stream: bool
    const schema: Schema
    const limits: Limits
    var batches: seq<Batch>
    var rowOffsets: seq<nat>
    var decodedBytes: nat
    var exact: bool

    ghost function View(): Source
      reads this
    {
      Source(stream, schema, batches, rowOffsets, decodedBytes, exact, limits)
    }

    constructor (isStream: bool, s: Schema, initial: seq<Batch>, offsets: seq<nat>, bytes: nat, isExact: bool, l: Limits)
      ensures View() == Source(isStream, s, initial, offsets, bytes, isExact, l)
    {
      stream, schema, limits := isStream, s, l;
      batches, rowOffsets, decodedBytes, exact := initial, offsets, bytes, isExact;
    }

    static method FromBatches(isStream: bool, s: Schema, initial: seq<Batch>, l: Limits, isExact: bool) returns (r: Result<ArrowIpcSource>)
      ensures var spec := Build(isStream, s, initial, l, isExact);
              if spec.Err? then r == Err(spec.error) else r.Ok? && fresh(r.value) && r.value.View() == spec.value
    {
      if !s.accepted {
        return Err(UnsupportedFeature);
      }
      hide Tally, Offsets;
      var index :- IndexBatches(s, initial, l);
      var (offsets, bytes) := index;
      var source := new ArrowIpcSource(isStream, s, initial, offsets, bytes, isExact, l);
      return Ok(source);
    }

    /** All checks come before the first change: a refused delta leaves the source as it was. */
    method AppendStreamDelta(d: Delta) returns (r: Result<nat>)
      requires SourceOk(View()) && WellFormed(d.batches, schema)
      modifies this
      ensures var spec := Appended(old(View()), d);
              if spec.Err? then r == Err(spec.error) && View() == old(View())
              else View() == spec.value && SourceOk(View()) && r == Ok(MemoryOf(d.batches))
    {
      hide Tally, Offsets, RowsBefore, MemoryOf;
      ghost var s := View();
      AppendIsOk(s, d);
      if !stream || d.batchStart != |batches| || d.schema != schema || d.limits != limits {
        return Err(InvalidArgument);
      }
      var rows, bytes := rowOffsets[|rowOffsets| - 1], decodedBytes;
      OffsetsEnd(batches);
      NothingTallied(d.batches, schema.id, Rows(s.batches), s.decodedBytes, limits.usizeMax);
      NoRowsBefore(d.batches);
      assert rowOffsets == Offsets(batches);
      hide SourceOk, Appended, WellFormed, Rows;
      var appended: seq<nat> := [];
      var i := 0;
      while i < |d.batches|
        invariant 0 <= i <= |d.batches| && |appended| == i && View() == s
        invariant forall j :: 0 <= j < i ==> appended[j] == Rows(s.batches) + RowsBefore(d.batches, j + 1)
        invariant rows == Rows(s.batches) + RowsBefore(d.batches, i)
        invariant Tally(d.batches, i, schema.id, Rows(s.batches), s.decodedBytes, limits.usizeMax, None) == Ok((rows, bytes))
      {
        var batch := d.batches[i];
        TallyStep(d.batches, i, schema.id, Rows(s.batches), s.decodedBytes, limits.usizeMax, None, rows, bytes);
        if Tally(d.batches, |d.batches|, schema.id, Rows(s.batches), s.decodedBytes, limits.usizeMax, None).Err? {
          AppendFails(s, d);
        }
        if batch.schema != schema.id {
          return Err(ParseFailed);
        }
        if rows + batch.rows > limits.usizeMax || bytes + batch.memory > limits.usizeMax {
          return Err(ResourceLimit);
        }
        RowsOneMore(d.batches, i);
        rows, bytes := rows + batch.rows, bytes + batch.memory;
        appended := appended + [rows];
        i := i + 1;
      }
      AppendedIs(s, d, rows, bytes);
      if rows != d.cumulativeRows || bytes != d.cumulativeDecodedBytes {
        return Err(RuntimeFailure);
      }
      if bytes > limits.maxDecodedBytes {
        return Err(ResourceLimit);
      }
      ExtendOffsets(s.batches, d.batches, appended);
      var grown: nat := bytes - decodedBytes;
      batches := batches + d.batches;
      rowOffsets := rowOffsets + appended;
      decodedBytes, exact := bytes, d.exact;
      return Ok(grown);
    }

    /**
     One column of the requested rows.  The branch for rows that no batch covers is dead: inside the
     extent the row index always covers the range.
     */
    method ProjectColumn(column: nat, rowStart: nat, rowCount: nat) returns (r: Result<Array>)
      requires SourceOk(View()) && column < schema.width && rowStart + rowCount <= Rows(batches)
      ensures |Column(batches, |batches|, column)| == Rows(batches)
      ensures r == Ok(Column(batches, |batches|, column)[rowStart..rowStart + rowCount])
    {
      hide Column, Rows, SourceOk, Offsets, Upto, BatchesOk, RowsBefore;
      ghost var full := Column(batches, |batches|, column);
      SourceFacts(View(), column);
      if rowCount == 0 {
        assert full[rowStart..rowStart + rowCount] == [];
        return Ok([]);
      }
      var rowEnd := rowStart + rowCount;
      NothingUpTo(full, rowStart, rowEnd);
      var slices: Array := [];
      var i := 0;
      while i < |batches|
        invariant 0 <= i <= |batches| && |rowOffsets| == |batches| + 1 && rowOffsets[i] <= |full|
        invariant slices == Upto(full, rowStart, rowEnd, rowOffsets[i])
      {
        SliceStep(batches, i, column, schema.id, schema.width, rowStart, rowEnd);
        var batchStart, batchEnd := rowOffsets[i], rowOffsets[i + 1];
        var start, end := Max(rowStart, batchStart), Min(rowEnd, batchEnd);
        if start < end {
          slices := slices + batches[i].columns[column][start - batchStart..end - batchStart];
        }
        i := i + 1;
      }
      AllUpTo(full, rowStart, rowEnd);
      if slices == [] {
        return Err(RuntimeFailure);
      }
      return Ok(slices);
    }

    method ReadRange(request: Request) returns (r: Result<Projection>)
      requires SourceOk(View())
      ensures var plan := PlanRange(request, Rows(batches), schema.width, limits);
              if plan.Err? then r == Err(plan.error)
              else r.Ok? && IsRangeOf(r.value, batches, plan.value, schema.id, schema.width)
    {
      var plan :- PlanRange(request, rowOffsets[|rowOffsets| - 1], schema.width, limits);
      PlanIsClipped(request, Rows(batches), schema.width, limits);
      hide PlanRange, Column, Rows, SourceOk, BatchesOk, Offsets, RowsBefore;
      var arrays: seq<Array> := [];
      while |arrays| < plan.returnedColumns
        invariant |arrays| <= plan.returnedColumns
        invariant forall c: nat :: c < |arrays| ==> IsColumnOf(arrays[c], batches, plan, plan.columnStart + c, schema.id, schema.width)
        decreases plan.returnedColumns - |arrays|
      {
        var projected := ProjectColumn(plan.columnStart + |arrays|, plan.rowStart, plan.returnedRows);
        arrays := arrays + [projected.Extract()];
      }
      return Ok(Projection(arrays, plan.returned, plan.complete));
    }
  }

  /** A failing prefix fails the whole tally the same way. */
  lemma {:induction false} TallyFailsBy(batches: seq<Batch>, n: nat, m: nat, schema: nat, rows: nat, memory: nat, usizeMax: nat, cap: Option<nat>)
    requires n <= m <= |batches| && Tally(batches, n, schema, rows, memory, usizeMax, cap).Err?
    ensures Tally(batches, m, schema, rows, memory, usizeMax, cap) == Tally(batches, n, schema, rows, memory, usizeMax, cap)
    decreases m - n
  {
    if n < m {
      TallyFailsBy(batches, n, m - 1, schema, rows, memory, usizeMax, cap);
    }
  }

  lemma TallyStep(batches: seq<Batch>, i: nat, schema: nat, rows0: nat, memory0: nat, usizeMax: nat, cap: Option<nat>, rows: nat, memory: nat)
    requires i < |batches| && Tally(batches, i, schema, rows0, memory0, usizeMax, cap) == Ok((rows, memory))
    ensures var b := batches[i];
            Tally(batches, i + 1, schema, rows0, memory0, usizeMax, cap)
            == if b.schema != schema then Err(ParseFailed)
               else if rows + b.rows > usizeMax || memory + b.memory > usizeMax then Err(ResourceLimit)
               else if cap.Some? && memory + b.memory > cap.value then Err(ResourceLimit)
               else Ok((rows + b.rows, memory + b.memory))
    ensures Tally(batches, i + 1, schema, rows0, memory0, usizeMax, cap).Err? ==>
              Tally(batches, |batches|, schema, rows0, memory0, usizeMax, cap) == Tally(batches, i + 1, schema, rows0, memory0, usizeMax, cap)
  {
    if Tally(batches, i + 1, schema, rows0, memory0, usizeMax, cap).Err? {
      TallyFailsBy(batches, i + 1, |batches|, schema, rows0, memory0, usizeMax, cap);
    }
  }

  lemma ExtendOffsets(a: seq<Batch>, b: seq<Batch>, appended: seq<nat>)
    requires |appended| == |b| && forall j :: 0 <= j < |b| ==> appended[j] == Rows(a) + RowsBefore(b, j + 1)
    ensures Offsets(a) + appended == Offsets(a + b)
  {
    forall k | 0 <= k <= |a + b| ensures (Offsets(a) + appended)[k] == Offsets(a + b)[k] {
      if k <= |a| {
        RowsPrefix(a, b, k);
      } else {
        RowsConcat(a, b, k - |a|);
      }
    }
  }
}
