/**
 The source reads of one adapter operation step (`advanceAdapterOperationStep` in `js/worker.ts`): every
 action is reserved in the ledger before the source is read, and however the step ends, nothing stays reserved.

 Reads through `readMany` are modelled; a source that has none hands its reservations on.
 */
module OperationReads {
  import opened Common
  import opened MemoryBudget
  import opened RangeRequests

  function Sum(lengths: seq<nat>): nat {
    if lengths == [] then 0 else Sum(lengths[..|lengths| - 1]) + lengths[|lengths| - 1]
  }

  lemma {:induction false} SumGrows(lengths: seq<nat>, n: nat)
    requires n <= |lengths|
    ensures Sum(lengths[..n]) <= Sum(lengths)
    decreases |lengths|
  {
    if n < |lengths| {
      var front := lengths[..|lengths| - 1];
      SumGrows(front, n);
      assert front[..n] == lengths[..n];
    } else {
      assert lengths[..n] == lengths;
    }
  }

  /** The reservations are new ones, each with a name of its own. */
  predicate New(live: map<nat, nat>, ids: seq<nat>) {
    && (forall i :: 0 <= i < |ids| ==> ids[i] !in live)
    && (forall i, j :: 0 <= i < j < |ids| ==> ids[i] != ids[j])
  }

  function Without(live: map<nat, nat>, ids: seq<nat>): map<nat, nat> {
    map id | id in live && id !in ids :: live[id]
  }

  function AllReleased(l: Ledger, ids: seq<nat>): Ledger {
    if ids == [] then l else Released(AllReleased(l, ids[..|ids| - 1]), ids[|ids| - 1])
  }

  /** Releasing leaves exactly the other reservations, also if one is released twice. */
  lemma {:induction false} ReleasesLeaveTheOthers(l: Ledger, ids: seq<nat>)
    requires LedgerOk(l)
    ensures var r := AllReleased(l, ids); LedgerOk(r) && r.live == Without(l.live, ids) && r.capacity == l.capacity
    decreases |ids|
  {
    if ids == [] {
      assert Without(l.live, ids) == l.live;
    } else {
      var front, last := ids[..|ids| - 1], ids[|ids| - 1];
      ReleasesLeaveTheOthers(l, front);
      ReservationReleaseKeeps(AllReleased(l, front), last);
      assert forall id :: id in ids <==> id in front || id == last;
      assert Without(l.live, ids) == Without(l.live, front) - {last};
    }
  }

  /** The ledger with the first `n` reservations made. */
  function Admitted(l: Ledger, ids: seq<nat>, lengths: seq<nat>, n: nat): Ledger
    requires n <= |ids| == |lengths|
  {
    if n == 0 then l
    else
      var front := Admitted(l, ids, lengths, n - 1);
      front.(used := front.used + lengths[n - 1], live := front.live[ids[n - 1] := lengths[n - 1]])
  }

  lemma {:induction false} AdmittedAdds(l: Ledger, ids: seq<nat>, lengths: seq<nat>, n: nat)
    requires n <= |ids| == |lengths| && New(l.live, ids)
    ensures var a := Admitted(l, ids, lengths, n);
            && a.used == l.used + Sum(lengths[..n]) && Without(a.live, ids[..n]) == l.live && a.capacity == l.capacity
            && (forall k :: 0 <= k < n ==> ids[k] in a.live && a.live[ids[k]] == lengths[k])
            && (forall k :: n <= k < |ids| ==> ids[k] !in a.live)
  {
    if n == 0 {
      assert Without(l.live, ids[..0]) == l.live;
    } else {
      AdmittedAdds(l, ids, lengths, n - 1);
      assert lengths[..n][..n - 1] == lengths[..n - 1];
      assert forall id :: id in ids[..n] <==> id in ids[..n - 1] || id == ids[n - 1];
    }
  }

  /** What the rest of the Worker does with the ledger while the step waits. */
  datatype Other = Reserves(id: nat, bytes: int) | Releases(id: nat)

  function OtherDid(l: Ledger, other: Other): Ledger {
    match other
    case Reserves(id, bytes) => if id in l.live || Reserved(l, id, bytes).Err? then l else Reserved(l, id, bytes).value
    case Releases(id) => Released(l, id)
  }

  function OthersDid(l: Ledger, others: seq<Other>): Ledger
    decreases |others|
  {
    if others == [] then l else OthersDid(OtherDid(l, others[0]), others[1..])
  }

  /** The others know nothing of the step's reservations. */
  predicate Foreign(others: seq<Other>, ids: seq<nat>) {
    forall i :: 0 <= i < |others| ==> others[i].id !in ids
  }

  lemma {:induction false} OthersLeaveOurs(l: Ledger, others: seq<Other>, ids: seq<nat>)
    requires LedgerOk(l) && Foreign(others, ids)
    ensures var c := OthersDid(l, others);
            && LedgerOk(c) && c.capacity == l.capacity
            && forall id :: id in ids ==> (id in c.live <==> id in l.live) && (id in l.live ==> c.live[id] == l.live[id])
    decreases |others|
  {
    if others != [] {
      match others[0] {
        case Reserves(id, bytes) =>
          if id !in l.live {
            ReserveKeeps(l, id, bytes);
          }
        case Releases(id) => ReservationReleaseKeeps(l, id);
      }
      OthersLeaveOurs(OtherDid(l, others[0]), others[1..], ids);
    }
  }

  lemma {:induction false} ReleasedBytes(l: Ledger, ids: seq<nat>, lengths: seq<nat>)
    requires LedgerOk(l) && |ids| == |lengths| && forall i, j :: 0 <= i < j < |ids| ==> ids[i] != ids[j]
    requires forall i :: 0 <= i < |ids| ==> ids[i] in l.live && l.live[ids[i]] == lengths[i]
    ensures AllReleased(l, ids).used == l.used - Sum(lengths)
    decreases |ids|
  {
    if ids != [] {
      var front, last := ids[..|ids| - 1], ids[|ids| - 1];
      ReleasedBytes(l, front, lengths[..|ids| - 1]);
      ReleasesLeaveTheOthers(l, front);
      ReservationReleaseKeeps(AllReleased(l, front), last);
      assert last !in front;
    }
  }

  /** What an adapter asks of the source. */
  datatype Action = Action(offset: nat, length: nat)

  function Lengths(actions: seq<Action>): seq<nat> {
    seq(|actions|, i requires 0 <= i < |actions| => actions[i].length)
  }

  /** `checkedSourceRangeEnd` has a result. */
  predicate Inside(a: Action, size: nat) {
    && a.offset <= MAX_SAFE_INTEGER && a.length <= MAX_SAFE_INTEGER && size <= MAX_SAFE_INTEGER
    && a.offset <= size && a.length <= size - a.offset
  }

  /** Every action lies inside the source, and together they ask for no more than the limit. */
  predicate Reasonable(actions: seq<Action>, size: nat, readLimit: nat) {
    && (forall i :: 0 <= i < |actions| ==> Inside(actions[i], size))
    && Sum(Lengths(actions)) <= MAX_SAFE_INTEGER && Sum(Lengths(actions)) <= readLimit
  }

  lemma OneMoreLength(actions: seq<Action>, i: nat)
    requires i < |actions|
    ensures Sum(Lengths(actions)[..i + 1]) == Sum(Lengths(actions)[..i]) + actions[i].length <= Sum(Lengths(actions))
  {
    SumGrows(Lengths(actions), i + 1);
    assert Lengths(actions)[..i + 1][..i] == Lengths(actions)[..i];
  }

  /** The checks in front of the reads: one pass that sums the lengths up. */
  method CheckActions(actions: seq<Action>, size: nat, readLimit: nat) returns (r: Result<()>)
    ensures r.Ok? <==> Reasonable(actions, size, readLimit)
    ensures r.Err? ==> r.error == ResourceLimit
  {
    var total, i := 0, 0;
    while i < |actions|
      invariant 0 <= i <= |actions| && total == Sum(Lengths(actions)[..i]) <= MAX_SAFE_INTEGER
      invariant forall k :: 0 <= k < i ==> Inside(actions[k], size)
    {
      OneMoreLength(actions, i);
      total := total + actions[i].length;
      if total > MAX_SAFE_INTEGER || !Inside(actions[i], size) {
        return Err(ResourceLimit);
      }
      i := i + 1;
    }
    assert Lengths(actions)[..i] == Lengths(actions);
    return if total > readLimit then Err(ResourceLimit) else Ok(());
  }

  /** How the buffer of an action looks, and whether the request is found cancelled behind it. */
  datatype BufferEnd = Whole | Wrong | CancelledBehind

  /** The sum is at least that of the first lengths and the next one. */
  lemma NextExceeds(lengths: seq<nat>, i: nat)
    requires i < |lengths|
    ensures Sum(lengths[..i]) + lengths[i] <= Sum(lengths)
  {
    SumGrows(lengths, i + 1);
    assert lengths[..i + 1][..i] == lengths[..i];
  }

  /** Releasing what was admitted gives the ledger back as it was. */
  lemma UndoAdmitted(l: Ledger, ids: seq<nat>, lengths: seq<nat>, n: nat)
    requires n <= |ids| == |lengths| && New(l.live, ids) && LedgerOk(l) && LedgerOk(Admitted(l, ids, lengths, n))
    ensures AllReleased(Admitted(l, ids, lengths, n), ids[..n]) == l
  {
    AdmittedAdds(l, ids, lengths, n);
    ReleasesLeaveTheOthers(Admitted(l, ids, lengths, n), ids[..n]);
  }

  class OperationStep {
    const ledger: MemoryReservationLedger
    var reservations: seq<nat>
    var held: seq<nat>

    ghost predicate Sound()
      reads this, ledger
    {
      LedgerOk(ledger.View())
    }

    constructor (l: MemoryReservationLedger)
      ensures ledger == l && reservations == [] && held == []
    {
      ledger, reservations, held := l, [], [];
    }

    method ReleaseEach(ids: seq<nat>)
      requires Sound()
      modifies ledger
      ensures Sound() && ledger.View() == AllReleased(old(ledger.View()), ids)
    {
      var i := 0;
      while i < |ids|
        invariant 0 <= i <= |ids| && Sound() && ledger.View() == AllReleased(old(ledger.View()), ids[..i])
      {
        ledger.Release(ids[i]);
        assert ids[..i + 1][..i] == ids[..i];
        i := i + 1;
      }
      assert ids[..i] == ids;
    }

    /** All actions are reserved, or, if they do not fit together, none. */
    method Admit(ids: seq<nat>, lengths: seq<nat>) returns (r: Result<()>)
      requires Sound() && |ids| == |lengths| && New(ledger.unreleased, ids) && reservations == []
      modifies ledger, this`reservations
      ensures Sound()
      ensures r.Ok? <==> old(ledger.usedBytes) + Sum(lengths) <= ledger.capacityBytes
      ensures r.Ok? ==> reservations == ids && ledger.View() == Admitted(old(ledger.View()), ids, lengths, |ids|)
      ensures r.Err? ==> r.error == ResourceLimit && reservations == [] && ledger.View() == old(ledger.View())
    {
      hide Without, New, Sum;
      ghost var before := ledger.View();
      var i := 0;
      while i < |ids|
        invariant 0 <= i <= |ids| && Sound() && reservations == ids[..i]
        invariant ledger.View() == Admitted(before, ids, lengths, i)
      {
        AdmittedAdds(before, ids, lengths, i);
        var reserved := ledger.Reserve(ids[i], lengths[i]);
        if reserved.Err? {
          NextExceeds(lengths, i);
          UndoAdmitted(before, ids, lengths, i);
          ReleaseEach(reservations);
          reservations := [];
          return Err(reserved.error);
        }
        assert ids[..i + 1] == ids[..i] + [ids[i]];
        reservations := reservations + [ids[i]];
        i := i + 1;
      }
      AdmittedAdds(before, ids, lengths, i);
      assert ids[..i] == ids && lengths[..i] == lengths;
      return Ok(());
    }

    /** The buffers take the reservations over one by one; on the way out some may be listed twice. */
    method TakeBuffers(buffers: seq<BufferEnd>) returns (r: Result<()>)
      requires held == []
      modifies this
      ensures forall id :: id in old(reservations) <==> id in held + reservations
      ensures r.Ok? <==> |buffers| == |old(reservations)| && forall i :: 0 <= i < |buffers| ==> buffers[i] == Whole
      ensures r.Ok? ==> held == old(reservations) && reservations == []
    {
      if |buffers| != |reservations| {
        return Err(RuntimeFailure);
      }
      var i := 0;
      while i < |buffers|
        invariant 0 <= i <= |buffers| == |reservations| && reservations == old(reservations) && held == reservations[..i]
        invariant forall k :: 0 <= k < i ==> buffers[k] == Whole
      {
        if buffers[i] == Wrong {
          return Err(RuntimeFailure);
        }
        held := held + [reservations[i]];
        if buffers[i] == CancelledBehind {
          return Err(CallCancelled);
        }
        i := i + 1;
      }
      reservations := [];
      return Ok(());
    }

    /** The `finally` block.  Whatever others reserved and released meanwhile stays as it is. */
    method Leave(ghost ids: seq<nat>)
      requires Sound() && forall id :: id in ids <==> id in held + reservations
      modifies ledger
      ensures Sound() && ledger.unreleased == Without(old(ledger.unreleased), ids)
    {
      ReleasesLeaveTheOthers(ledger.View(), held);
      ReleaseEach(held);
      ReleasesLeaveTheOthers(ledger.View(), reservations);
      ReleaseEach(reservations);
    }

    /** Others use the ledger while the step waits. */
    method OthersUse(others: seq<Other>)
      requires Sound()
      modifies ledger
      ensures Sound() && ledger.View() == OthersDid(old(ledger.View()), others)
    {
      var i := 0;
      assert others[0..] == others;
      while i < |others|
        invariant 0 <= i <= |others| && Sound()
        invariant OthersDid(ledger.View(), others[i..]) == OthersDid(old(ledger.View()), others)
      {
        assert others[i..][0] == others[i] && others[i..][1..] == others[i + 1..];
        match others[i] {
        case Reserves(id, bytes) =>
          if id !in ledger.unreleased {
            var _ := ledger.Reserve(id, bytes);
          }
        case Releases(id) => ledger.Release(id);
        }
        i := i + 1;
      }
      NobodyElse(ledger.View());
    }

    /**
     One step; `during` and `after` are what others do with the ledger while the step waits for its
     source, or for a pause if it asks for nothing, and for the adapter.  It continues exactly if it was
     not cancelled before, its actions are reasonable and fit the ledger, the source answers every one,
     and neither pause nor adapter fails.  On every exit exactly the step's own reservations are gone
     from the ledger as the others left it.
     */
    method Advance(ids: seq<nat>, actions: seq<Action>, size: nat, readLimit: nat, cancelled: Option<ErrorCode>,
                   pause: Result<()>, source: Result<seq<BufferEnd>>, adapter: Result<()>, during: seq<Other>, after: seq<Other>)
      returns (r: Result<()>, ghost others: seq<Other>)
      requires Sound() && |ids| == |actions| && New(ledger.unreleased, ids) && reservations == [] && held == []
      requires Foreign(during, ids) && Foreign(after, ids)
      modifies this, ledger
      ensures Sound() && others in {[], during, during + after}
      ensures var lengths := Lengths(actions);
              var admitted := cancelled.None? && Reasonable(actions, size, readLimit) && old(ledger.usedBytes) + Sum(lengths) <= ledger.capacityBytes;
              var before := OthersDid(if admitted then Admitted(old(ledger.View()), ids, lengths, |ids|) else old(ledger.View()), others);
              && (!admitted ==> others == [])
              && ledger.unreleased == Without(before.live, ids)
              && ledger.usedBytes == before.used - if admitted then Sum(lengths) else 0
      ensures r.Ok? <==>
              && cancelled.None? && Reasonable(actions, size, readLimit)
              && old(ledger.usedBytes) + Sum(Lengths(actions)) <= ledger.capacityBytes
              && (if actions == [] then pause.Ok?
                  else source.Ok? && |source.value| == |actions| && forall i :: 0 <= i < |actions| ==> source.value[i] == Whole)
              && adapter.Ok?
      ensures r.Ok? ==> others == during + after
      ensures cancelled.Some? ==> r == Err(cancelled.value)
    {
      hide Without, AllReleased, OthersDid, Admitted, Foreign, New, Sum, Reasonable;
      ghost var start := ledger.View();
      var lengths := Lengths(actions);
      others := [];
      NobodyElse(start);
      NothingOfOurs(start, ids);
      if cancelled.Some? {
        return Err(cancelled.value), [];
      }
      var checked := CheckActions(actions, size, readLimit);
      if checked.Err? {
        return checked, [];
      }
      var admitted := Admit(ids, lengths);
      if admitted.Err? {
        return Err(admitted.error), [];
      }
      assert held + reservations == ids;
      OthersUse(during);
      others := during;
      var outcome := pause;
      if |actions| > 0 {
        outcome := if source.Err? then Err(source.error) else Ok(());
        if source.Ok? {
          outcome := TakeBuffers(source.value);
        }
      }
      if outcome.Err? {
        LeaveOwn(ids, lengths, start, others);
        return outcome, others;
      }
      assert held + reservations == ids;
      OthersInTurn(Admitted(start, ids, lengths, |ids|), during, after);
      BothForeign(during, after, ids);
      OthersUse(after);
      others := during + after;
      LeaveOwn(ids, lengths, start, others);
      return adapter, others;
    }

    /** Leaving, with all reservations of the step still in the ledger. */
    method LeaveOwn(ghost ids: seq<nat>, ghost lengths: seq<nat>, ghost start: Ledger, ghost others: seq<Other>)
      requires Sound() && LedgerOk(start) && |ids| == |lengths| && New(start.live, ids) && Foreign(others, ids)
      requires start.used + Sum(lengths) <= start.capacity
      requires ledger.View() == OthersDid(Admitted(start, ids, lengths, |ids|), others)
      requires LedgerOk(Admitted(start, ids, lengths, |ids|))
      requires forall id :: id in ids <==> id in held + reservations
      modifies ledger
      ensures Sound() && ledger.unreleased == Without(old(ledger.unreleased), ids)
      ensures ledger.usedBytes == old(ledger.usedBytes) - Sum(lengths)
    {
      hide Sum, OthersDid, Admitted, Foreign;
      ghost var before := ledger.View();
      AdmittedAdds(start, ids, lengths, |ids|);
      OthersLeaveOurs(Admitted(start, ids, lengths, |ids|), others, ids);
      ReleasedBytes(before, ids, lengths);
      ReleasesLeaveTheOthers(before, ids);
      Leave(ids);
    }
  }

  lemma NobodyElse(l: Ledger)
    ensures OthersDid(l, []) == l
  {
  }

  lemma NothingOfOurs(l: Ledger, ids: seq<nat>)
    requires New(l.live, ids)
    ensures Without(l.live, ids) == l.live
  {
    forall id | id in l.live ensures id !in ids {
    }
  }

  lemma {:induction false} OthersInTurn(l: Ledger, a: seq<Other>, b: seq<Other>)
    ensures OthersDid(OthersDid(l, a), b) == OthersDid(l, a + b)
    decreases |a|
  {
    if a == [] {
      assert a + b == b;
    } else {
      assert (a + b)[1..] == a[1..] + b;
      OthersInTurn(OtherDid(l, a[0]), a[1..], b);
    }
  }

  lemma BothForeign(a: seq<Other>, b: seq<Other>, ids: seq<nat>)
    requires Foreign(a, ids) && Foreign(b, ids)
    ensures Foreign(a + b, ids)
  {
  }
}
