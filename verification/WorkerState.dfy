/**
 The Worker's shared state (`js/worker.ts`): requests, datasets, tables, adapter operation handles
 and source slots, and what cancelling and closing do to it.

 A dataset is named by the request that opened it, and so is the source handle that the adapter
 gives out for it.  The maps keep closed objects, because suspended code may still refer to them;
 an entry with `closed` set is no longer registered.  `active` is `activeRequests`.
 */
module WorkerState {
  import opened Common

  datatype Kind = OpenKind | RangeKind | AsyncKind

  /** A `begin…` call: not made, made, answered while the request was live, or answered too late. */
  datatype Arrival = Idle | Begun | Arrived(op: nat) | Reclaimed

  datatype Request = Request(
    kind: Kind, dataset: Option<nat>, table: Option<nat>, cancelled: bool, op: Option<nat>, arrival: Arrival, slot: bool)

  datatype Dataset = Dataset(scanOp: Option<nat>, closed: bool)

  datatype Table = Table(dataset: nat, closed: bool)

  /**
   Who may still cancel an adapter operation handle.  `Finished` is a completed operation; `Dropped`
   is one that nobody can reach any more although it was neither completed nor cancelled.
   */
  datatype Owner =
    | Unclaimed(request: nat)
    | OfRequest(request: nat)
    | OfDataset(dataset: nat)
    | Shared(both: nat)
    | Finished
    | Dropped
    | CancelledOp

  /** `repeated` tells whether a handle was ever cancelled, or a source or table closed, a second time. */
  datatype State = State(
    requests: map<nat, Request>, active: set<nat>, datasets: map<nat, Dataset>, tables: map<nat, Table>,
    owners: map<nat, Owner>, holders: set<nat>, slotsInUse: int,
    closedSources: set<nat>, closedTables: set<nat>, repeated: bool)

  const START := State(map[], {}, map[], map[], map[], {}, 0, {}, {}, false)

  predicate IsOpen(s: State, d: nat) {
    d in s.datasets && !s.datasets[d].closed
  }

  predicate IsOpenTable(s: State, t: nat) {
    t in s.tables && !s.tables[t].closed
  }

  // ---------------------------------------------------------------- the invariant

  /** An active request: if uncancelled, what it refers to is open; if cancelled, it owns no handle. */
  predicate RequestOk(s: State, r: nat)
    requires r in s.requests
  {
    var q := s.requests[r];
    && (q.cancelled ==> q.op == None)
    && (!q.cancelled && q.dataset.Some? ==> IsOpen(s, q.dataset.value))
    && (!q.cancelled && q.table.Some? ==> IsOpenTable(s, q.table.value) && q.dataset == Some(s.tables[q.table.value].dataset))
    && (if q.kind == OpenKind then q.table == None && (q.dataset.Some? ==> q.dataset.value == r && !q.slot)
        else q.dataset.Some? && !q.slot)
    && (q.op.Some? ==> q.op.value in s.owners
                       && (s.owners[q.op.value] == OfRequest(r)
                           || (s.owners[q.op.value] == Shared(r) && q.kind == OpenKind && q.dataset == Some(r)
                               && r in s.datasets && s.datasets[r].scanOp == q.op)))
  }

  /** Any request, also one that is no longer active. */
  predicate ArrivalOk(s: State, r: nat)
    requires r in s.requests
  {
    var q := s.requests[r];
    && (q.arrival == Begun || q.arrival.Arrived? ==> q.op == None)
    && (q.arrival.Arrived? ==> q.arrival.op in s.owners && s.owners[q.arrival.op] == Unclaimed(r))
    && (q.kind == OpenKind && q.dataset.None? ==> r !in s.datasets)
    && (r !in s.active ==> !q.slot && (q.arrival == Begun ==> q.cancelled))
    && (r in s.closedSources && r !in s.datasets ==> q.arrival == Reclaimed || r !in s.active)
    && (q.arrival == Begun && r in s.closedSources ==> q.kind != OpenKind)
  }

  predicate DatasetOk(s: State, d: nat)
    requires d in s.datasets
  {
    var e := s.datasets[d];
    && d in s.requests && s.requests[d].kind == OpenKind && s.requests[d].dataset == Some(d) && s.requests[d].arrival == Idle
    && (e.closed ==> e.scanOp == None) && (e.closed <==> d in s.closedSources)
    && (e.scanOp.Some? ==> e.scanOp.value in s.owners && s.owners[e.scanOp.value] in {OfDataset(d), Shared(d)})
  }

  predicate TableOk(s: State, t: nat)
    requires t in s.tables
  {
    (s.tables[t].closed <==> t in s.closedTables) && (!s.tables[t].closed ==> IsOpen(s, s.tables[t].dataset))
  }

  predicate Requests(s: State) {
    && s.active <= s.requests.Keys
    && (forall r :: r in s.active ==> RequestOk(s, r))
    && (forall r :: r in s.requests ==> ArrivalOk(s, r))
  }

  predicate Objects(s: State) {
    && (forall d :: d in s.datasets ==> DatasetOk(s, d))
    && (forall t :: t in s.tables ==> TableOk(s, t))
    && s.closedTables <= s.tables.Keys && s.closedSources <= s.requests.Keys
  }

  /** Every open dataset, and every open request that has got a slot, holds exactly one. */
  ghost predicate Slots(s: State) {
    && s.slotsInUse == |s.holders| && s.slotsInUse <= MAX_SOURCES
    && (forall r :: r in s.holders <==> IsOpen(s, r) || (r in s.requests && s.requests[r].slot))
  }

  ghost predicate Inv(s: State) {
    Requests(s) && Objects(s) && Slots(s) && !s.repeated
  }

  // ---------------------------------------------------------------- adapter calls

  predicate WasCancelled(s: State, op: nat) {
    op in s.owners && s.owners[op] == CancelledOp
  }

  /** `adapter.cancelOperation`. */
  function CancelOp(s: State, op: nat): State {
    s.(owners := s.owners[op := CancelledOp], repeated := s.repeated || WasCancelled(s, op))
  }

  function CancelSome(s: State, op: Option<nat>): State {
    if op.Some? then CancelOp(s, op.value) else s
  }

  /** `adapter.closeSource`. */
  function CloseSource(s: State, d: nat): State {
    s.(closedSources := s.closedSources + {d}, repeated := s.repeated || d in s.closedSources)
  }

  // ---------------------------------------------------------------- cancelling and closing

  function Cancelled(q: Request): Request {
    q.(cancelled := true, op := None)
  }

  predicate OnTable(s: State, t: nat, r: nat) {
    r in s.active && r in s.requests && s.requests[r].kind != OpenKind && s.requests[r].table == Some(t)
  }

  predicate OfTheDataset(s: State, d: nat, r: nat) {
    r in s.active && r in s.requests && s.requests[r].dataset == Some(d)
  }

  /** The handle belongs to one of the requests that `OnTable` or `OfTheDataset` picks out. */
  predicate OwnedOnTable(s: State, t: nat, op: nat) {
    op in s.owners && s.owners[op].OfRequest? && OnTable(s, t, s.owners[op].request)
    && s.requests[s.owners[op].request].op == Some(op)
  }

  predicate OwnedInDataset(s: State, d: nat, op: nat) {
    && op in s.owners
    && (|| (d in s.datasets && s.datasets[d].scanOp == Some(op))
        || (s.owners[op].OfRequest? && OfTheDataset(s, d, s.owners[op].request)
            && s.requests[s.owners[op].request].op == Some(op)))
  }

  /** `closeTableState`: the table's requests are cancelled, their handles with one call each. */
  function CloseTable(s: State, t: nat): State
    requires t in s.tables
  {
    s.(requests := map r | r in s.requests :: if OnTable(s, t, r) then Cancelled(s.requests[r]) else s.requests[r],
       owners := map op | op in s.owners :: if OwnedOnTable(s, t, op) then CancelledOp else s.owners[op],
       tables := s.tables[t := s.tables[t].(closed := true)],
       closedTables := s.closedTables + {t}, repeated := s.repeated || t in s.closedTables)
  }

  /** `closeDatasetState`: all of the dataset goes; the slot comes back. */
  function CloseDataset(s: State, d: nat): State
    requires d in s.datasets
  {
    s.(requests := map r | r in s.requests :: if OfTheDataset(s, d, r) then Cancelled(s.requests[r]) else s.requests[r],
       owners := map op | op in s.owners :: if OwnedInDataset(s, d, op) then CancelledOp else s.owners[op],
       datasets := s.datasets[d := Dataset(None, true)],
       tables := map t | t in s.tables :: if s.tables[t].dataset == d then s.tables[t].(closed := true) else s.tables[t],
       holders := s.holders - {d}, slotsInUse := if d in s.holders then s.slotsInUse - 1 else s.slotsInUse,
       closedSources := s.closedSources + {d},
       closedTables := s.closedTables + (set t | t in s.tables && !s.tables[t].closed && s.tables[t].dataset == d),
       repeated := s.repeated || d in s.closedSources)
  }

  /** `cancelActive`: an open request takes its dataset with it. */
  function CancelRequest(s: State, r: nat): State
    requires r in s.requests
  {
    var q := s.requests[r];
    if q.cancelled then s
    else if q.kind == OpenKind && q.dataset.Some? && IsOpen(s, q.dataset.value) then CloseDataset(s, q.dataset.value)
    else CancelAlone(s, r)
  }

  // ---------------------------------------------------------------- what they keep

  lemma CloseDatasetRequests(s: State, d: nat)
    requires Inv(s) && IsOpen(s, d)
    ensures Requests(CloseDataset(s, d))
  {
    var c := CloseDataset(s, d);
    forall r | r in c.active ensures RequestOk(c, r) {
      assert RequestOk(s, r);
      assert DatasetOk(s, d);
    }
    forall r | r in c.requests ensures ArrivalOk(c, r) {
      assert ArrivalOk(s, r);
      assert DatasetOk(s, d);
    }
  }

  lemma CloseDatasetObjects(s: State, d: nat)
    requires Inv(s) && IsOpen(s, d)
    ensures Objects(CloseDataset(s, d))
  {
    var c := CloseDataset(s, d);
    forall e | e in c.datasets ensures DatasetOk(c, e) {
      assert DatasetOk(s, e) && DatasetOk(s, d);
    }
    forall t | t in c.tables ensures TableOk(c, t) {
      assert TableOk(s, t);
    }
  }

  /** Closing a dataset keeps the invariant, and nothing of the dataset is left. */
  lemma CloseDatasetKeeps(s: State, d: nat)
    requires Inv(s) && IsOpen(s, d)
    ensures Inv(CloseDataset(s, d))
    ensures var c := CloseDataset(s, d);
            && !IsOpen(c, d) && (forall t :: IsOpenTable(c, t) ==> c.tables[t].dataset != d)
            && (forall r :: r in c.active && c.requests[r].dataset == Some(d) ==> c.requests[r].cancelled)
  {
    CloseDatasetRequests(s, d);
    CloseDatasetObjects(s, d);
    assert DatasetOk(s, d);
  }

  lemma CloseTableKeeps(s: State, t: nat)
    requires Inv(s) && IsOpenTable(s, t)
    ensures Inv(CloseTable(s, t))
  {
    var c := CloseTable(s, t);
    forall r | r in c.active ensures RequestOk(c, r) {
      assert RequestOk(s, r);
    }
    forall r | r in c.requests ensures ArrivalOk(c, r) {
      assert ArrivalOk(s, r);
    }
    forall e | e in c.datasets ensures DatasetOk(c, e) {
      assert DatasetOk(s, e);
    }
    forall u | u in c.tables ensures TableOk(c, u) {
      assert TableOk(s, u);
    }
  }

  /** Cancelling one request and, with one adapter call, the handle it owns. */
  function CancelAlone(s: State, r: nat): State
    requires r in s.requests
  {
    CancelSome(s.(requests := s.requests[r := Cancelled(s.requests[r])]), s.requests[r].op)
  }

  lemma CancelAloneRequest(s: State, r: nat, p: nat)
    requires Inv(s) && r in s.active && !s.requests[r].cancelled
    requires s.requests[r].op.Some? ==> s.owners[s.requests[r].op.value] == OfRequest(r)
    requires p in s.active
    ensures RequestOk(CancelAlone(s, r), p)
  {
    hide Slots, ArrivalOk, DatasetOk, TableOk;
    assert RequestOk(s, r) && RequestOk(s, p);
  }

  lemma CancelAloneArrival(s: State, r: nat, p: nat)
    requires Inv(s) && r in s.active && !s.requests[r].cancelled
    requires s.requests[r].op.Some? ==> s.owners[s.requests[r].op.value] == OfRequest(r)
    requires p in s.requests
    ensures ArrivalOk(CancelAlone(s, r), p)
  {
    hide Slots, DatasetOk, TableOk;
    assert RequestOk(s, r) && ArrivalOk(s, p);
  }

  lemma CancelAloneDataset(s: State, r: nat, d: nat)
    requires Inv(s) && r in s.active && !s.requests[r].cancelled
    requires s.requests[r].op.Some? ==> s.owners[s.requests[r].op.value] == OfRequest(r)
    requires d in s.datasets
    ensures DatasetOk(CancelAlone(s, r), d)
  {
    hide Slots, ArrivalOk, TableOk;
    assert RequestOk(s, r) && DatasetOk(s, d);
  }

  lemma CancelAloneTable(s: State, r: nat, t: nat)
    requires Inv(s) && r in s.active && !s.requests[r].cancelled
    requires s.requests[r].op.Some? ==> s.owners[s.requests[r].op.value] == OfRequest(r)
    requires t in s.tables
    ensures TableOk(CancelAlone(s, r), t)
  {
    hide Slots, ArrivalOk, DatasetOk;
    assert RequestOk(s, r) && TableOk(s, t);
  }

  lemma CancelAloneSlots(s: State, r: nat)
    requires Inv(s) && r in s.active && !s.requests[r].cancelled
    requires s.requests[r].op.Some? ==> s.owners[s.requests[r].op.value] == OfRequest(r)
    ensures Slots(CancelAlone(s, r)) && !CancelAlone(s, r).repeated
  {
    hide RequestOk, ArrivalOk, DatasetOk, TableOk;
  }

  lemma CancelAloneKeeps(s: State, r: nat)
    requires Inv(s) && r in s.active && !s.requests[r].cancelled
    requires s.requests[r].op.Some? ==> s.owners[s.requests[r].op.value] == OfRequest(r)
    ensures Inv(CancelAlone(s, r))
  {
    var c := CancelAlone(s, r);
    assert RequestOk(s, r);
    CancelAloneSlots(s, r);
    hide RequestOk, ArrivalOk, DatasetOk, TableOk, Slots;
    forall p | p in c.active ensures RequestOk(c, p) {
      CancelAloneRequest(s, r, p);
    }
    forall p | p in c.requests ensures ArrivalOk(c, p) {
      CancelAloneArrival(s, r, p);
    }
    forall d | d in c.datasets ensures DatasetOk(c, d) {
      CancelAloneDataset(s, r, d);
    }
    forall t | t in c.tables ensures TableOk(c, t) {
      CancelAloneTable(s, r, t);
    }
  }

  lemma CancelRequestKeeps(s: State, r: nat)
    requires Inv(s) && r in s.active
    ensures Inv(CancelRequest(s, r)) && CancelRequest(s, r).requests[r].cancelled
  {
    assert RequestOk(s, r);
    var q := s.requests[r];
    if !q.cancelled {
      if q.kind == OpenKind && q.dataset.Some? {
        CloseDatasetKeeps(s, q.dataset.value);
      } else {
        CancelAloneKeeps(s, r);
      }
    }
  }
}
