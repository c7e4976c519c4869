/**
 The Worker's handlers as methods that update its maps: cancelling and closing, which call each other,
 the stretches of an open, a range read or a table call between two awaits, and the messages.
 */
module WorkerLifecycle {
  import opened Common
  import opened WorkerState
  import opened WorkerSteps
  import opened WorkerRuns
  import opened WorkerStages

  /** The module-level maps of the Worker; what is ghost records calls into the adapter and their effect. */
  class Worker {
    var requests: map<nat, Request>
    var activeRequests: set<nat>
    var datasets: map<nat, Dataset>
    var tables: map<nat, Table>
    var unreleasedSlots: set<nat>
    var sourceSlotsInUse: int
    ghost var owners: map<nat, Owner>
    ghost var closedSources: set<nat>
    ghost var closedTables: set<nat>
    ghost var repeated: bool

    ghost function View(): State
      reads this
    {
      State(requests, activeRequests, datasets, tables, owners, unreleasedSlots, sourceSlotsInUse, closedSources, closedTables, repeated)
    }

    constructor ()
      ensures View() == START && Inv(View())
    {
      requests, activeRequests, datasets, tables := map[], {}, map[], map[];
      unreleasedSlots, sourceSlotsInUse := {}, 0;
      owners, closedSources, closedTables, repeated := map[], {}, {}, false;
    }

    /** `adapter.cancelOperation`. */
    ghost method AdapterCancels(op: nat)
      modifies this`owners, this`repeated
      ensures View() == CancelOp(old(View()), op)
    {
      repeated := repeated || (op in owners && owners[op] == CancelledOp);
      owners := owners[op := CancelledOp];
    }

    /** The closure that `reserveSourceSlot` returns: it gives the slot back once. */
    method ReleaseSlot(d: nat)
      modifies this`unreleasedSlots, this`sourceSlotsInUse
      ensures unreleasedSlots == old(unreleasedSlots) - {d}
      ensures sourceSlotsInUse == if d in old(unreleasedSlots) then old(sourceSlotsInUse) - 1 else old(sourceSlotsInUse)
    {
      if d in unreleasedSlots {
        unreleasedSlots := unreleasedSlots - {d};
        sourceSlotsInUse := sourceSlotsInUse - 1;
      }
    }

    method CancelOwnedOperation(r: nat)
      requires r in requests
      modifies this`requests, this`owners, this`repeated
      ensures View() == CancelSome(old(View()).(requests := old(requests)[r := old(requests)[r].(op := None)]), old(requests)[r].op)
    {
      var handle := requests[r].op;
      requests := requests[r := requests[r].(op := None)];
      if handle.Some? {
        AdapterCancels(handle.value);
      }
    }

    /** The first half of `cancelActive`, up to the adapter call. */
    method MarkCancelled(r: nat)
      requires Handles(View()) && r in activeRequests && r in requests && !requests[r].cancelled
      modifies this
      ensures var q := old(requests[r]);
              View() == if q.kind == OpenKind && q.dataset.Some? && IsOpen(old(View()), q.dataset.value)
                        then OpenCancelled(old(View()), r) else CancelAlone(old(View()), r)
    {
      hide Handles, Live, CancelOp;
      ghost var s := View();
      var q := requests[r];
      requests := requests[r := requests[r].(cancelled := true)];
      assert q.kind == OpenKind && q.dataset.Some? ==> q.dataset.value == r by { HandleOf(s, r); }
      if q.kind == OpenKind && q.dataset.Some? {
        var d := q.dataset.value;
        if d in datasets && !datasets[d].closed && q.op.Some? && datasets[d].scanOp == q.op {
          requests := requests[r := requests[r].(op := None)];
        }
      }
      assert requests[r := requests[r].(op := None)] == s.requests[r := Cancelled(q)];
      CancelOwnedOperation(r);
    }

    method CancelActive(r: nat)
      requires Handles(View()) && r in activeRequests
      modifies this
      ensures View() == CancelRequest(old(View()), r)
      decreases Live(View())
    {
      hide Live, CloseDataset, CancelAlone, OpenCancelled;
      ghost var s := View();
      HandleOf(s, r);
      var q := requests[r];
      if q.cancelled {
        return;
      }
      MarkCancelled(r);
      CancelledKind(s, r);
      if q.kind == OpenKind && q.dataset.Some? && q.dataset.value in datasets && !datasets[q.dataset.value].closed {
        CancelThenClose(s, r);
        CloseDatasetState(q.dataset.value);
      }
    }

    method CloseTableState(t: nat)
      requires Handles(View()) && IsOpenTable(View(), t)
      modifies this
      ensures View() == CloseTable(old(View()), t)
      decreases Live(View())
    {
      hide Live, Fewer, Handles, TableClosing, CancelRequest, CloseTable;
      ghost var s := View();
      tables := tables[t := tables[t].(closed := true)];
      var todo := set r | r in activeRequests && r in requests && requests[r].kind != OpenKind && requests[r].table == Some(t);
      ghost var done: set<nat> := {};
      assert todo == OnTables(s, {t});
      TableClosingStart(s, t);
      hide OnTables;
      while todo != {}
        invariant done + todo == OnTables(s, {t}) && done !! todo
        invariant View() == TableClosing(s, t, done)
        decreases todo
      {
        var r :| r in todo;
        assert done <= s.active by { OnTablesActive(s, {t}); }
        TableClosingHandles(s, t, done);
        TableClosingStep(s, t, done, r);
        CancelActive(r);
        todo, done := todo - {r}, done + {r};
      }
      assert done == OnTables(s, {t});
      TableClosingEnds(s, t);
      ClosesTable(t);
    }

    /** `adapter.closeTable`. */
    ghost method ClosesTable(t: nat)
      modifies this`closedTables, this`repeated
      ensures View() == old(View()).(closedTables := old(closedTables) + {t}, repeated := old(repeated) || t in old(closedTables))
    {
      repeated := repeated || t in closedTables;
      closedTables := closedTables + {t};
    }

    /** `adapter.closeSource`. */
    ghost method ClosesSource(d: nat)
      modifies this`closedSources, this`repeated
      ensures View() == CloseSource(old(View()), d)
    {
      repeated := repeated || d in closedSources;
      closedSources := closedSources + {d};
    }

    /** Marks the dataset closed and takes its scan handle, also from the open that still shares it. */
    method TakeScan(d: nat)
      requires Handles(View()) && IsOpen(View(), d)
      modifies this
      ensures View() == ScanGone(old(View()), d)
    {
      ghost var s := View();
      assert ScanOk(s, d);
      var scan := datasets[d].scanOp;
      datasets := datasets[d := Dataset(None, true)];
      if scan.Some? {
        requests := map r | r in requests ::
          if r in activeRequests && requests[r].kind == OpenKind && requests[r].dataset == Some(d) && requests[r].op == scan
          then requests[r].(op := None) else requests[r];
        AdapterCancels(scan.value);
      }
    }

    method CloseDatasetState(d: nat)
      requires Handles(View()) && IsOpen(View(), d)
      modifies this
      ensures View() == CloseDataset(old(View()), d)
      decreases Live(View())
    {
      hide Live, Fewer, ScanGone, CloseDataset, TablesGone, CancelledSome, Handles;
      ghost var s := View();
      var ts := set t | t in tables && !tables[t].closed && tables[t].dataset == d;
      TakeScan(d);
      ScanGoneHandles(s, d);
      ScanGoneTables(s, d);
      CloseTables(d, ts, s);
      CancelRequestsOf(d, s, View());
      ReleaseSlot(d);
      ClosesSource(d);
      StagesCloseDataset(s, d, ts);
    }

    method CloseTables(d: nat, ts: set<nat>, ghost s: State)
      requires Handles(View()) && Live(View()) < Live(s)
      requires forall t :: t in ts ==> IsOpenTable(View(), t)
      modifies this
      ensures View() == TablesGone(old(View()), ts) && Handles(View()) && Live(View()) < Live(s)
      ensures IsOpen(View(), d) == IsOpen(old(View()), d)
      decreases Live(s), 0
    {
      hide Live, Fewer, TablesGone, CloseTable, Handles;
      var todo := ts;
      ghost var g := View();
      ghost var done: set<nat> := {};
      NoTablesGone(g);
      while todo != {}
        invariant done + todo == ts && done !! todo
        invariant View() == TablesGone(g, done)
        decreases todo
      {
        var t :| t in todo;
        assert done <= g.tables.Keys && IsOpenTable(g, t);
        TableStep(g, done, t);
        CloseTableState(t);
        todo, done := todo - {t}, done + {t};
      }
      assert done == ts;
      TablesGoneEnd(g, ts, d);
    }

    method CancelRequestsOf(d: nat, ghost s: State, ghost g: State)
      requires View() == g && Handles(g) && Live(g) < Live(s) && !IsOpen(g, d)
      modifies this
      ensures View() == CancelledSome(g, InDataset(g, d))
      decreases Live(s), 0
    {
      hide Live, Fewer, CancelledSome, CancelRequest, Handles;
      var todo := set r | r in activeRequests && r in requests && requests[r].dataset == Some(d);
      ghost var done: set<nat> := {};
      assert todo == InDataset(g, d);
      CancelledNone(g);
      hide InDataset;
      while todo != {}
        invariant done + todo == InDataset(g, d) && done !! todo
        invariant View() == CancelledSome(g, done)
        decreases todo
      {
        var r :| r in todo;
        CancelStep(g, d, done, r);
        CancelActive(r);
        todo, done := todo - {r}, done + {r};
      }
      assert done == InDataset(g, d);
    }

    // -------------------------------------------------------------- the stretches between awaits

    /** The ghost side of a handle changing hands. */
    ghost method Hands(op: Option<nat>, owner: Owner)
      modifies this`owners
      ensures View() == Owned(old(View()), op, owner)
    {
      if op.Some? {
        owners := owners[op.value := owner];
      }
    }

    method StartOpen(r: nat)
      requires r !in requests
      modifies this`requests, this`activeRequests
      ensures View() == Next(old(View()), Event.StartOpen(r))
    {
      requests := requests[r := Request(OpenKind, None, None, false, None, Idle, false)];
      activeRequests := activeRequests + {r};
    }

    method StartCall(r: nat, d: nat, t: Option<nat>, range: bool)
      requires Enabled(View(), Event.StartCall(r, d, t, range))
      modifies this`requests, this`activeRequests
      ensures View() == Next(old(View()), Event.StartCall(r, d, t, range))
    {
      requests := requests[r := Request(if range then RangeKind else AsyncKind, Some(d), t, false, None, Idle, false)];
      activeRequests := activeRequests + {r};
    }

    /** `reserveSourceSlot`, with the `finally` of `openSource` when there is no slot. */
    method ReserveSourceSlot(r: nat) returns (reserved: bool)
      requires Enabled(View(), ReserveSlot(r))
      modifies this
      ensures View() == Next(old(View()), ReserveSlot(r))
      ensures reserved <==> old(sourceSlotsInUse) < MAX_SOURCES
    {
      if sourceSlotsInUse >= MAX_SOURCES {
        activeRequests := activeRequests - {r};
        return false;
      }
      sourceSlotsInUse := sourceSlotsInUse + 1;
      unreleasedSlots := unreleasedSlots + {r};
      requests := requests[r := requests[r].(slot := true)];
      return true;
    }

    method BeginOperation(r: nat)
      requires Enabled(View(), Begin(r))
      modifies this`requests
      ensures View() == Next(old(View()), Begin(r))
    {
      requests := requests[r := requests[r].(arrival := Begun)];
    }

    /** The `then` that every `begin…` call carries: `cleanupLateAdapterStep` if the request was cancelled. */
    method TakeAnswer(r: nat, op: nat, withSource: bool)
      requires Enabled(View(), Answer(r, op, withSource))
      modifies this
      ensures View() == Next(old(View()), Answer(r, op, withSource))
    {
      if requests[r].cancelled {
        requests := requests[r := requests[r].(arrival := Reclaimed)];
        AdapterCancels(op);
        if withSource && requests[r].kind == OpenKind {
          ClosesSource(r);
        }
      } else {
        requests := requests[r := requests[r].(arrival := Arrived(op))];
        Hands(Some(op), Unclaimed(r));
      }
    }

    /** A run loop takes its first step over, after `throwIfCancelled`. */
    method ResumeOperation(r: nat) returns (thrown: bool)
      requires Enabled(View(), Resume(r))
      modifies this
      ensures View() == Next(old(View()), Resume(r))
      ensures thrown <==> old(requests)[r].cancelled
    {
      var q := requests[r];
      if q.cancelled {
        requests := requests[r := q.(arrival := Idle)];
        Hands(Some(q.arrival.op), Dropped);
        return true;
      }
      requests := requests[r := q.(arrival := Idle, op := Some(q.arrival.op))];
      Hands(Some(q.arrival.op), OfRequest(r));
      return false;
    }

    /** The check of the first step throws before the run loop has its handle. */
    method RefuseOperation(r: nat)
      requires Enabled(View(), Refuse(r))
      modifies this
      ensures View() == Next(old(View()), Refuse(r))
    {
      Hands(Some(requests[r].arrival.op), Dropped);
      requests := requests[r := requests[r].(arrival := Idle)];
    }

    method CompleteOperation(r: nat)
      requires Enabled(View(), Complete(r))
      modifies this
      ensures View() == Next(old(View()), Complete(r))
    {
      Hands(requests[r].op, Finished);
      requests := requests[r := requests[r].(op := None)];
    }

    /** The `catch` and `finally` of the run loops. */
    method FailOperation(r: nat, sourceChanged: bool)
      requires Inv(View()) && Enabled(View(), FailStep(r, sourceChanged))
      modifies this
      ensures View() == Next(old(View()), FailStep(r, sourceChanged))
    {
      hide CloseDataset;
      InvHandles(View());
      var q := requests[r];
      if sourceChanged && q.kind != OpenKind && q.dataset.Some? && q.dataset.value in datasets && !datasets[q.dataset.value].closed {
        CloseDatasetActive(View(), q.dataset.value, r);
        CloseDatasetState(q.dataset.value);
      }
      CancelOwnedOperation(r);
    }

    method PublishDataset(r: nat, scanning: bool)
      requires Enabled(View(), Publish(r, scanning))
      modifies this
      ensures View() == Next(old(View()), Publish(r, scanning))
    {
      var op := if scanning then requests[r].op else None;
      datasets := datasets[r := Dataset(op, false)];
      requests := requests[r := requests[r].(dataset := Some(r), slot := false)];
      Hands(op, Shared(r));
    }

    /** The scan reports its end: both references to the handle go. */
    method EndScan(d: nat)
      requires Enabled(View(), ScanDone(d))
      modifies this
      ensures View() == Next(old(View()), ScanDone(d))
    {
      var op := datasets[d].scanOp;
      datasets := datasets[d := Dataset(None, false)];
      if requests[d].op == op {
        requests := requests[d := requests[d].(op := None)];
      }
      Hands(op, Finished);
    }

    method EndOpen(r: nat)
      requires Enabled(View(), FinishOpen(r))
      modifies this
      ensures View() == Next(old(View()), FinishOpen(r))
    {
      Hands(requests[r].op, OfDataset(r));
      requests := requests[r := requests[r].(op := None)];
      activeRequests := activeRequests - {r};
    }

    /** The `finally` of `openSource` when the open has failed. */
    method FailOpening(r: nat, sourceKnown: bool)
      requires Inv(View()) && Enabled(View(), FailOpen(r, sourceKnown))
      modifies this
      ensures View() == Next(old(View()), FailOpen(r, sourceKnown))
    {
      hide CloseDataset, Inv, OpenLeft, HandleDropped, Handles;
      FailOpenHandles(View(), r);
      LoseHandle(r);
      LeaveOpen(r, sourceKnown);
    }

    method LeaveOpen(r: nat, sourceKnown: bool)
      requires r in requests && (requests[r].slot ==> r in unreleasedSlots)
      requires Handles(View().(active := View().active - {r}))
      modifies this
      ensures View() == OpenLeft(old(View()), r, sourceKnown)
    {
      hide CloseDataset, Handles, WithoutSlot;
      activeRequests := activeRequests - {r};
      if r in datasets && !datasets[r].closed {
        CloseDatasetState(r);
      } else {
        if r !in datasets && sourceKnown {
          ClosesSource(r);
        }
        ReleaseReserved(r);
      }
    }

    /** The slot of an open that has no dataset yet. */
    method ReleaseReserved(r: nat)
      requires r in requests && (requests[r].slot ==> r in unreleasedSlots)
      modifies this
      ensures View() == WithoutSlot(old(View()), r)
    {
      if requests[r].slot {
        requests := requests[r := requests[r].(slot := false)];
        ReleaseSlot(r);
      }
    }

    /** What a failed open still held goes with its request object. */
    method LoseHandle(r: nat)
      requires r in requests
      requires requests[r].op.Some? ==> requests[r].op.value in owners
      requires requests[r].op.Some? ==>
                 (owners[requests[r].op.value] == OfRequest(r) <==> !(r in datasets && datasets[r].scanOp == requests[r].op))
      modifies this`requests, this`owners
      ensures View() == HandleDropped(old(View()), r)
    {
      var op := requests[r].op;
      if op.Some? && !(r in datasets && datasets[r].scanOp == op) {
        requests := requests[r := requests[r].(op := None)];
        Hands(op, Dropped);
      }
    }

    method RegisterTable(r: nat, t: nat)
      requires Enabled(View(), PublishTable(r, t))
      modifies this`tables
      ensures View() == Next(old(View()), PublishTable(r, t))
    {
      tables := tables[t := Table(requests[r].dataset.value, false)];
    }

    method EndRequest(r: nat)
      requires Enabled(View(), EndCall(r))
      modifies this`activeRequests
      ensures View() == Next(old(View()), EndCall(r))
    {
      activeRequests := activeRequests - {r};
    }

    // -------------------------------------------------------------- messages

    method Cancel(target: nat) returns (cancelled: bool)
      requires Inv(View())
      modifies this
      ensures View() == Next(old(View()), CancelMessage(target))
      ensures cancelled <==> IsActive(old(View()), target) || IsOpen(old(View()), target)
    {
      hide Inv, CloseDataset, CancelRequest;
      InvHandles(View());
      if target in activeRequests && target in requests {
        CancelActive(target);
        return true;
      }
      if target in datasets && !datasets[target].closed {
        CloseDatasetState(target);
        return true;
      }
      return false;
    }

    method CloseTableHandle(t: nat)
      requires Inv(View())
      modifies this
      ensures View() == Next(old(View()), CloseTableMessage(t))
    {
      hide Inv, CloseTable;
      InvHandles(View());
      if t in tables && !tables[t].closed {
        CloseTableState(t);
      }
    }

    method CloseDatasetHandle(d: nat)
      requires Inv(View())
      modifies this
      ensures View() == Next(old(View()), CloseSourceMessage(d))
    {
      hide Inv, CloseDataset;
      InvHandles(View());
      if d in datasets && !datasets[d].closed {
        CloseDatasetState(d);
      }
    }

    /** One event of a run. */
    method Handle(e: Event)
      requires Inv(View()) && Enabled(View(), e)
      modifies this
      ensures View() == Next(old(View()), e) && Inv(View())
    {
      hide Inv, Next, Enabled;
      StepKeeps(View(), e);
      match e
      case StartOpen(r) => NewRequest(View(), e); StartOpen(r);
      case ReserveSlot(r) => var _ := ReserveSourceSlot(r);
      case StartCall(r, d, t, range) => StartCall(r, d, t, range);
      case Begin(r) => BeginOperation(r);
      case Answer(r, op, withSource) => TakeAnswer(r, op, withSource);
      case Resume(r) => var _ := ResumeOperation(r);
      case Refuse(r) => RefuseOperation(r);
      case Complete(r) => CompleteOperation(r);
      case FailStep(r, changed) => FailOperation(r, changed);
      case Publish(r, scanning) => PublishDataset(r, scanning);
      case ScanDone(d) => EndScan(d);
      case FinishOpen(r) => EndOpen(r);
      case FailOpen(r, known) => FailOpening(r, known);
      case PublishTable(r, t) => RegisterTable(r, t);
      case EndCall(r) => EndRequest(r);
      case CancelMessage(r) => var _ := Cancel(r);
      case CloseTableMessage(t) => CloseTableHandle(t);
      case CloseSourceMessage(d) => CloseDatasetHandle(d);
    }

    /** `shutdown`: every active request is cancelled, then every dataset still open is closed. */
    method Shutdown() returns (ghost es: seq<Event>)
      requires Inv(View())
      modifies this
      ensures Follows(old(View()), es) && View() == Run(old(View()), es) && Inv(View())
      ensures forall e :: e in es ==> e.CancelMessage? || e.CloseSourceMessage?
      ensures forall r :: r in activeRequests ==> r in requests && requests[r].cancelled
      ensures forall d :: d in datasets ==> datasets[d].closed
      ensures forall t :: t in tables ==> tables[t].closed
    {
      hide Inv, Next, Enabled;
      var todo := activeRequests;
      es := [];
      while todo != {}
        invariant Follows(old(View()), es) && View() == Run(old(View()), es) && Inv(View())
        invariant forall e :: e in es ==> e.CancelMessage? || e.CloseSourceMessage?
        invariant todo <= activeRequests
        invariant forall r :: r in activeRequests && r !in todo ==> r in requests && requests[r].cancelled
        decreases todo
      {
        var r :| r in todo;
        CancelledNow(View(), r);
        MessagesAlwaysArrive(View(), r);
        RunOneMore(old(View()), es, CancelMessage(r));
        var _ := Cancel(r);
        todo, es := todo - {r}, es + [CancelMessage(r)];
      }
      var left := set d | d in datasets && !datasets[d].closed;
      while left != {}
        invariant Follows(old(View()), es) && View() == Run(old(View()), es) && Inv(View())
        invariant forall e :: e in es ==> e.CancelMessage? || e.CloseSourceMessage?
        invariant forall r :: r in activeRequests ==> r in requests && requests[r].cancelled
        invariant forall d :: d in datasets && d !in left ==> datasets[d].closed
        decreases left
      {
        var d :| d in left;
        ClosedNow(View(), d);
        MessagesAlwaysArrive(View(), d);
        RunOneMore(old(View()), es, CloseSourceMessage(d));
        CloseDatasetHandle(d);
        left, es := left - {d}, es + [CloseSourceMessage(d)];
      }
      NoTablesWithoutDatasets(View());
    }
  }
}
