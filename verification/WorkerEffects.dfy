/**
 What the events of the Worker do, told from outside: which requests, tables, datasets, adapter handles and
 slots are different afterwards, and that nothing else is (`js/worker.ts`).
 */
module WorkerEffects {
  import opened Common
  import opened WorkerState
  import opened WorkerSteps
  import opened WorkerRuns

  // ---------------------------------------------------------------- what does not change

  ghost predicate SameRequestsBut(s: State, c: State, changed: set<nat>) {
    c.requests.Keys == s.requests.Keys && forall r :: r in s.requests && r !in changed ==> c.requests[r] == s.requests[r]
  }

  ghost predicate SameHandlesBut(s: State, c: State, changed: set<nat>) {
    c.owners.Keys == s.owners.Keys && forall op :: op in s.owners && op !in changed ==> c.owners[op] == s.owners[op]
  }

  ghost predicate SameTables(s: State, c: State) {
    c.tables == s.tables && c.closedTables == s.closedTables
  }

  ghost predicate SameDatasets(s: State, c: State) {
    c.datasets == s.datasets && c.closedSources == s.closedSources
  }

  ghost predicate SameHolders(s: State, c: State) {
    c.holders == s.holders && c.slotsInUse == s.slotsInUse
  }

  /** The request was told to stop and has let go of its handle; what it is about stays. */
  predicate Stopped(q: Request, was: Request) {
    q.cancelled && q.op == None && q == was.(cancelled := true, op := None)
  }

  /** The handles that these requests own alone. */
  ghost function HandlesOf(s: State, requests: set<nat>): set<nat> {
    set r | r in requests && r in s.requests && s.requests[r].op.Some? && s.requests[r].op.value in s.owners
            && s.owners[s.requests[r].op.value] == OfRequest(r) :: s.requests[r].op.value
  }

  // ---------------------------------------------------------------- closing a table

  ghost function RequestsOnTable(s: State, t: nat): set<nat> {
    set r | r in s.active && r in s.requests && s.requests[r].table == Some(t)
  }

  /** Table `t` is gone, with the requests on it and their handles; nothing else is touched. */
  ghost predicate TableGone(s: State, c: State, t: nat) {
    && !IsOpenTable(c, t) && t in c.closedTables && c.closedTables == s.closedTables + {t}
    && c.tables.Keys == s.tables.Keys && (forall u :: u in s.tables ==> c.tables[u].dataset == s.tables[u].dataset)
    && (forall u :: u in s.tables && u != t ==> c.tables[u] == s.tables[u])
    && (forall r :: r in RequestsOnTable(s, t) && r in c.requests ==> Stopped(c.requests[r], s.requests[r]))
    && SameRequestsBut(s, c, RequestsOnTable(s, t)) && c.active == s.active
    && (forall op :: op in HandlesOf(s, RequestsOnTable(s, t)) && op in c.owners ==> c.owners[op] == CancelledOp)
    && SameHandlesBut(s, c, HandlesOf(s, RequestsOnTable(s, t)))
    && SameDatasets(s, c) && SameHolders(s, c)
  }

  lemma TableRequests(s: State, t: nat, r: nat)
    requires Inv(s)
    ensures r in RequestsOnTable(s, t) <==> OnTable(s, t, r)
  {
    hide ArrivalOk, DatasetOk, TableOk, Slots;
    if r in RequestsOnTable(s, t) {
      assert RequestOk(s, r);
    }
  }

  lemma TableHandles(s: State, t: nat, op: nat)
    requires Inv(s)
    ensures op in HandlesOf(s, RequestsOnTable(s, t)) <==> OwnedOnTable(s, t, op)
  {
    hide Inv;
    if op in s.owners && s.owners[op].OfRequest? {
      TableRequests(s, t, s.owners[op].request);
    }
    forall r | r in RequestsOnTable(s, t) ensures OnTable(s, t, r) {
      TableRequests(s, t, r);
    }
  }

  lemma CloseTableEffect(s: State, t: nat)
    requires Inv(s) && IsOpenTable(s, t)
    ensures TableGone(s, CloseTable(s, t), t)
  {
    forall r ensures r in RequestsOnTable(s, t) <==> OnTable(s, t, r) {
      TableRequests(s, t, r);
    }
    forall op ensures op in HandlesOf(s, RequestsOnTable(s, t)) <==> OwnedOnTable(s, t, op) {
      TableHandles(s, t, op);
    }
    assert forall op :: OwnedOnTable(s, t, op) ==> op in s.owners;
    assert forall r :: OnTable(s, t, r) ==> r in s.requests;
    hide Inv, RequestsOnTable, HandlesOf, OwnedOnTable, OnTable;
  }

  /** A message that closes a table closes it, with all that goes on on it; one for a table that is not open does nothing. */
  lemma CloseTableMessageCloses(s: State, t: nat)
    requires Inv(s)
    ensures var c := Next(s, CloseTableMessage(t)); if IsOpenTable(s, t) then TableGone(s, c, t) else c == s
  {
    hide TableGone;
    if IsOpenTable(s, t) {
      CloseTableEffect(s, t);
    }
  }

  // ---------------------------------------------------------------- closing a dataset

  ghost function RequestsIn(s: State, d: nat): set<nat> {
    set r | r in s.active && r in s.requests && s.requests[r].dataset == Some(d)
  }

  ghost function ScanHandle(s: State, d: nat): set<nat> {
    set op | op in s.owners && d in s.datasets && s.datasets[d].scanOp == Some(op)
  }

  /** Dataset `d` is gone: its tables, its requests, its scan, their handles and its slot; nothing else is touched. */
  ghost predicate DatasetGone(s: State, c: State, d: nat) {
    && d in s.datasets && c.datasets.Keys == s.datasets.Keys && c.datasets[d] == Dataset(None, true)
    && (forall e :: e in s.datasets && e != d ==> c.datasets[e] == s.datasets[e]) && c.closedSources == s.closedSources + {d}
    && c.tables.Keys == s.tables.Keys
    && (forall t :: t in s.tables ==> if s.tables[t].dataset == d then c.tables[t] == Table(d, true) else c.tables[t] == s.tables[t])
    && (forall t :: t in c.closedTables <==> t in s.closedTables || (t in s.tables && s.tables[t].dataset == d))
    && (forall r :: r in RequestsIn(s, d) && r in c.requests ==> Stopped(c.requests[r], s.requests[r]))
    && SameRequestsBut(s, c, RequestsIn(s, d)) && c.active == s.active
    && (forall op :: op in HandlesOf(s, RequestsIn(s, d)) + ScanHandle(s, d) && op in c.owners ==> c.owners[op] == CancelledOp)
    && SameHandlesBut(s, c, HandlesOf(s, RequestsIn(s, d)) + ScanHandle(s, d))
    && d in s.holders && c.holders == s.holders - {d} && c.slotsInUse == s.slotsInUse - 1
  }

  lemma DatasetHandles(s: State, d: nat, op: nat)
    ensures op in HandlesOf(s, RequestsIn(s, d)) + ScanHandle(s, d) <==> OwnedInDataset(s, d, op)
  {
  }

  lemma ClosedTablesOf(s: State, d: nat, t: nat)
    requires Inv(s) && t in s.tables
    ensures s.tables[t].closed <==> t in s.closedTables
  {
    hide RequestOk, ArrivalOk, DatasetOk, Slots;
    assert TableOk(s, t);
  }

  lemma CloseDatasetEffect(s: State, d: nat)
    requires Inv(s) && IsOpen(s, d)
    ensures DatasetGone(s, CloseDataset(s, d), d)
  {
    forall t | t in s.tables ensures s.tables[t].closed <==> t in s.closedTables {
      ClosedTablesOf(s, d, t);
    }
    InvSlots(s);
    hide Inv, DatasetGone;
    DatasetGoes(s, d);
  }

  lemma CloseSourceMessageCloses(s: State, d: nat)
    requires Inv(s)
    ensures var c := Next(s, CloseSourceMessage(d)); if IsOpen(s, d) then DatasetGone(s, c, d) else c == s
  {
    hide DatasetGone;
    if IsOpen(s, d) {
      CloseDatasetEffect(s, d);
    }
  }

  // ---------------------------------------------------------------- cancelling

  /** One request is stopped, with the handle it owns alone; nothing else is touched. */
  ghost predicate RequestGone(s: State, c: State, r: nat) {
    && r in s.requests && SameRequestsBut(s, c, {r}) && Stopped(c.requests[r], s.requests[r]) && c.active == s.active
    && (forall op :: op in HandlesOf(s, {r}) && op in c.owners ==> c.owners[op] == CancelledOp)
    && SameHandlesBut(s, c, HandlesOf(s, {r}))
    && SameDatasets(s, c) && SameTables(s, c) && SameHolders(s, c)
  }

  lemma CancelAloneEffect(s: State, r: nat)
    requires Inv(s) && r in s.active && !(s.requests[r].kind == OpenKind && s.requests[r].dataset.Some?)
    ensures r in s.requests && RequestGone(s, CancelAlone(s, r), r)
  {
    hide ArrivalOk, DatasetOk, TableOk, Slots;
    assert RequestOk(s, r);
  }

  /**
   A cancel message for an active request stops it, and an open that has its dataset takes it along; one
   for an open dataset, whose open has ended, closes the dataset; any other does nothing.
   */
  lemma CancelMessageCancels(s: State, r: nat)
    requires Inv(s)
    ensures var c := Next(s, CancelMessage(r));
            if IsActive(s, r) then
              if s.requests[r].cancelled then c == s
              else if s.requests[r].kind == OpenKind && s.requests[r].dataset.Some? then DatasetGone(s, c, r) && r in RequestsIn(s, r)
              else RequestGone(s, c, r)
            else if IsOpen(s, r) then DatasetGone(s, c, r)
            else c == s
  {
    hide DatasetGone, RequestGone;
    if IsActive(s, r) {
      RequestOf(s, r);
      if s.requests[r].kind == OpenKind && s.requests[r].dataset.Some? {
        if !s.requests[r].cancelled {
          CloseDatasetEffect(s, r);
        }
      } else {
        CancelAloneEffect(s, r);
      }
    } else if IsOpen(s, r) {
      CloseDatasetEffect(s, r);
    }
  }

  // ---------------------------------------------------------------- for good

  /** What a message has closed or stopped stays so in every later run, and a cancelled handle is never handed on. */
  lemma ClosedTableStays(s: State, t: nat, later: seq<Event>)
    requires Inv(s) && Owners(s) && IsOpenTable(s, t) && Follows(Next(s, CloseTableMessage(t)), later)
    ensures var c := Run(Next(s, CloseTableMessage(t)), later);
            && t in c.tables && c.tables[t].closed && t in c.closedTables
            && (forall r :: r in RequestsOnTable(s, t) ==> r in c.requests && c.requests[r].cancelled)
            && (forall op :: op in HandlesOf(s, RequestsOnTable(s, t)) ==> op in c.owners && c.owners[op] == CancelledOp)
  {
    var n := Next(s, CloseTableMessage(t));
    CloseTableMessageCloses(s, t);
    StepKeeps(s, CloseTableMessage(t));
    StepOwners(s, CloseTableMessage(t));
    RunKeeps(n, later);
    hide Inv, Owners, Next, Run, Follows;
  }

  /** The state after a dataset was closed, at any later time. */
  lemma GoneStays(s: State, n: State, c: State, d: nat)
    requires DatasetGone(s, n, d) && Settles(n, c)
    ensures d in c.datasets && c.datasets[d].closed && d in c.closedSources
    ensures forall t :: t in s.tables && s.tables[t].dataset == d ==> t in c.tables && c.tables[t].closed
    ensures forall r :: r in RequestsIn(s, d) ==> r in c.requests && c.requests[r].cancelled
    ensures forall op :: op in HandlesOf(s, RequestsIn(s, d)) + ScanHandle(s, d) ==> op in c.owners && c.owners[op] == CancelledOp
  {
    assert forall r :: r in RequestsIn(s, d) ==> r in s.requests && r in n.requests;
    assert forall op :: op in HandlesOf(s, RequestsIn(s, d)) + ScanHandle(s, d) ==> op in s.owners && op in n.owners;
    hide RequestsIn, HandlesOf, ScanHandle;
  }

  lemma ClosedDatasetStays(s: State, d: nat, e: Event, later: seq<Event>)
    requires Inv(s) && Owners(s) && IsOpen(s, d) && (e == CloseSourceMessage(d) || (e == CancelMessage(d) && !IsActive(s, d)))
    requires Follows(Next(s, e), later)
    ensures var c := Run(Next(s, e), later);
            && d in c.datasets && c.datasets[d].closed && d in c.closedSources
            && (forall t :: t in s.tables && s.tables[t].dataset == d ==> t in c.tables && c.tables[t].closed)
            && (forall r :: r in RequestsIn(s, d) ==> r in c.requests && c.requests[r].cancelled)
            && (forall op :: op in HandlesOf(s, RequestsIn(s, d)) + ScanHandle(s, d) ==> op in c.owners && c.owners[op] == CancelledOp)
  {
    hide Inv, Owners, Next, Run, Follows, DatasetGone, Settles, Enabled, RequestGone, RequestsIn, HandlesOf, ScanHandle;
    MessageArrives(s, e);
    var n := Next(s, e);
    CloseSourceMessageCloses(s, d);
    CancelMessageCancels(s, d);
    StepKeeps(s, e);
    StepOwners(s, e);
    RunKeeps(n, later);
    GoneStays(s, n, Run(n, later), d);
  }

  lemma MessageArrives(s: State, e: Event)
    requires e.CloseSourceMessage? || e.CancelMessage?
    ensures Enabled(s, e)
  {
  }

  // ---------------------------------------------------------------- a request from its start to its end

  /** Nothing but the request `r` and perhaps the handle `op` is touched. */
  ghost predicate OnlyRequest(s: State, c: State, r: nat, op: Option<nat>) {
    && c.requests.Keys == s.requests.Keys + {r} && (forall p :: p in s.requests && p != r ==> c.requests[p] == s.requests[p])
    && (forall h :: h in s.owners && Some(h) != op ==> h in c.owners && c.owners[h] == s.owners[h])
    && c.owners.Keys == s.owners.Keys + (if op.Some? then {op.value} else {})
    && SameTables(s, c)
  }

  /** A new request is active, has asked for nothing yet, and holds nothing. */
  lemma RequestStarts(s: State, e: Event)
    requires Enabled(s, e) && (e.StartOpen? || e.StartCall?)
    ensures var c, r := Next(s, e), e.request;
            && OnlyRequest(s, c, r, None) && SameDatasets(s, c) && SameHolders(s, c) && r !in s.requests
            && c.active == s.active + {r} && !c.requests[r].cancelled && c.requests[r].op == None && c.requests[r].arrival == Idle
            && !c.requests[r].slot && (c.requests[r].kind == OpenKind <==> e.StartOpen?)
            && (if e.StartOpen? then c.requests[r].dataset == None && c.requests[r].table == None
                else c.requests[r].dataset == Some(e.dataset) && c.requests[r].table == e.onTable
                     && (c.requests[r].kind == RangeKind <==> e.range))
  {
  }

  /** An open gets its slot exactly if one is free; otherwise it ends there. */
  lemma SlotIsReserved(s: State, r: nat)
    requires Inv(s) && Enabled(s, ReserveSlot(r))
    ensures var c := Next(s, ReserveSlot(r));
            && OnlyRequest(s, c, r, None) && SameDatasets(s, c)
            && (if s.slotsInUse < MAX_SOURCES
                then r !in s.holders && c.holders == s.holders + {r} && c.slotsInUse == s.slotsInUse + 1 && c.active == s.active
                     && c.requests[r] == s.requests[r].(slot := true)
                else SameHolders(s, c) && c.requests == s.requests && c.active == s.active - {r})
  {
    SlotReservedIsNext(s, r);
    FreeOpen(s, r);
    hide Next, Enabled, Inv;
    ReservesSlot(s, r);
  }

  lemma FreeOpen(s: State, r: nat)
    requires Inv(s) && Enabled(s, ReserveSlot(r))
    ensures r in s.requests && r !in s.holders
  {
    InvSlots(s);
    ArrivalOf(s, r);
    hide Inv, Next;
    assert !IsOpen(s, r) && !s.requests[r].slot;
  }

  lemma ReservesSlot(s: State, r: nat)
    requires r in s.requests && r !in s.holders
    ensures var c := SlotReserved(s, r);
            && OnlyRequest(s, c, r, None) && SameDatasets(s, c)
            && (if s.slotsInUse < MAX_SOURCES
                then r !in s.holders && c.holders == s.holders + {r} && c.slotsInUse == s.slotsInUse + 1 && c.active == s.active
                     && c.requests[r] == s.requests[r].(slot := true)
                else SameHolders(s, c) && c.requests == s.requests && c.active == s.active - {r})
  {
  }

  lemma CallIsBegun(s: State, r: nat)
    requires Enabled(s, Begin(r))
    ensures var c := Next(s, Begin(r));
            && OnlyRequest(s, c, r, None) && SameDatasets(s, c) && SameHolders(s, c) && c.active == s.active
            && c.requests[r] == s.requests[r].(arrival := Begun)
  {
  }

  /** An answer in time waits for its request; one that comes too late is cancelled, with the source that it brings. */
  lemma AnswerIsKept(s: State, r: nat, op: nat, withSource: bool)
    requires Enabled(s, Answer(r, op, withSource))
    ensures var c := Next(s, Answer(r, op, withSource));
            && OnlyRequest(s, c, r, Some(op)) && SameHolders(s, c) && c.active == s.active && c.datasets == s.datasets
            && c.requests[r].cancelled == s.requests[r].cancelled && c.requests[r].op == s.requests[r].op
            && (if s.requests[r].cancelled
                then c.owners[op] == CancelledOp && c.requests[r].arrival == Reclaimed
                     && c.closedSources == s.closedSources + if withSource && s.requests[r].kind == OpenKind then {r} else {}
                else c.owners[op] == Unclaimed(r) && c.requests[r].arrival == Arrived(op) && c.closedSources == s.closedSources)
  {
    AnsweredIsNext(s, r, op, withSource);
    hide Next, Enabled;
    if s.requests[r].cancelled {
      LateAnswer(s, r, op, withSource);
    }
  }

  lemma LateAnswer(s: State, r: nat, op: nat, withSource: bool)
    requires r in s.requests && op !in s.owners && s.requests[r].cancelled
    ensures var c := Answered(s, r, op, withSource);
            && OnlyRequest(s, c, r, Some(op)) && SameHolders(s, c) && c.active == s.active && c.datasets == s.datasets
            && c.requests[r] == s.requests[r].(arrival := Reclaimed) && c.owners[op] == CancelledOp
            && c.closedSources == s.closedSources + if withSource && s.requests[r].kind == OpenKind then {r} else {}
  {
  }

  lemma AnsweredIsNext(s: State, r: nat, op: nat, withSource: bool)
    requires Enabled(s, Answer(r, op, withSource))
    ensures r in s.requests && op !in s.owners && Next(s, Answer(r, op, withSource)) == Answered(s, r, op, withSource)
  {
  }

  /** A request that takes its answer over owns the handle; one that was cancelled meanwhile, or refuses it, leaves it behind. */
  lemma AnswerIsTaken(s: State, e: Event)
    requires Enabled(s, e) && (e.Resume? || e.Refuse?)
    ensures var c, r := Next(s, e), e.request;
            var op := s.requests[r].arrival.op;
            && OnlyRequest(s, c, r, Some(op)) && SameDatasets(s, c) && SameHolders(s, c) && c.active == s.active
            && c.requests[r].arrival == Idle && c.requests[r].cancelled == s.requests[r].cancelled
            && (if e.Resume? && !s.requests[r].cancelled then c.owners[op] == OfRequest(r) && c.requests[r].op == Some(op)
                else c.owners[op] == Dropped && c.requests[r].op == s.requests[r].op)
  {
  }

  /** A run that ends well finishes its handle and lets go of it. */
  lemma OperationCompletes(s: State, r: nat)
    requires Inv(s) && Enabled(s, Complete(r))
    ensures var c, op := Next(s, Complete(r)), s.requests[r].op;
            && OnlyRequest(s, c, r, op) && SameDatasets(s, c) && SameHolders(s, c) && c.active == s.active
            && op.Some? && c.owners[op.value] == Finished && c.requests[r] == s.requests[r].(op := None)
  {
    hide ArrivalOk, DatasetOk, TableOk, Slots;
    assert RequestOk(s, r);
  }

  /** A run that fails cancels its handle; one whose source has changed closes the dataset, with all that goes on in it. */
  lemma OperationFails(s: State, r: nat, sourceChanged: bool)
    requires Inv(s) && Enabled(s, FailStep(r, sourceChanged))
    ensures var c, q := Next(s, FailStep(r, sourceChanged)), s.requests[r];
            if sourceChanged && q.kind != OpenKind && q.dataset.Some? && IsOpen(s, q.dataset.value)
            then DatasetGone(s, c, q.dataset.value) && r in RequestsIn(s, q.dataset.value)
            else && OnlyRequest(s, c, r, q.op) && SameDatasets(s, c) && SameHolders(s, c) && c.active == s.active
                 && (q.op.Some? ==> c.owners[q.op.value] == CancelledOp) && c.requests[r] == q.(op := None)
  {
    var q := s.requests[r];
    RequestOf(s, r);
    FailIsNext(s, r, sourceChanged);
    hide Next, Enabled, DatasetGone, Inv;
    if sourceChanged && q.kind != OpenKind && q.dataset.Some? && IsOpen(s, q.dataset.value) {
      CloseDatasetEffect(s, q.dataset.value);
      StopsWithDataset(s, q.dataset.value, r);
      hide CloseDataset, OwnCancelled;
    } else {
      hide CloseDataset;
      HandleCancelled(s, r);
      hide OwnCancelled;
    }
  }

  lemma HandleCancelled(s: State, r: nat)
    requires IsActive(s, r) && (s.requests[r].op.Some? ==> s.requests[r].op.value in s.owners)
    ensures var c, q := OwnCancelled(s, r), s.requests[r];
            && OnlyRequest(s, c, r, q.op) && SameDatasets(s, c) && SameHolders(s, c) && c.active == s.active
            && (q.op.Some? ==> c.owners[q.op.value] == CancelledOp) && c.requests[r] == q.(op := None)
  {
  }

  lemma FailIsNext(s: State, r: nat, sourceChanged: bool)
    requires Enabled(s, FailStep(r, sourceChanged))
    ensures IsActive(s, r) && Next(s, FailStep(r, sourceChanged)) == StepFailed(s, r, sourceChanged)
  {
  }

  /** A request of a closed dataset has no handle left to cancel. */
  lemma StopsWithDataset(s: State, d: nat, r: nat)
    requires d in s.datasets && IsActive(s, r) && s.requests[r].dataset == Some(d)
    ensures r in RequestsIn(s, d) && r in CloseDataset(s, d).requests && OwnCancelled(CloseDataset(s, d), r) == CloseDataset(s, d)
  {
    var n := CloseDataset(s, d);
    assert n.requests[r].op == None;
    assert n.requests[r := n.requests[r]] == n.requests;
  }

  /** Publishing opens the dataset, gives it the slot of the open and, while it scans, the handle as well. */
  lemma DatasetIsPublished(s: State, r: nat, scanning: bool)
    requires Inv(s) && Enabled(s, Publish(r, scanning))
    ensures var c, q := Next(s, Publish(r, scanning)), s.requests[r];
            && OnlyRequest(s, c, r, if scanning then q.op else None) && SameHolders(s, c) && c.active == s.active
            && c.closedSources == s.closedSources && c.datasets == s.datasets[r := Dataset(if scanning then q.op else None, false)]
            && r !in s.datasets && IsOpen(c, r) && r in c.holders
            && (scanning && q.op.Some? ==> c.owners[q.op.value] == Shared(r))
            && c.requests[r] == q.(dataset := Some(r), slot := false)
  {
    RequestOf(s, r);
    PublishIsNext(s, r, scanning);
    hide Next, Enabled, Inv, DatasetOk;
    PublishesDataset(s, r, scanning);
  }

  lemma PublishIsNext(s: State, r: nat, scanning: bool)
    requires Inv(s) && Enabled(s, Publish(r, scanning))
    ensures Next(s, Publish(r, scanning)) == Published(s, r, scanning) && r !in s.datasets && r in s.holders
  {
    InvSlots(s);
    ArrivalOf(s, r);
    hide Inv;
  }

  lemma PublishesDataset(s: State, r: nat, scanning: bool)
    requires IsActive(s, r) && r !in s.datasets && r in s.holders && (s.requests[r].op.Some? ==> s.requests[r].op.value in s.owners)
    ensures var c, q := Published(s, r, scanning), s.requests[r];
            && OnlyRequest(s, c, r, if scanning then q.op else None) && SameHolders(s, c) && c.active == s.active
            && c.closedSources == s.closedSources && c.datasets == s.datasets[r := Dataset(if scanning then q.op else None, false)]
            && r !in s.datasets && IsOpen(c, r) && r in c.holders
            && (scanning && q.op.Some? ==> c.owners[q.op.value] == Shared(r))
            && c.requests[r] == q.(dataset := Some(r), slot := false)
  {
  }

  /** The end of the scan finishes the handle, and neither dataset nor open holds it any more. */
  lemma ScanIsDone(s: State, d: nat)
    requires Inv(s) && Enabled(s, ScanDone(d))
    ensures var c, op := Next(s, ScanDone(d)), s.datasets[d].scanOp;
            && OnlyRequest(s, c, d, op) && SameHolders(s, c) && c.active == s.active && c.closedSources == s.closedSources
            && c.datasets == s.datasets[d := Dataset(None, false)] && op.Some? && c.owners[op.value] == Finished
            && c.requests[d] == if s.requests[d].op == op then s.requests[d].(op := None) else s.requests[d]
  {
    IsPublished(s, d);
    ScanIsNext(s, d);
    hide Next, Enabled, Inv;
  }

  lemma ScanIsNext(s: State, d: nat)
    requires Enabled(s, ScanDone(d))
    ensures IsOpen(s, d) && d in s.requests && s.datasets[d].scanOp.Some? && Next(s, ScanDone(d)) == Scanned(s, d)
  {
  }

  /** An open that has succeeded leaves its handle, if it still scans, to the dataset. */
  lemma OpenIsFinished(s: State, r: nat)
    requires Inv(s) && Enabled(s, FinishOpen(r))
    ensures var c, op := Next(s, FinishOpen(r)), s.requests[r].op;
            && OnlyRequest(s, c, r, op) && SameDatasets(s, c) && SameHolders(s, c) && c.active == s.active - {r}
            && (op.Some? ==> c.owners[op.value] == OfDataset(r)) && c.requests[r] == s.requests[r].(op := None) && IsOpen(c, r)
  {
    hide ArrivalOk, TableOk, Slots;
    assert RequestOk(s, r) && DatasetOk(s, r);
  }

  /** The open as it leaves: no longer active, and a handle that it alone owns is left behind. */
  ghost function WithoutOpen(s: State, r: nat): State
    requires r in s.requests
  {
    var alone := HandlesOf(s, {r});
    s.(active := s.active - {r},
       requests := s.requests[r := if alone == {} then s.requests[r] else s.requests[r].(op := None)],
       owners := map op | op in s.owners :: if op in alone then Dropped else s.owners[op])
  }

  lemma LeavesHandle(s: State, r: nat)
    requires r in s.requests
    ensures HandleDropped(s, r).(active := s.active - {r}) == WithoutOpen(s, r)
  {
    var c := HandleDropped(s, r);
    var q := s.requests[r];
    if q.op.Some? && q.op.value in s.owners && s.owners[q.op.value] == OfRequest(r) {
      assert HandlesOf(s, {r}) == {q.op.value};
      assert c.owners == WithoutOpen(s, r).owners;
    } else {
      assert HandlesOf(s, {r}) == {};
      assert s.requests[r := q] == s.requests;
      assert c.owners == WithoutOpen(s, r).owners;
    }
  }

  /** An open that fails closes its dataset, or its source if it has got no dataset, and gives its slot back. */
  lemma OpenFails(s: State, r: nat, known: bool)
    requires Inv(s) && Enabled(s, FailOpen(r, known))
    ensures var c, m := Next(s, FailOpen(r, known)), WithoutOpen(s, r);
            if IsOpen(s, r) then DatasetGone(m, c, r)
            else && OnlyRequest(m, c, r, None) && c.active == m.active && c.datasets == m.datasets
                 && c.requests[r] == m.requests[r].(slot := false)
                 && c.closedSources == m.closedSources + (if r !in s.datasets && known then {r} else {})
                 && r !in c.holders && c.holders == m.holders - {r} && c.slotsInUse == m.slotsInUse - if r in m.holders then 1 else 0
  {
    LeavesHandle(s, r);
    FailOpenIsNext(s, r, known);
    InvSlots(s);
    var m := WithoutOpen(s, r);
    hide Next, Enabled, HandleDropped;
    if IsOpen(s, r) {
      OpenFailsOpen(s, r);
      hide Inv, WithoutOpen, DatasetGone, CloseDataset;
      assert m.active - {r} == m.active;
    } else {
      hide Inv;
      assert r in s.holders <==> s.requests[r].slot;
      hide Slots, WithoutOpen;
      OpenGoes(m, r, known);
    }
  }

  lemma OpenFailsOpen(s: State, r: nat)
    requires Inv(s) && IsOpen(s, r) && r in s.requests
    ensures var m := WithoutOpen(s, r); IsOpen(m, r) && DatasetGone(m, CloseDataset(m, r), r)
  {
    var m := WithoutOpen(s, r);
    InvSlots(s);
    forall t | t in m.tables ensures m.tables[t].closed <==> t in m.closedTables {
      ClosedTablesOf(s, r, t);
    }
    hide Inv, DatasetGone, CloseDataset;
    assert IsOpen(m, r) && r in m.holders;
    DatasetGoes(m, r);
  }

  lemma FailOpenIsNext(s: State, r: nat, known: bool)
    requires Enabled(s, FailOpen(r, known))
    ensures r in s.requests && r in HandleDropped(s, r).requests
    ensures Next(s, FailOpen(r, known)) == OpenLeft(HandleDropped(s, r).(active := s.active - {r}), r, known)
    ensures WithoutOpen(s, r).datasets == s.datasets && WithoutOpen(s, r).holders == s.holders && r !in WithoutOpen(s, r).active
    ensures WithoutOpen(s, r).requests[r].slot == s.requests[r].slot && r in WithoutOpen(s, r).requests
  {
    assert HandleDropped(s, r).active == s.active;
    assert s.active - {r} - {r} == s.active - {r};
  }

  lemma OpenGoes(m: State, r: nat, known: bool)
    requires r in m.requests && r !in m.active && !IsOpen(m, r) && (r in m.holders <==> m.requests[r].slot)
    ensures var c := OpenLeft(m, r, known);
            && OnlyRequest(m, c, r, None) && c.active == m.active && c.datasets == m.datasets
            && c.requests[r] == m.requests[r].(slot := false)
            && c.closedSources == m.closedSources + (if r !in m.datasets && known then {r} else {})
            && r !in c.holders && c.holders == m.holders - {r} && c.slotsInUse == m.slotsInUse - if r in m.holders then 1 else 0
  {
    if m.requests[r].slot {
      assert r in m.holders;
    } else {
      assert m.holders - {r} == m.holders;
      assert m.requests[r].(slot := false) == m.requests[r];
    }
    assert m.active - {r} == m.active;
    hide IsOpen;
    SourceThenSlot(m, r, known);
  }

  lemma SourceThenSlot(m: State, r: nat, known: bool)
    requires r in m.requests && !IsOpen(m, r) && m.active - {r} == m.active
    ensures var closed := m.closedSources + (if r !in m.datasets && known then {r} else {});
            var c := OpenLeft(m, r, known);
            c == if m.requests[r].slot
                 then m.(closedSources := closed, requests := m.requests[r := m.requests[r].(slot := false)], holders := m.holders - {r},
                         slotsInUse := m.slotsInUse - 1, repeated := c.repeated)
                 else m.(closedSources := closed, repeated := c.repeated)
  {
  }

  lemma DatasetGoes(s: State, d: nat)
    requires IsOpen(s, d) && d in s.holders && forall t :: t in s.tables ==> (s.tables[t].closed <==> t in s.closedTables)
    ensures DatasetGone(s, CloseDataset(s, d), d)
  {
    forall op ensures op in HandlesOf(s, RequestsIn(s, d)) + ScanHandle(s, d) <==> OwnedInDataset(s, d, op) {
      DatasetHandles(s, d, op);
    }
    hide HandlesOf, ScanHandle, OwnedInDataset;
  }

  lemma TableIsPublished(s: State, r: nat, t: nat)
    requires Enabled(s, PublishTable(r, t))
    ensures var c := Next(s, PublishTable(r, t));
            && c.tables == s.tables[t := Table(s.requests[r].dataset.value, false)] && t !in s.tables && IsOpenTable(c, t)
            && c.closedTables == s.closedTables && c.requests == s.requests && c.owners == s.owners && c.active == s.active
            && SameDatasets(s, c) && SameHolders(s, c)
  {
  }

  lemma CallEnds(s: State, r: nat)
    requires Enabled(s, EndCall(r))
    ensures var c := Next(s, EndCall(r));
            && r in s.active && c.active == s.active - {r} && c.requests == s.requests && c.owners == s.owners
            && SameTables(s, c) && SameDatasets(s, c) && SameHolders(s, c)
  {
  }
}
