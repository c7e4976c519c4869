/**
 The Worker as a state machine.  Each event is one synchronous stretch of a handler between two
 awaits; `Enabled` says at which point of its code the handler is, and `Next` what the stretch does.
 Every sequence of enabled events is a run, in any interleaving of requests.
 */
module WorkerSteps {
  import opened Common
  import opened WorkerState

  datatype Event =
    | StartOpen(request: nat)
    | ReserveSlot(request: nat)
    | StartCall(request: nat, dataset: nat, onTable: Option<nat>, range: bool)
    | Begin(request: nat)
    | Answer(request: nat, op: nat, withSource: bool)
    | Resume(request: nat)
    | Refuse(request: nat)
    | Complete(request: nat)
    | FailStep(request: nat, sourceChanged: bool)
    | Publish(request: nat, scanning: bool)
    | ScanDone(dataset: nat)
    | FinishOpen(request: nat)
    | FailOpen(request: nat, sourceKnown: bool)
    | PublishTable(request: nat, table: nat)
    | EndCall(request: nat)
    | CancelMessage(request: nat)
    | CloseTableMessage(table: nat)
    | CloseSourceMessage(dataset: nat)

  predicate IsActive(s: State, r: nat) {
    r in s.active && r in s.requests
  }

  predicate Unpublished(s: State, r: nat) {
    IsActive(s, r) && s.requests[r].kind == OpenKind && s.requests[r].dataset == None
  }

  /** A handler never ends with an answer in hand, nor uncancelled while it waits for one. */
  predicate MayEnd(q: Request) {
    !q.arrival.Arrived? && (q.arrival == Begun ==> q.cancelled)
  }

  predicate Enabled(s: State, e: Event) {
    match e
    case StartOpen(r) => r !in s.requests
    case ReserveSlot(r) => Unpublished(s, r) && !s.requests[r].slot && s.requests[r].arrival == Idle && s.requests[r].op == None
    case StartCall(r, d, t, range) =>
      && r !in s.requests && IsOpen(s, d) && (range ==> t.Some?)
      && (t.Some? ==> IsOpenTable(s, t.value) && s.tables[t.value].dataset == d)
    case Begin(r) =>
      && IsActive(s, r) && s.requests[r].arrival == Idle && s.requests[r].op == None
      && (s.requests[r].kind == OpenKind ==> Unpublished(s, r) && s.requests[r].slot && r !in s.closedSources)
    case Answer(r, op, withSource) => r in s.requests && s.requests[r].arrival == Begun && op !in s.owners
    case Resume(r) => IsActive(s, r) && s.requests[r].arrival.Arrived?
    case Refuse(r) => IsActive(s, r) && s.requests[r].arrival.Arrived?
    case Complete(r) => IsActive(s, r) && s.requests[r].dataset != Some(r) && s.requests[r].op.Some?
    case FailStep(r, changed) => IsActive(s, r) && s.requests[r].dataset != Some(r) && s.requests[r].arrival != Begun
    case Publish(r, scanning) =>
      && Unpublished(s, r) && s.requests[r].slot && s.requests[r].arrival == Idle && !s.requests[r].cancelled
      && r !in s.closedSources
    case ScanDone(d) => IsOpen(s, d) && d in s.requests && s.datasets[d].scanOp.Some?
    case FinishOpen(r) => IsActive(s, r) && s.requests[r].kind == OpenKind && !s.requests[r].cancelled && IsOpen(s, r)
                          && s.requests[r].op == s.datasets[r].scanOp
    case FailOpen(r, known) =>
      && IsActive(s, r) && s.requests[r].kind == OpenKind
      && MayEnd(s.requests[r]) && (known ==> s.requests[r].arrival == Idle)
    case PublishTable(r, t) =>
      && IsActive(s, r) && s.requests[r].kind == AsyncKind && !s.requests[r].cancelled && s.requests[r].dataset.Some?
      && t !in s.tables
    case EndCall(r) =>
      && IsActive(s, r) && s.requests[r].kind != OpenKind && s.requests[r].op == None
      && MayEnd(s.requests[r])
    case CancelMessage(r) => true
    case CloseTableMessage(t) => true
    case CloseSourceMessage(d) => true
  }

  function With(s: State, r: nat, q: Request): State {
    s.(requests := s.requests[r := q])
  }

  function Owned(s: State, op: Option<nat>, owner: Owner): State {
    if op.Some? then s.(owners := s.owners[op.value := owner]) else s
  }

  function WithoutSlot(s: State, r: nat): State
    requires r in s.requests
  {
    var q := s.requests[r];
    if q.slot then With(s, r, q.(slot := false)).(holders := s.holders - {r}, slotsInUse := s.slotsInUse - 1) else s
  }

  /** `reserveSourceSlot`; without a free slot the open ends there. */
  function SlotReserved(s: State, r: nat): State
    requires r in s.requests
  {
    if s.slotsInUse >= MAX_SOURCES then s.(active := s.active - {r})
    else With(s, r, s.requests[r].(slot := true)).(holders := s.holders + {r}, slotsInUse := s.slotsInUse + 1)
  }

  /** A first step arrives: the request takes it, or the late clean-up gives it back. */
  function Answered(s: State, r: nat, op: nat, withSource: bool): State
    requires r in s.requests
  {
    var q := s.requests[r];
    if q.cancelled then
      var c := CancelOp(With(s, r, q.(arrival := Reclaimed)), op);
      if withSource && q.kind == OpenKind then CloseSource(c, r) else c
    else With(s, r, q.(arrival := Arrived(op))).(owners := s.owners[op := Unclaimed(r)])
  }

  /** `throwIfCancelled` stands between the answer and taking it over. */
  function Resumed(s: State, r: nat): State
    requires r in s.requests && s.requests[r].arrival.Arrived?
  {
    var q := s.requests[r];
    var op := q.arrival.op;
    if q.cancelled then Owned(With(s, r, q.(arrival := Idle)), Some(op), Dropped)
    else Owned(With(s, r, q.(arrival := Idle, op := Some(op))), Some(op), OfRequest(r))
  }

  /** `expectAdapterOperationStep` refuses a first step before the request has its handle. */
  function FirstRefused(s: State, r: nat): State
    requires r in s.requests && s.requests[r].arrival.Arrived?
  {
    var q := s.requests[r];
    Owned(With(s, r, q.(arrival := Idle)), Some(q.arrival.op), Dropped)
  }

  /** The run loops' `finally`: a changed source closes the dataset first. */
  function StepFailed(s: State, r: nat, sourceChanged: bool): State
    requires r in s.requests
  {
    var q := s.requests[r];
    var closed := if sourceChanged && q.kind != OpenKind && q.dataset.Some? && IsOpen(s, q.dataset.value)
                  then CloseDataset(s, q.dataset.value) else s;
    OwnCancelled(closed, r)
  }

  /** `cancelOwnedOperation`. */
  function OwnCancelled(s: State, r: nat): State
    requires r in s.requests
  {
    CancelSome(With(s, r, s.requests[r].(op := None)), s.requests[r].op)
  }

  /** The open gets its dataset; the slot moves there.  While it still scans, both hold the handle. */
  function Published(s: State, r: nat, scanning: bool): State
    requires r in s.requests
  {
    var q := s.requests[r];
    var op := if scanning then q.op else None;
    Owned(With(s, r, q.(dataset := Some(r), slot := false)), op, Shared(r)).(datasets := s.datasets[r := Dataset(op, false)])
  }

  function Scanned(s: State, d: nat): State
    requires IsOpen(s, d) && d in s.requests
  {
    var e, q := s.datasets[d], s.requests[d];
    Owned(With(s, d, if q.op == e.scanOp then q.(op := None) else q), e.scanOp, Finished)
      .(datasets := s.datasets[d := Dataset(None, false)])
  }

  function OpenFinished(s: State, r: nat): State
    requires r in s.requests && r in s.datasets
  {
    var q := s.requests[r];
    Owned(With(s, r, q.(op := None)).(active := s.active - {r}), q.op, OfDataset(r))
  }

  /** An open that fails after its last step was taken over leaves the handle of that step behind. */
  function HandleDropped(s: State, r: nat): State
    requires r in s.requests
  {
    var q := s.requests[r];
    if q.op.Some? && q.op.value in s.owners && s.owners[q.op.value] == OfRequest(r)
    then Owned(With(s, r, q.(op := None)), q.op, Dropped) else s
  }

  /** The `finally` of `openSource` after a failure. */
  function OpenLeft(s: State, r: nat, sourceKnown: bool): State
    requires r in s.requests
  {
    var c := s.(active := s.active - {r});
    if IsOpen(c, r) then CloseDataset(c, r)
    else WithoutSlot(if r !in c.datasets && sourceKnown then CloseSource(c, r) else c, r)
  }

  function Next(s: State, e: Event): State
    requires Enabled(s, e)
  {
    match e
    case StartOpen(r) =>
      With(s, r, Request(OpenKind, None, None, false, None, Idle, false)).(active := s.active + {r})
    case ReserveSlot(r) => SlotReserved(s, r)
    case StartCall(r, d, t, range) =>
      With(s, r, Request(if range then RangeKind else AsyncKind, Some(d), t, false, None, Idle, false)).(active := s.active + {r})
    case Begin(r) => With(s, r, s.requests[r].(arrival := Begun))
    case Answer(r, op, withSource) => Answered(s, r, op, withSource)
    case Resume(r) => Resumed(s, r)
    case Refuse(r) => FirstRefused(s, r)
    case Complete(r) => Owned(With(s, r, s.requests[r].(op := None)), s.requests[r].op, Finished)
    case FailStep(r, changed) => StepFailed(s, r, changed)
    case Publish(r, scanning) => Published(s, r, scanning)
    case ScanDone(d) => Scanned(s, d)
    case FinishOpen(r) => OpenFinished(s, r)
    case FailOpen(r, known) => OpenLeft(HandleDropped(s, r), r, known)
    case PublishTable(r, t) => s.(tables := s.tables[t := Table(s.requests[r].dataset.value, false)])
    case EndCall(r) => s.(active := s.active - {r})
    case CancelMessage(r) =>
      if IsActive(s, r) then CancelRequest(s, r) else if IsOpen(s, r) then CloseDataset(s, r) else s
    case CloseTableMessage(t) => if IsOpenTable(s, t) then CloseTable(s, t) else s
    case CloseSourceMessage(d) => if IsOpen(s, d) then CloseDataset(s, d) else s
  }

  // ---------------------------------------------------------------- every step keeps the invariant

  /** Only request `r`, its dataset and its handles differ. */
  ghost predicate Touches(s: State, c: State, r: nat) {
    && c.active - {r} == s.active - {r} && c.requests - {r} == s.requests - {r} && c.datasets - {r} == s.datasets - {r}
    && (forall d :: IsOpen(s, d) ==> IsOpen(c, d))
    && (forall op :: op in s.owners && s.owners[op] !in {Unclaimed(r), OfRequest(r), Shared(r), OfDataset(r)} ==>
                       op in c.owners && c.owners[op] == s.owners[op])
    && c.tables == s.tables && c.closedTables == s.closedTables && c.closedSources - {r} == s.closedSources - {r}
  }

  lemma TouchKeeps(s: State, c: State, r: nat)
    requires Inv(s) && Touches(s, c, r) && Slots(c) && !c.repeated && c.closedSources <= c.requests.Keys
    requires r in c.active ==> r in c.requests && RequestOk(c, r)
    requires r in c.requests ==> ArrivalOk(c, r)
    requires r in c.datasets ==> DatasetOk(c, r)
    ensures Inv(c)
  {
    hide ArrivalOk, RequestOk, DatasetOk, TableOk, Slots;
    assert forall p :: p != r ==> (p in c.active <==> p in s.active) && (p in c.closedSources <==> p in s.closedSources) by {
      assert forall p :: p != r ==> (p in c.active <==> p in c.active - {r}) && (p in s.active <==> p in s.active - {r});
      assert forall p :: p != r ==> (p in c.closedSources <==> p in c.closedSources - {r}) && (p in s.closedSources <==> p in s.closedSources - {r});
    }
    forall p | p in c.requests ensures p != r ==> p in s.requests && c.requests[p] == s.requests[p] {
      if p != r {
        assert p in c.requests - {r};
      }
    }
    forall p | p in c.datasets ensures p != r ==> p in s.datasets && c.datasets[p] == s.datasets[p] {
      if p != r {
        assert p in c.datasets - {r};
      }
    }
    forall p | p in s.requests && p != r ensures p in c.requests {
      assert p in s.requests - {r};
    }
    forall p | p in s.datasets && p != r ensures p in c.datasets {
      assert p in s.datasets - {r};
    }
    forall p | p in c.active ensures p in c.requests && RequestOk(c, p) {
      if p != r {
        TouchRequest(s, c, r, p);
      }
    }
    forall p | p in c.requests ensures ArrivalOk(c, p) {
      if p != r {
        TouchArrival(s, c, r, p);
      }
    }
    forall d | d in c.datasets ensures DatasetOk(c, d) {
      if d != r {
        TouchDataset(s, c, r, d);
      }
    }
    forall t | t in c.tables ensures TableOk(c, t) {
      TouchTable(s, c, r, t);
    }
  }

  lemma TouchRequest(s: State, c: State, r: nat, p: nat)
    requires Inv(s) && Touches(s, c, r) && p != r && p in s.active && p in c.requests && c.requests[p] == s.requests[p]
    requires p in s.datasets ==> p in c.datasets && c.datasets[p] == s.datasets[p]
    ensures RequestOk(c, p)
  {
    hide ArrivalOk, DatasetOk, TableOk, Slots;
    assert RequestOk(s, p);
  }

  lemma TouchArrival(s: State, c: State, r: nat, p: nat)
    requires Inv(s) && Touches(s, c, r) && p != r && p in s.requests && p in c.requests && c.requests[p] == s.requests[p]
    requires (p in c.active <==> p in s.active) && (p in c.closedSources <==> p in s.closedSources)
    requires p in c.datasets <==> p in s.datasets
    ensures ArrivalOk(c, p)
  {
    hide RequestOk, DatasetOk, TableOk, Slots;
    assert ArrivalOk(s, p);
  }

  lemma TouchDataset(s: State, c: State, r: nat, d: nat)
    requires Inv(s) && Touches(s, c, r) && d != r && d in s.datasets && d in c.datasets && c.datasets[d] == s.datasets[d]
    requires d in s.requests ==> d in c.requests && c.requests[d] == s.requests[d]
    requires d in c.closedSources <==> d in s.closedSources
    ensures DatasetOk(c, d)
  {
    hide RequestOk, ArrivalOk, TableOk, Slots;
    assert DatasetOk(s, d);
  }

  lemma TouchTable(s: State, c: State, r: nat, t: nat)
    requires Inv(s) && Touches(s, c, r) && t in s.tables
    ensures TableOk(c, t)
  {
    hide RequestOk, ArrivalOk, DatasetOk, Slots;
    assert TableOk(s, t);
  }

  lemma InvSlots(s: State)
    requires Inv(s)
    ensures Slots(s)
  {
  }

  lemma ArrivalOf(s: State, r: nat)
    requires Inv(s) && r in s.requests
    ensures ArrivalOk(s, r)
  {
  }

  lemma IsPublished(s: State, r: nat)
    requires Inv(s)
    ensures r in s.datasets ==> DatasetOk(s, r)
  {
  }

  /** A step that changes one request, and perhaps the owner of one handle of that request. */
  lemma OneChangedTouches(s: State, r: nat, q: Request, op: Option<nat>, owner: Owner)
    requires Inv(s) && r in s.requests && q.slot == s.requests[r].slot
    requires op.Some? && op.value in s.owners ==> s.owners[op.value] in {Unclaimed(r), OfRequest(r), Shared(r), OfDataset(r)}
    ensures var c := Owned(With(s, r, q), op, owner);
            Touches(s, c, r) && Slots(c) && !c.repeated && c.closedSources <= c.requests.Keys
  {
    hide ArrivalOk, RequestOk, DatasetOk, TableOk, Slots;
    var c := Owned(With(s, r, q), op, owner);
    InvSlots(s);
    assert c.requests - {r} == s.requests - {r};
    SameSlots(s, c);
  }

  lemma LeavingTouches(s: State, c: State, r: nat)
    requires Touches(s, c, r) && Slots(c)
    ensures var d := c.(active := c.active - {r}); Touches(s, d, r) && Slots(d)
  {
    assert c.active - {r} - {r} == c.active - {r};
    assert forall d :: IsOpen(c.(active := c.active - {r}), d) == IsOpen(c, d);
  }

  /** The same with the dataset of the request, which stays open if it was. */
  lemma DatasetTouches(s: State, c: State, r: nat, e: Dataset)
    requires Touches(s, c, r) && (IsOpen(c, r) ==> !e.closed)
    ensures Touches(s, c.(datasets := c.datasets[r := e]), r)
  {
    var d := c.(datasets := c.datasets[r := e]);
    assert d.datasets - {r} == c.datasets - {r};
    assert forall x :: IsOpen(c, x) ==> IsOpen(d, x);
  }

  lemma SameOpenSlots(c: State, r: nat, e: Dataset)
    requires Slots(c) && IsOpen(c, r) && !e.closed
    ensures Slots(c.(datasets := c.datasets[r := e]))
  {
    assert forall x :: IsOpen(c.(datasets := c.datasets[r := e]), x) == IsOpen(c, x);
  }

  lemma OneChangedKeeps(s: State, r: nat, q: Request, op: Option<nat>, owner: Owner)
    requires Inv(s) && r in s.requests && q.slot == s.requests[r].slot
    requires op.Some? && op.value in s.owners ==> s.owners[op.value] in {Unclaimed(r), OfRequest(r), Shared(r), OfDataset(r)}
    requires var c := Owned(With(s, r, q), op, owner);
             (r in c.active ==> RequestOk(c, r)) && ArrivalOk(c, r) && (r in c.datasets ==> DatasetOk(c, r))
    ensures Inv(Owned(With(s, r, q), op, owner))
  {
    hide Inv, ArrivalOk, RequestOk, DatasetOk, TableOk, Slots, Touches;
    OneChangedTouches(s, r, q, op, owner);
    TouchKeeps(s, Owned(With(s, r, q), op, owner), r);
  }

  lemma RequestOf(s: State, r: nat)
    requires Inv(s) && IsActive(s, r)
    ensures RequestOk(s, r) && ArrivalOk(s, r) && (r in s.datasets ==> DatasetOk(s, r))
  {
    IsPublished(s, r);
  }

  lemma StartTouches(s: State, r: nat, q: Request)
    requires Inv(s) && r !in s.requests && !q.slot
    ensures var c := With(s, r, q).(active := s.active + {r});
            && Touches(s, c, r) && Slots(c) && !c.repeated && c.closedSources <= c.requests.Keys
            && r !in c.datasets && r !in c.closedSources
  {
    hide RequestOk, ArrivalOk, TableOk;
    IsPublished(s, r);
    var c := With(s, r, q).(active := s.active + {r});
    assert c.requests - {r} == s.requests - {r} && c.active - {r} == s.active - {r};
    assert forall d :: IsOpen(c, d) == IsOpen(s, d);
  }

  lemma StartKeeps(s: State, e: Event)
    requires Inv(s) && (e.StartOpen? || e.StartCall?) && Enabled(s, e)
    ensures Inv(Next(s, e))
  {
    hide Inv, Slots, TableOk, Touches;
    var c := Next(s, e);
    var r := e.request;
    StartTouches(s, r, c.requests[r]);
    TouchKeeps(s, c, r);
  }

  lemma ReserveKeeps(s: State, r: nat)
    requires Inv(s) && Enabled(s, ReserveSlot(r))
    ensures Inv(Next(s, ReserveSlot(r)))
  {
    hide Inv, Next, TableOk, DatasetOk;
    var c := SlotReserved(s, r);
    assert c == Next(s, ReserveSlot(r)) by { SlotReservedIsNext(s, r); }
    ReserveTouches(s, r);
    InvSlots(s);
    ReserveSlots(s, r);
    TouchKeeps(s, c, r);
  }

  lemma SlotReservedIsNext(s: State, r: nat)
    requires Enabled(s, ReserveSlot(r))
    ensures Next(s, ReserveSlot(r)) == SlotReserved(s, r)
  {
  }

  lemma SameSlots(s: State, c: State)
    requires Slots(s) && c.holders == s.holders && c.slotsInUse == s.slotsInUse && c.datasets == s.datasets
    requires c.requests.Keys == s.requests.Keys && forall r :: r in s.requests ==> c.requests[r].slot == s.requests[r].slot
    ensures Slots(c)
  {
    assert forall d :: IsOpen(c, d) == IsOpen(s, d);
  }

  lemma ReserveSlots(s: State, r: nat)
    requires Slots(s) && r in s.requests && !s.requests[r].slot && r !in s.datasets
    ensures Slots(SlotReserved(s, r))
  {
    var c := SlotReserved(s, r);
    if s.slotsInUse >= MAX_SOURCES {
      SameSlots(s, c);
    } else {
      assert forall d :: IsOpen(c, d) == IsOpen(s, d);
      assert r !in s.holders;
    }
  }

  lemma ReserveTouches(s: State, r: nat)
    requires Inv(s) && Enabled(s, ReserveSlot(r))
    ensures var c := SlotReserved(s, r);
            && Touches(s, c, r) && !c.repeated && c.closedSources <= c.requests.Keys
            && (r in c.active ==> RequestOk(c, r)) && ArrivalOk(c, r) && r !in c.datasets
  {
    hide TableOk, DatasetOk, Slots;
    assert RequestOk(s, r) && ArrivalOk(s, r);
    var c := SlotReserved(s, r);
    assert c.requests - {r} == s.requests - {r};
    assert c.datasets == s.datasets && c.active - {r} == s.active - {r};
  }

  lemma BeginKeeps(s: State, r: nat)
    requires Inv(s) && Enabled(s, Begin(r))
    ensures Inv(Next(s, Begin(r)))
  {
    hide Inv, Slots, TableOk, Touches;
    RequestOf(s, r);
    OneChangedKeeps(s, r, s.requests[r].(arrival := Begun), None, Dropped);
  }

  lemma AnswerKeeps(s: State, r: nat, op: nat, withSource: bool)
    requires Inv(s) && Enabled(s, Answer(r, op, withSource))
    ensures Inv(Next(s, Answer(r, op, withSource)))
  {
    hide Inv, TableOk, DatasetOk, RequestOk, ArrivalOk, Slots, Touches;
    AnswerTouches(s, r, op, withSource);
    assert Slots(s) by { hide *; InvSlots(s); }
    SameSlots(s, Answered(s, r, op, withSource));
    TouchKeeps(s, Answered(s, r, op, withSource), r);
  }

  lemma AnswerTouches(s: State, r: nat, op: nat, withSource: bool)
    requires Inv(s) && Enabled(s, Answer(r, op, withSource))
    ensures var c := Answered(s, r, op, withSource);
            && Touches(s, c, r) && !c.repeated && c.closedSources <= c.requests.Keys && r in c.requests
            && (r in c.active ==> RequestOk(c, r)) && ArrivalOk(c, r) && r !in c.datasets
  {
    hide Inv, Touches, RequestOk, ArrivalOk, TableOk, Slots;
    IsPublished(s, r);
    if s.requests[r].cancelled {
      LateAnswerTouches(s, r, op, withSource);
    } else {
      TimelyAnswerTouches(s, r, op, withSource);
    }
  }

  lemma ClosedTouches(s: State, c: State, r: nat)
    requires Touches(s, c, r)
    ensures Touches(s, c.(closedSources := c.closedSources + {r}), r)
  {
    assert c.closedSources + {r} - {r} == c.closedSources - {r};
  }

  lemma LateAnswerTouches(s: State, r: nat, op: nat, withSource: bool)
    requires Inv(s) && Enabled(s, Answer(r, op, withSource)) && s.requests[r].cancelled
    requires r !in s.datasets
    ensures var c := Answered(s, r, op, withSource);
            && Touches(s, c, r) && !c.repeated && c.closedSources <= c.requests.Keys && r in c.requests
            && (r in c.active ==> RequestOk(c, r)) && ArrivalOk(c, r) && r !in c.datasets
  {
    hide TableOk, Slots, DatasetOk, Touches;
    assert ArrivalOk(s, r);
    if r in s.active { assert RequestOk(s, r); }
    var q := s.requests[r].(arrival := Reclaimed);
    var c := Owned(With(s, r, q), Some(op), CancelledOp);
    OneChangedTouches(s, r, q, Some(op), CancelledOp);
    hide Inv;
    var closed := c.(closedSources := c.closedSources + {r});
    assert Answered(s, r, op, withSource) == if withSource && q.kind == OpenKind then closed else c;
    ClosedTouches(s, c, r);
  }

  lemma TimelyAnswerTouches(s: State, r: nat, op: nat, withSource: bool)
    requires Inv(s) && Enabled(s, Answer(r, op, withSource)) && !s.requests[r].cancelled
    requires r !in s.datasets
    ensures var c := Answered(s, r, op, withSource);
            && Touches(s, c, r) && !c.repeated && c.closedSources <= c.requests.Keys && r in c.requests
            && (r in c.active ==> RequestOk(c, r)) && ArrivalOk(c, r) && r !in c.datasets
  {
    hide TableOk, Slots, DatasetOk, Touches;
    assert ArrivalOk(s, r);
    if r in s.active { assert RequestOk(s, r); }
    var q := s.requests[r].(arrival := Arrived(op));
    OneChangedTouches(s, r, q, Some(op), Unclaimed(r));
    hide Inv;
    assert Answered(s, r, op, withSource) == Owned(With(s, r, q), Some(op), Unclaimed(r));
  }

  lemma ResumeKeeps(s: State, r: nat)
    requires Inv(s) && Enabled(s, Resume(r))
    ensures Inv(Next(s, Resume(r)))
  {
    hide Inv, Slots, TableOk, Touches;
    RequestOf(s, r);
    var q := s.requests[r];
    if q.cancelled {
      OneChangedKeeps(s, r, q.(arrival := Idle), Some(q.arrival.op), Dropped);
    } else {
      OneChangedKeeps(s, r, q.(arrival := Idle, op := Some(q.arrival.op)), Some(q.arrival.op), OfRequest(r));
    }
  }

  lemma RefuseKeeps(s: State, r: nat)
    requires Inv(s) && Enabled(s, Refuse(r))
    ensures Inv(Next(s, Refuse(r)))
  {
    hide Inv, Slots, TableOk, Touches;
    RequestOf(s, r);
    OneChangedKeeps(s, r, s.requests[r].(arrival := Idle), Some(s.requests[r].arrival.op), Dropped);
  }

  lemma CompleteKeeps(s: State, r: nat)
    requires Inv(s) && Enabled(s, Complete(r))
    ensures Inv(Next(s, Complete(r)))
  {
    hide Inv, Slots, TableOk, Touches;
    RequestOf(s, r);
    OneChangedKeeps(s, r, s.requests[r].(op := None), s.requests[r].op, Finished);
  }

  lemma NotRepeated(s: State)
    requires Inv(s)
    ensures !s.repeated
  {
  }

  lemma OwnCancelledKeeps(s: State, r: nat)
    requires Inv(s) && IsActive(s, r) && s.requests[r].dataset != Some(r)
    ensures Inv(OwnCancelled(s, r))
  {
    hide Inv, Slots, TableOk, Touches;
    RequestOf(s, r);
    var q := s.requests[r];
    OneChangedKeeps(s, r, q.(op := None), q.op, CancelledOp);
    NotRepeated(s);
    assert OwnCancelled(s, r) == Owned(With(s, r, q.(op := None)), q.op, CancelledOp);
  }

  lemma FailStepKeeps(s: State, r: nat, changed: bool)
    requires Inv(s) && Enabled(s, FailStep(r, changed))
    ensures Inv(Next(s, FailStep(r, changed)))
  {
    var q := s.requests[r];
    if changed && q.kind != OpenKind && q.dataset.Some? && IsOpen(s, q.dataset.value) {
      CloseDatasetKeeps(s, q.dataset.value);
      OwnCancelledKeeps(CloseDataset(s, q.dataset.value), r);
    } else {
      OwnCancelledKeeps(s, r);
    }
  }

  lemma PublishKeeps(s: State, r: nat, scanning: bool)
    requires Inv(s) && Enabled(s, Publish(r, scanning))
    ensures Inv(Next(s, Publish(r, scanning)))
  {
    hide Inv, Touches, TableOk, Slots;
    ArrivalOf(s, r);
    InvSlots(s);
    PublishSlots(s, r, scanning);
    PublishTouches(s, r, scanning);
    TouchKeeps(s, Published(s, r, scanning), r);
  }

  lemma PublishSlots(s: State, r: nat, scanning: bool)
    requires Slots(s) && r in s.requests && s.requests[r].slot && r !in s.datasets
    ensures Slots(Published(s, r, scanning))
  {
    var c := Published(s, r, scanning);
    assert r in s.holders;
    assert forall d :: d != r ==> IsOpen(c, d) == IsOpen(s, d);
  }

  lemma SlotGoneTouches(s: State, c: State, r: nat, q: Request)
    requires Touches(s, c, r)
    ensures Touches(s, With(c, r, q), r)
  {
    assert With(c, r, q).requests - {r} == c.requests - {r};
  }

  lemma PublishTouches(s: State, r: nat, scanning: bool)
    requires Inv(s) && Enabled(s, Publish(r, scanning))
    ensures var c := Published(s, r, scanning);
            && Touches(s, c, r) && !c.repeated && c.closedSources <= c.requests.Keys && r in c.requests
            && RequestOk(c, r) && ArrivalOk(c, r) && r in c.datasets && DatasetOk(c, r)
  {
    hide TableOk, Slots, Inv, Touches;
    RequestOf(s, r);
    var q := s.requests[r];
    var op := if scanning then q.op else None;
    var c := Owned(With(s, r, q.(dataset := Some(r))), op, Shared(r));
    OneChangedTouches(s, r, q.(dataset := Some(r)), op, Shared(r));
    DatasetTouches(s, c, r, Dataset(op, false));
    var d, q' := c.(datasets := c.datasets[r := Dataset(op, false)]), q.(dataset := Some(r), slot := false);
    SlotGoneTouches(s, d, r, q');
    assert s.requests[r := q.(dataset := Some(r))][r := q'] == s.requests[r := q'];
    assert Published(s, r, scanning) == With(d, r, q');
  }

  lemma ScanDoneKeeps(s: State, d: nat)
    requires Inv(s) && Enabled(s, ScanDone(d))
    ensures Inv(Next(s, ScanDone(d)))
  {
    hide Inv, Slots, TableOk, Touches;
    IsPublished(s, d);
    ArrivalOf(s, d);
    if d in s.active { RequestOf(s, d); }
    var e, q := s.datasets[d], s.requests[d];
    var q' := if q.op == e.scanOp then q.(op := None) else q;
    var c := Owned(With(s, d, q'), e.scanOp, Finished);
    OneChangedTouches(s, d, q', e.scanOp, Finished);
    DatasetTouches(s, c, d, Dataset(None, false));
    SameOpenSlots(c, d, Dataset(None, false));
    TouchKeeps(s, Scanned(s, d), d);
  }

  lemma FinishOpenKeeps(s: State, r: nat)
    requires Inv(s) && Enabled(s, FinishOpen(r))
    ensures Inv(Next(s, FinishOpen(r)))
  {
    hide Inv, Slots, TableOk, Touches;
    RequestOf(s, r);
    var q := s.requests[r];
    var c := Owned(With(s, r, q.(op := None)), q.op, OfDataset(r));
    OneChangedTouches(s, r, q.(op := None), q.op, OfDataset(r));
    LeavingTouches(s, c, r);
    TouchKeeps(s, c.(active := c.active - {r}), r);
  }

  lemma OpenLeftKeeps(s: State, r: nat, known: bool)
    requires Inv(s) && Enabled(s, FailOpen(r, known))
    ensures Inv(OpenLeft(s, r, known))
  {
    hide TableOk, Slots, Touches, RequestOk, ArrivalOk, DatasetOk, Inv;
    if IsOpen(s, r) {
      LeaveTouches(s, r);
      TouchKeeps(s, s.(active := s.active - {r}), r);
      CloseDatasetKeeps(s.(active := s.active - {r}), r);
    } else {
      FailOpenTouches(s, r, known);
      assert r in s.requests && Slots(s) && ArrivalOk(s, r) && s.requests[r].kind == OpenKind by { InvSlots(s); ArrivalOf(s, r); }
      FailOpenSlots(s, r, known);
      TouchKeeps(s, OpenLeft(s, r, known), r);
    }
  }

  lemma LeaveTouches(s: State, r: nat)
    requires Inv(s) && IsActive(s, r) && s.requests[r].kind == OpenKind && IsOpen(s, r)
    ensures var c := s.(active := s.active - {r});
            && Touches(s, c, r) && Slots(c) && !c.repeated && c.closedSources <= c.requests.Keys
            && ArrivalOk(c, r) && DatasetOk(c, r)
  {
    hide TableOk;
    IsPublished(s, r);
    assert ArrivalOk(s, r) && RequestOk(s, r);
  }

  lemma FailOpenSlots(s: State, r: nat, known: bool)
    requires Slots(s) && r in s.requests && !IsOpen(s, r)
    ensures Slots(OpenLeft(s, r, known))
  {
    hide CloseDataset, Inv;
    var c := OpenLeft(s, r, known);
    assert forall d :: IsOpen(c, d) == IsOpen(s, d);
    if s.requests[r].slot {
      assert r in s.holders;
      assert c.holders == s.holders - {r};
    }
  }

  lemma HoldersDoNotTouch(s: State, c: State, r: nat, holders: set<nat>, inUse: int)
    requires Touches(s, c, r)
    ensures Touches(s, c.(holders := holders, slotsInUse := inUse), r)
  {
    assert forall d :: IsOpen(c.(holders := holders, slotsInUse := inUse), d) == IsOpen(c, d);
  }

  lemma FailOpenTouches(s: State, r: nat, known: bool)
    requires Inv(s) && Enabled(s, FailOpen(r, known)) && !IsOpen(s, r)
    ensures var c := OpenLeft(s, r, known);
            && Touches(s, c, r) && !c.repeated && c.closedSources <= c.requests.Keys
            && r in c.requests && r !in c.active && ArrivalOk(c, r) && (r in c.datasets ==> DatasetOk(c, r))
  {
    hide TableOk, CloseDataset, Slots, Inv, Touches;
    RequestOf(s, r);
    var q := s.requests[r];
    var c := s.(active := s.active - {r});
    OneChangedTouches(s, r, q, None, Dropped);
    assert With(s, r, q) == s;
    LeavingTouches(s, s, r);
    ClosedTouches(s, c, r);
    var d := if r !in c.datasets && known then CloseSource(c, r) else c;
    assert Touches(s, d, r);
    HoldersDoNotTouch(s, With(d, r, q.(slot := false)), r, s.holders - {r}, s.slotsInUse - 1) by { SlotGoneTouches(s, d, r, q.(slot := false)); }
  }

  lemma HandleDroppedKeeps(s: State, r: nat)
    requires Inv(s) && IsActive(s, r) && s.requests[r].kind == OpenKind
    ensures var c := HandleDropped(s, r);
            Inv(c) && c.active == s.active && r in c.requests && c.requests[r] == s.requests[r].(op := c.requests[r].op)
  {
    hide TableOk, Slots;
    var c := HandleDropped(s, r);
    IsPublished(s, r);
    assert ArrivalOk(s, r) && RequestOk(s, r);
    assert Slots(c) by {
      InvSlots(s);
      SameSlots(s, c);
    }
    assert c.requests - {r} == s.requests - {r};
    TouchKeeps(s, c, r);
  }

  lemma FailOpenKeeps(s: State, r: nat, known: bool)
    requires Inv(s) && Enabled(s, FailOpen(r, known))
    ensures Inv(Next(s, FailOpen(r, known)))
  {
    hide Inv, CloseDataset;
    HandleDroppedKeeps(s, r);
    OpenLeftKeeps(HandleDropped(s, r), r, known);
  }

  lemma EndCallKeeps(s: State, r: nat)
    requires Inv(s) && Enabled(s, EndCall(r))
    ensures Inv(Next(s, EndCall(r)))
  {
    assert ArrivalOk(s, r) && RequestOk(s, r);
    IsPublished(s, r);
    TouchKeeps(s, Next(s, EndCall(r)), r);
  }

  lemma PublishTableKeeps(s: State, r: nat, t: nat)
    requires Inv(s) && Enabled(s, PublishTable(r, t))
    ensures Inv(Next(s, PublishTable(r, t)))
  {
    var c := Next(s, PublishTable(r, t));
    assert RequestOk(s, r);
    forall p | p in c.active ensures RequestOk(c, p) { assert RequestOk(s, p); }
    forall p | p in c.requests ensures ArrivalOk(c, p) { assert ArrivalOk(s, p); }
    forall d | d in c.datasets ensures DatasetOk(c, d) { assert DatasetOk(s, d); }
    forall u | u in c.tables ensures TableOk(c, u) {
      if u != t { assert TableOk(s, u); }
    }
  }

  lemma CancelMessageKeeps(s: State, r: nat)
    requires Inv(s)
    ensures Inv(Next(s, CancelMessage(r)))
  {
    if IsActive(s, r) {
      CancelRequestKeeps(s, r);
    } else if IsOpen(s, r) {
      CloseDatasetKeeps(s, r);
    }
  }

  /** Every step keeps the invariant. */
  lemma StepKeeps(s: State, e: Event)
    requires Inv(s) && Enabled(s, e)
    ensures Inv(Next(s, e))
  {
    hide Inv, Enabled;
    match e
    case StartOpen(_) => StartKeeps(s, e);
    case ReserveSlot(r) => ReserveKeeps(s, r);
    case StartCall(_, _, _, _) => StartKeeps(s, e);
    case Begin(r) => BeginKeeps(s, r);
    case Answer(r, op, withSource) => AnswerKeeps(s, r, op, withSource);
    case Resume(r) => ResumeKeeps(s, r);
    case Refuse(r) => RefuseKeeps(s, r);
    case Complete(r) => CompleteKeeps(s, r);
    case FailStep(r, changed) => FailStepKeeps(s, r, changed);
    case Publish(r, scanning) => PublishKeeps(s, r, scanning);
    case ScanDone(d) => ScanDoneKeeps(s, d);
    case FinishOpen(r) => FinishOpenKeeps(s, r);
    case FailOpen(r, known) => FailOpenKeeps(s, r, known);
    case PublishTable(r, t) => PublishTableKeeps(s, r, t);
    case EndCall(r) => EndCallKeeps(s, r);
    case CancelMessage(r) => CancelMessageKeeps(s, r);
    case CloseTableMessage(t) => if IsOpenTable(s, t) { CloseTableKeeps(s, t); }
    case CloseSourceMessage(d) => if IsOpen(s, d) { CloseDatasetKeeps(s, d); }
  }
}
