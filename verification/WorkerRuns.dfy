/** Whole runs of the Worker: what holds after any interleaving of its steps. */
module WorkerRuns {
  import opened Common
  import opened WorkerState
  import opened WorkerSteps

  // ---------------------------------------------------------------- no handle is owned by something gone

  /** The owner that a handle names does hold it. */
  predicate OwnerOk(s: State, op: nat)
    requires op in s.owners
  {
    match s.owners[op]
    case Unclaimed(r) => IsActive(s, r) && s.requests[r].arrival == Arrived(op)
    case OfRequest(r) => IsActive(s, r) && s.requests[r].op == Some(op)
    case OfDataset(d) => d in s.datasets && s.datasets[d].scanOp == Some(op)
    case Shared(d) => d in s.datasets && s.datasets[d].scanOp == Some(op) && IsActive(s, d) && s.requests[d].op == Some(op)
    case _ => true
  }

  ghost predicate Owners(s: State) {
    forall op :: op in s.owners ==> OwnerOk(s, op)
  }

  lemma CloseDatasetOwners(s: State, d: nat)
    requires Inv(s) && Owners(s) && IsOpen(s, d)
    ensures Owners(CloseDataset(s, d))
  {
    var c := CloseDataset(s, d);
    assert DatasetOk(s, d);
    forall op | op in c.owners ensures OwnerOk(c, op) {
      assert OwnerOk(s, op);
      if s.owners[op].Shared? {
        assert RequestOk(s, s.owners[op].both);
      }
    }
  }

  lemma CloseTableOwners(s: State, t: nat)
    requires Inv(s) && Owners(s) && IsOpenTable(s, t)
    ensures Owners(CloseTable(s, t))
  {
    var c := CloseTable(s, t);
    forall op | op in c.owners ensures OwnerOk(c, op) {
      assert OwnerOk(s, op);
      if s.owners[op].Shared? {
        assert RequestOk(s, s.owners[op].both);
      }
    }
  }

  lemma CancelAloneOwners(s: State, r: nat)
    requires Inv(s) && Owners(s) && r in s.active && !s.requests[r].cancelled
    requires s.requests[r].op.Some? ==> s.owners[s.requests[r].op.value] == OfRequest(r)
    ensures Owners(CancelAlone(s, r))
  {
    var c := CancelAlone(s, r);
    forall op | op in c.owners ensures OwnerOk(c, op) {
      if op in s.owners { assert OwnerOk(s, op); }
    }
  }

  lemma CancelOwners(s: State, r: nat)
    requires Inv(s) && Owners(s)
    ensures Owners(Next(s, CancelMessage(r)))
  {
    hide Owners, Inv;
    if IsActive(s, r) {
      RequestOf(s, r);
      var q := s.requests[r];
      if !q.cancelled {
        if q.kind == OpenKind && q.dataset.Some? {
          CloseDatasetOwners(s, q.dataset.value);
        } else {
          CancelAloneOwners(s, r);
        }
      }
    } else if IsOpen(s, r) {
      CloseDatasetOwners(s, r);
    }
  }

  /** A step that changes one request, and perhaps the owner of one handle of that request. */
  lemma OneChangedOwners(s: State, r: nat, q: Request, op: Option<nat>, owner: Owner)
    requires Owners(s) && r in s.requests
    requires q.arrival != s.requests[r].arrival && s.requests[r].arrival.Arrived? ==> op == Some(s.requests[r].arrival.op)
    requires q.op != s.requests[r].op && s.requests[r].op.Some? ==> op == s.requests[r].op
    requires op.Some? ==> OwnerOk(Owned(With(s, r, q), op, owner), op.value)
    ensures Owners(Owned(With(s, r, q), op, owner))
  {
    var c := Owned(With(s, r, q), op, owner);
    forall x {:trigger OwnerOk(c, x)} | x in c.owners ensures OwnerOk(c, x) {
      if Some(x) != op {
        assert OwnerOk(s, x);
      }
    }
  }

  /** Who owns what is a matter of these four parts of the state alone. */
  lemma OwnersIgnore(c: State, d: State)
    requires Owners(c) && d.requests == c.requests && d.active == c.active && d.datasets == c.datasets && d.owners == c.owners
    ensures Owners(d)
  {
    forall x {:trigger OwnerOk(d, x)} | x in d.owners ensures OwnerOk(d, x) {
      assert OwnerOk(c, x);
    }
  }

  /** A request that has no handle may leave. */
  lemma LeavingOwners(c: State, r: nat)
    requires Owners(c) && r in c.requests && c.requests[r].op == None && !c.requests[r].arrival.Arrived?
    ensures Owners(c.(active := c.active - {r}))
  {
    var d := c.(active := c.active - {r});
    forall x {:trigger OwnerOk(d, x)} | x in d.owners ensures OwnerOk(d, x) {
      assert OwnerOk(c, x);
    }
  }

  /** A dataset whose handle is finished may let go of it. */
  lemma FreedOwners(c: State, d: nat)
    requires Owners(c) && d in c.datasets
    requires c.datasets[d].scanOp.Some? ==> c.datasets[d].scanOp.value in c.owners && c.owners[c.datasets[d].scanOp.value] == Finished
    ensures Owners(c.(datasets := c.datasets[d := Dataset(None, false)]))
  {
    var e := c.(datasets := c.datasets[d := Dataset(None, false)]);
    forall x {:trigger OwnerOk(e, x)} | x in e.owners ensures OwnerOk(e, x) {
      assert OwnerOk(c, x);
    }
  }

  lemma NewcomerOwners(s: State, r: nat, q: Request)
    requires Owners(s) && r !in s.requests
    ensures Owners(With(s, r, q).(active := s.active + {r}))
  {
    var c := With(s, r, q).(active := s.active + {r});
    forall x {:trigger OwnerOk(c, x)} | x in c.owners ensures OwnerOk(c, x) {
      assert OwnerOk(s, x);
    }
  }

  lemma OwnCancelledOwners(s: State, r: nat)
    requires Inv(s) && Owners(s) && IsActive(s, r) && s.requests[r].dataset != Some(r)
    ensures Owners(OwnCancelled(s, r))
  {
    hide Inv, Owners;
    RequestOf(s, r);
    var q := s.requests[r];
    OneChangedOwners(s, r, q.(op := None), q.op, CancelledOp);
    OwnersIgnore(Owned(With(s, r, q.(op := None)), q.op, CancelledOp), OwnCancelled(s, r));
  }

  lemma ReserveOwners(s: State, r: nat)
    requires Inv(s) && Owners(s) && Enabled(s, ReserveSlot(r))
    ensures Owners(Next(s, ReserveSlot(r)))
  {
    hide Inv, Owners;
    var q := s.requests[r];
    if s.slotsInUse >= MAX_SOURCES {
      LeavingOwners(s, r);
    } else {
      OneChangedOwners(s, r, q.(slot := true), None, Dropped);
      OwnersIgnore(With(s, r, q.(slot := true)), SlotReserved(s, r));
    }
  }

  lemma BeginOwners(s: State, r: nat)
    requires Inv(s) && Owners(s) && Enabled(s, Begin(r))
    ensures Owners(Next(s, Begin(r)))
  {
    hide Inv, Owners;
    RequestOf(s, r);
    OneChangedOwners(s, r, s.requests[r].(arrival := Begun), None, Dropped);
  }

  lemma AnswererIsActive(s: State, r: nat)
    requires Inv(s) && r in s.requests && s.requests[r].arrival == Begun && !s.requests[r].cancelled
    ensures IsActive(s, r)
  {
    assert ArrivalOk(s, r);
  }

  lemma AnswerOwners(s: State, r: nat, op0: nat, withSource: bool)
    requires Inv(s) && Owners(s) && Enabled(s, Answer(r, op0, withSource))
    ensures Owners(Next(s, Answer(r, op0, withSource)))
  {
    hide Inv, Owners;
    ArrivalOf(s, r);
    var q := s.requests[r];
    if q.cancelled {
      var c := Owned(With(s, r, q.(arrival := Reclaimed)), Some(op0), CancelledOp);
      OneChangedOwners(s, r, q.(arrival := Reclaimed), Some(op0), CancelledOp);
      OwnersIgnore(c, Answered(s, r, op0, withSource));
    } else {
      AnswererIsActive(s, r);
      OneChangedOwners(s, r, q.(arrival := Arrived(op0)), Some(op0), Unclaimed(r));
    }
  }

  lemma ResumeOwners(s: State, r: nat)
    requires Inv(s) && Owners(s) && Enabled(s, Resume(r))
    ensures Owners(Next(s, Resume(r)))
  {
    hide Inv, Owners;
    RequestOf(s, r);
    var q := s.requests[r];
    if q.cancelled {
      OneChangedOwners(s, r, q.(arrival := Idle), Some(q.arrival.op), Dropped);
    } else {
      OneChangedOwners(s, r, q.(arrival := Idle, op := Some(q.arrival.op)), Some(q.arrival.op), OfRequest(r));
    }
  }

  lemma RefuseOwners(s: State, r: nat)
    requires Inv(s) && Owners(s) && Enabled(s, Refuse(r))
    ensures Owners(Next(s, Refuse(r)))
  {
    hide Inv, Owners;
    RequestOf(s, r);
    var q := s.requests[r];
    OneChangedOwners(s, r, q.(arrival := Idle), Some(q.arrival.op), Dropped);
  }

  lemma CompleteOwners(s: State, r: nat)
    requires Inv(s) && Owners(s) && Enabled(s, Complete(r))
    ensures Owners(Next(s, Complete(r)))
  {
    hide Inv, Owners;
    RequestOf(s, r);
    var q := s.requests[r];
    OneChangedOwners(s, r, q.(op := None), q.op, Finished);
  }

  lemma PublishOwners(s: State, r: nat, scanning: bool)
    requires Inv(s) && Owners(s) && Enabled(s, Publish(r, scanning))
    ensures Owners(Next(s, Publish(r, scanning)))
  {
    hide Slots, TableOk, Touches;
    assert r !in s.datasets by { ArrivalOf(s, r); }
    assert RequestOk(s, r);
    var c := Published(s, r, scanning);
    forall op {:trigger OwnerOk(c, op)} | op in c.owners ensures OwnerOk(c, op) {
      PublishOwner(s, r, scanning, op);
    }
  }

  lemma PublishOwner(s: State, r: nat, scanning: bool, op: nat)
    requires Owners(s) && Enabled(s, Publish(r, scanning)) && RequestOk(s, r) && r !in s.datasets
    requires op in s.owners
    ensures op in Published(s, r, scanning).owners && OwnerOk(Published(s, r, scanning), op)
  {
    assert OwnerOk(s, op);
    if s.owners[op] == OfRequest(r) && scanning {
      assert s.requests[r].op == Some(op);
    }
  }

  lemma ScanDoneOwners(s: State, d: nat)
    requires Inv(s) && Owners(s) && Enabled(s, ScanDone(d))
    ensures Owners(Next(s, ScanDone(d)))
  {
    hide Inv, Owners;
    IsPublished(s, d);
    var e, q := s.datasets[d], s.requests[d];
    var q' := if q.op == e.scanOp then q.(op := None) else q;
    OneChangedOwners(s, d, q', e.scanOp, Finished);
    FreedOwners(Owned(With(s, d, q'), e.scanOp, Finished), d);
  }

  lemma FinishOpenOwners(s: State, r: nat)
    requires Inv(s) && Owners(s) && Enabled(s, FinishOpen(r))
    ensures Owners(Next(s, FinishOpen(r)))
  {
    hide Inv, Owners;
    RequestOf(s, r);
    var q := s.requests[r];
    var c := Owned(With(s, r, q.(op := None)), q.op, OfDataset(r));
    OneChangedOwners(s, r, q.(op := None), q.op, OfDataset(r));
    LeavingOwners(c, r);
  }

  lemma EndCallOwners(s: State, r: nat)
    requires Inv(s) && Owners(s) && Enabled(s, EndCall(r))
    ensures Owners(Next(s, EndCall(r)))
  {
    hide Inv, Owners;
    LeavingOwners(s, r);
  }

  lemma PublishTableOwners(s: State, r: nat, t: nat)
    requires Inv(s) && Owners(s) && Enabled(s, PublishTable(r, t))
    ensures Owners(Next(s, PublishTable(r, t)))
  {
    hide Slots, TableOk;
    var c := Next(s, PublishTable(r, t));
    assert RequestOk(s, r);
    forall op {:trigger OwnerOk(c, op)} | op in c.owners ensures OwnerOk(c, op) {
      if op in s.owners { assert OwnerOk(s, op); }
    }
  }

  lemma StartOwners(s: State, e: Event)
    requires Inv(s) && Owners(s) && (e.StartOpen? || e.StartCall?) && Enabled(s, e)
    ensures Owners(Next(s, e))
  {
    hide Inv, Owners;
    NewcomerOwners(s, e.request, Next(s, e).requests[e.request]);
  }

  lemma FailStepOwners(s: State, r: nat, changed: bool)
    requires Inv(s) && Owners(s) && Enabled(s, FailStep(r, changed))
    ensures Owners(Next(s, FailStep(r, changed)))
  {
    hide Owners, Inv;
    var q := s.requests[r];
    if changed && q.kind != OpenKind && q.dataset.Some? && IsOpen(s, q.dataset.value) {
      CloseDatasetKeeps(s, q.dataset.value);
      CloseDatasetOwners(s, q.dataset.value);
      OwnCancelledOwners(CloseDataset(s, q.dataset.value), r);
    } else {
      OwnCancelledOwners(s, r);
    }
  }

  lemma HandleDroppedOwners(s: State, r: nat)
    requires Inv(s) && Owners(s) && IsActive(s, r) && s.requests[r].kind == OpenKind
    ensures Owners(HandleDropped(s, r))
  {
    hide Inv, Owners;
    RequestOf(s, r);
    var q := s.requests[r];
    if q.op.Some? {
      OneChangedOwners(s, r, q.(op := None), q.op, Dropped);
    }
  }

  lemma OpenLeftOwner(s: State, r: nat, known: bool, op: nat)
    requires Owners(s) && IsActive(s, r) && !IsOpen(s, r) && MayEnd(s.requests[r]) && op in s.owners
    requires r in s.datasets ==> s.datasets[r].scanOp == None
    requires s.requests[r].op.Some? ==> s.requests[r].op.value in s.owners && s.owners[s.requests[r].op.value] != OfRequest(r)
    ensures op in OpenLeft(s, r, known).owners && OwnerOk(OpenLeft(s, r, known), op)
  {
    hide CloseDataset;
    assert OwnerOk(s, op);
  }

  lemma OpenLeftOwners(s: State, r: nat, known: bool)
    requires Inv(s) && Owners(s) && IsActive(s, r) && s.requests[r].kind == OpenKind && MayEnd(s.requests[r])
    requires s.requests[r].op.Some? ==> s.owners[s.requests[r].op.value] != OfRequest(r)
    ensures Owners(OpenLeft(s, r, known))
  {
    hide Slots, TableOk, OwnerOk, CloseDataset, ArrivalOk;
    IsPublished(s, r);
    assert RequestOk(s, r);
    if IsOpen(s, r) {
      hide OpenLeft;
      OpenClosedOwners(s, r, known);
    } else {
      var c := OpenLeft(s, r, known);
      forall op {:trigger OwnerOk(c, op)} | op in c.owners ensures OwnerOk(c, op) {
        OpenLeftOwner(s, r, known, op);
      }
    }
  }

  lemma CloseDatasetOwnerKeys(s: State, d: nat)
    requires d in s.datasets
    ensures CloseDataset(s, d).owners.Keys == s.owners.Keys
  {
  }

  lemma SharedWith(s: State, op: nat)
    requires Inv(s) && Owners(s) && op in s.owners && s.owners[op].Shared?
    ensures var d := s.owners[op].both; d in s.active && d in s.requests && RequestOk(s, d)
  {
    assert OwnerOk(s, op);
  }

  lemma OpenClosedOwner(s: State, r: nat, known: bool, op: nat)
    requires Owners(s) && IsActive(s, r) && IsOpen(s, r) && MayEnd(s.requests[r]) && op in s.owners
    requires DatasetOk(s, r) && RequestOk(s, r)
    requires s.requests[r].op.Some? ==> s.owners[s.requests[r].op.value] != OfRequest(r)
    requires s.owners[op].Shared? ==> IsActive(s, s.owners[op].both) && RequestOk(s, s.owners[op].both)
    ensures op in OpenLeft(s, r, known).owners && OwnerOk(OpenLeft(s, r, known), op)
  {
    assert OwnerOk(s, op);
  }

  lemma OpenClosedOwners(s: State, r: nat, known: bool)
    requires Inv(s) && Owners(s) && IsActive(s, r) && MayEnd(s.requests[r]) && IsOpen(s, r) && s.requests[r].kind == OpenKind
    requires s.requests[r].op.Some? ==> s.owners[s.requests[r].op.value] != OfRequest(r)
    ensures Owners(OpenLeft(s, r, known))
  {
    hide Slots, TableOk, ArrivalOk, OwnerOk, CloseDataset;
    assert DatasetOk(s, r) && RequestOk(s, r);
    var c := OpenLeft(s, r, known);
    assert c.owners.Keys == s.owners.Keys by { CloseDatasetOwnerKeys(s.(active := s.active - {r}), r); }
    forall op {:trigger OwnerOk(c, op)} | op in c.owners ensures OwnerOk(c, op) {
      if s.owners[op].Shared? && s.owners[op].both != r {
        SharedWith(s, op);
      }
      OpenClosedOwner(s, r, known, op);
    }
  }

  lemma FailOpenOwners(s: State, r: nat, known: bool)
    requires Inv(s) && Owners(s) && Enabled(s, FailOpen(r, known))
    ensures Owners(Next(s, FailOpen(r, known)))
  {
    hide Inv, Owners, OpenLeft;
    RequestOf(s, r);
    HandleDroppedKeeps(s, r);
    HandleDroppedOwners(s, r);
    OpenLeftOwners(HandleDropped(s, r), r, known);
  }

  lemma StepOwners(s: State, e: Event)
    requires Inv(s) && Owners(s) && Enabled(s, e)
    ensures Owners(Next(s, e))
  {
    hide Inv, Enabled, Owners;
    match e
    case StartOpen(_) => StartOwners(s, e);
    case ReserveSlot(r) => ReserveOwners(s, r);
    case StartCall(_, _, _, _) => StartOwners(s, e);
    case Begin(r) => BeginOwners(s, r);
    case Answer(r, op, withSource) => AnswerOwners(s, r, op, withSource);
    case Resume(r) => ResumeOwners(s, r);
    case Refuse(r) => RefuseOwners(s, r);
    case Complete(r) => CompleteOwners(s, r);
    case FailStep(r, changed) => FailStepOwners(s, r, changed);
    case Publish(r, scanning) => PublishOwners(s, r, scanning);
    case ScanDone(d) => ScanDoneOwners(s, d);
    case FinishOpen(r) => FinishOpenOwners(s, r);
    case FailOpen(r, known) => FailOpenOwners(s, r, known);
    case PublishTable(r, t) => PublishTableOwners(s, r, t);
    case EndCall(r) => EndCallOwners(s, r);
    case CancelMessage(r) => CancelOwners(s, r);
    case CloseTableMessage(t) => if IsOpenTable(s, t) { CloseTableOwners(s, t); }
    case CloseSourceMessage(d) => if IsOpen(s, d) { CloseDatasetOwners(s, d); }
  }

  // ---------------------------------------------------------------- runs

  predicate Follows(s: State, es: seq<Event>)
    decreases |es|
  {
    es == [] || (Enabled(s, es[0]) && Follows(Next(s, es[0]), es[1..]))
  }

  function Run(s: State, es: seq<Event>): State
    requires Follows(s, es)
    decreases |es|
  {
    if es == [] then s else Run(Next(s, es[0]), es[1..])
  }

  /** What one step leaves as it is for good. */
  ghost predicate Settles(s: State, c: State) {
    && (forall r :: r in s.requests ==> r in c.requests && (s.requests[r].cancelled ==> c.requests[r].cancelled))
    && (forall d :: d in s.datasets ==> d in c.datasets && (s.datasets[d].closed ==> c.datasets[d].closed))
    && (forall t :: t in s.tables ==> t in c.tables && c.tables[t].dataset == s.tables[t].dataset
                                      && (s.tables[t].closed ==> c.tables[t].closed))
    && (forall op :: op in s.owners ==> op in c.owners && (s.owners[op] in {CancelledOp, Finished, Dropped} ==> c.owners[op] == s.owners[op]))
    && s.closedSources <= c.closedSources && s.closedTables <= c.closedTables
  }

  lemma CloseDatasetSettles(s: State, d: nat)
    requires Inv(s) && Owners(s) && IsOpen(s, d)
    ensures Settles(s, CloseDataset(s, d))
  {
    assert DatasetOk(s, d);
  }

  lemma CancelSettles(s: State, r: nat)
    requires Inv(s) && Owners(s) && r in s.active
    ensures Settles(s, CancelRequest(s, r))
  {
    assert RequestOk(s, r);
    var q := s.requests[r];
    if !q.cancelled && q.kind == OpenKind && q.dataset.Some? {
      CloseDatasetSettles(s, q.dataset.value);
    }
  }

  lemma OwnCancelledSettles(s: State, r: nat)
    requires Inv(s) && IsActive(s, r)
    ensures Settles(s, OwnCancelled(s, r))
  {
    assert RequestOk(s, r);
  }

  lemma FailStepSettles(s: State, r: nat, changed: bool)
    requires Inv(s) && Owners(s) && Enabled(s, FailStep(r, changed))
    ensures Settles(s, Next(s, FailStep(r, changed)))
  {
    hide Owners, Inv, OwnCancelled, CloseDataset;
    var q := s.requests[r];
    if changed && q.kind != OpenKind && q.dataset.Some? && IsOpen(s, q.dataset.value) {
      CloseDatasetKeeps(s, q.dataset.value);
      CloseDatasetSettles(s, q.dataset.value);
      assert IsActive(CloseDataset(s, q.dataset.value), r) by { CloseDatasetActive(s, q.dataset.value, r); }
      OwnCancelledSettles(CloseDataset(s, q.dataset.value), r);
    } else {
      OwnCancelledSettles(s, r);
    }
  }

  lemma CloseDatasetActive(s: State, d: nat, r: nat)
    requires d in s.datasets && IsActive(s, r)
    ensures IsActive(CloseDataset(s, d), r)
  {
  }

  lemma OpenClosedSettles(s: State, r: nat, known: bool)
    requires IsActive(s, r) && IsOpen(s, r) && DatasetOk(s, r) && Owners(s)
    ensures Settles(s, OpenLeft(s, r, known))
  {
    hide DatasetOk;
    var c := s.(active := s.active - {r});
    forall op | op in s.owners && s.owners[op] in {CancelledOp, Finished, Dropped} ensures !OwnedInDataset(c, r, op) {
      assert DatasetOk(s, r);
      OwnedIsLive(s, r, op);
    }
  }

  lemma OwnedIsLive(s: State, r: nat, op: nat)
    requires r in s.datasets && DatasetOk(s, r) && op in s.owners
    ensures s.datasets[r].scanOp == Some(op) ==> s.owners[op] in {OfDataset(r), Shared(r)}
  {
  }

  lemma OpenGoneSettles(s: State, r: nat, known: bool)
    requires IsActive(s, r) && !IsOpen(s, r)
    ensures Settles(s, OpenLeft(s, r, known))
  {
    hide CloseDataset;
  }

  lemma OpenLeftSettles(s: State, r: nat, known: bool)
    requires Inv(s) && Owners(s) && IsActive(s, r) && s.requests[r].kind == OpenKind
    ensures Settles(s, OpenLeft(s, r, known))
  {
    hide Inv, Owners, OpenLeft;
    IsPublished(s, r);
    if IsOpen(s, r) {
      OpenClosedSettles(s, r, known);
    } else {
      OpenGoneSettles(s, r, known);
    }
  }

  lemma FailOpenSettles(s: State, r: nat, known: bool)
    requires Inv(s) && Owners(s) && Enabled(s, FailOpen(r, known))
    ensures Settles(s, Next(s, FailOpen(r, known)))
  {
    hide Inv, Owners, OpenLeft;
    HandleDroppedKeeps(s, r);
    HandleDroppedOwners(s, r);
    OpenLeftSettles(HandleDropped(s, r), r, known);
  }

  lemma StartSettles(s: State, e: Event)
    requires Enabled(s, e) && (e.StartOpen? || e.StartCall?)
    ensures Settles(s, Next(s, e))
  {
  }

  lemma SlotSettles(s: State, r: nat)
    requires Enabled(s, ReserveSlot(r))
    ensures Settles(s, Next(s, ReserveSlot(r)))
  {
  }

  lemma CallSettles(s: State, e: Event)
    requires Enabled(s, e) && (e.Begin? || e.EndCall? || e.PublishTable? || e.CloseTableMessage?)
    ensures Settles(s, Next(s, e))
  {
  }

  lemma PlainSettles(s: State, e: Event)
    requires Inv(s) && Enabled(s, e)
    requires e.StartOpen? || e.ReserveSlot? || e.StartCall? || e.Begin? || e.EndCall? || e.PublishTable? || e.CloseTableMessage?
    ensures Settles(s, Next(s, e))
  {
    hide Inv, Enabled, CancelRequest, CloseDataset;
    if e.StartOpen? || e.StartCall? {
      StartSettles(s, e);
    } else if e.ReserveSlot? {
      SlotSettles(s, e.request);
    } else {
      CallSettles(s, e);
    }
  }

  lemma OneChangedSettles(s: State, r: nat, q: Request, op: Option<nat>, owner: Owner)
    requires r in s.requests && (s.requests[r].cancelled ==> q.cancelled)
    requires op.Some? && op.value in s.owners ==> s.owners[op.value] !in {CancelledOp, Finished, Dropped}
    ensures Settles(s, Owned(With(s, r, q), op, owner))
  {
  }

  lemma SettlesMore(s: State, c: State, d: State)
    requires Settles(s, c) && d.requests == c.requests && d.datasets == c.datasets && d.tables == c.tables && d.owners == c.owners
    requires c.closedSources <= d.closedSources && c.closedTables <= d.closedTables
    ensures Settles(s, d)
  {
  }

  lemma AnswerSettles(s: State, r: nat, op: nat, withSource: bool)
    requires Inv(s) && Enabled(s, Answer(r, op, withSource))
    ensures Settles(s, Next(s, Answer(r, op, withSource)))
  {
    hide Inv, Answered, Settles;
    AnsweredSettles(s, r, op, withSource);
  }

  lemma AnsweredSettles(s: State, r: nat, op: nat, withSource: bool)
    requires r in s.requests && op !in s.owners
    ensures Settles(s, Answered(s, r, op, withSource))
  {
    hide Settles;
    var q := s.requests[r];
    if q.cancelled {
      OneChangedSettles(s, r, q.(arrival := Reclaimed), Some(op), CancelledOp);
      SettlesMore(s, Owned(With(s, r, q.(arrival := Reclaimed)), Some(op), CancelledOp), Answered(s, r, op, withSource));
    } else {
      OneChangedSettles(s, r, q.(arrival := Arrived(op)), Some(op), Unclaimed(r));
    }
  }

  lemma ResumeSettles(s: State, r: nat)
    requires Inv(s) && Enabled(s, Resume(r))
    ensures Settles(s, Next(s, Resume(r)))
  {
    hide Inv, Settles;
    ArrivalOf(s, r);
    var q := s.requests[r];
    if q.cancelled {
      OneChangedSettles(s, r, q.(arrival := Idle), Some(q.arrival.op), Dropped);
    } else {
      OneChangedSettles(s, r, q.(arrival := Idle, op := Some(q.arrival.op)), Some(q.arrival.op), OfRequest(r));
    }
  }

  lemma RefuseSettles(s: State, r: nat)
    requires Inv(s) && Enabled(s, Refuse(r))
    ensures Settles(s, Next(s, Refuse(r)))
  {
    hide Inv, Settles;
    ArrivalOf(s, r);
    var q := s.requests[r];
    OneChangedSettles(s, r, q.(arrival := Idle), Some(q.arrival.op), Dropped);
  }

  lemma CompleteSettles(s: State, r: nat)
    requires Inv(s) && Enabled(s, Complete(r))
    ensures Settles(s, Next(s, Complete(r)))
  {
    hide Inv, Settles;
    RequestOf(s, r);
    OneChangedSettles(s, r, s.requests[r].(op := None), s.requests[r].op, Finished);
  }

  lemma DatasetSettles(s: State, c: State, d: nat, e: Dataset)
    requires Settles(s, c) && (d in s.datasets ==> !s.datasets[d].closed)
    ensures Settles(s, c.(datasets := c.datasets[d := e]))
  {
  }

  lemma OpenSettles(s: State, e: Event)
    requires Inv(s) && Owners(s) && Enabled(s, e) && (e.Publish? || e.FinishOpen?)
    ensures Settles(s, Next(s, e))
  {
    hide Inv, Owners, Settles;
    var r := e.request;
    RequestOf(s, r);
    var q := s.requests[r];
    if e.Publish? {
      var op := if e.scanning then q.op else None;
      var q' := q.(dataset := Some(r), slot := false);
      OneChangedSettles(s, r, q', op, Shared(r));
      DatasetSettles(s, Owned(With(s, r, q'), op, Shared(r)), r, Dataset(op, false));
    } else {
      OneChangedSettles(s, r, q.(op := None), q.op, OfDataset(r));
      SettlesMore(s, Owned(With(s, r, q.(op := None)), q.op, OfDataset(r)), OpenFinished(s, r));
    }
  }

  lemma ScanDoneSettles(s: State, d: nat)
    requires Inv(s) && Enabled(s, ScanDone(d))
    ensures Settles(s, Next(s, ScanDone(d)))
  {
    hide CancelRequest, CloseDataset, Slots, TableOk;
    assert DatasetOk(s, d);
  }

  lemma StepSettles(s: State, e: Event)
    requires Inv(s) && Owners(s) && Enabled(s, e)
    ensures Settles(s, Next(s, e))
  {
    hide Inv, Owners, Settles;
    match e
    case FailStep(r, changed) => FailStepSettles(s, r, changed);
    case FailOpen(r, known) => FailOpenSettles(s, r, known);
    case CancelMessage(r) =>
      if IsActive(s, r) { CancelSettles(s, r); } else if IsOpen(s, r) { CloseDatasetSettles(s, r); } else { SettlesItself(s); }
    case CloseSourceMessage(d) => if IsOpen(s, d) { CloseDatasetSettles(s, d); } else { SettlesItself(s); }
    case ScanDone(d) => ScanDoneSettles(s, d);
    case Publish(_, _) => OpenSettles(s, e);
    case FinishOpen(_) => OpenSettles(s, e);
    case Answer(r, op, withSource) => AnswerSettles(s, r, op, withSource);
    case Complete(r) => CompleteSettles(s, r);
    case Resume(r) => ResumeSettles(s, r);
    case Refuse(r) => RefuseSettles(s, r);
    case _ => PlainSettles(s, e);
  }

  lemma SettlesItself(s: State)
    ensures Settles(s, s)
  {
  }

  /** The invariant holds after every run, and what is settled stays settled. */
  lemma {:induction false} RunKeeps(s: State, es: seq<Event>)
    requires Inv(s) && Owners(s) && Follows(s, es)
    ensures Inv(Run(s, es)) && Owners(Run(s, es)) && Settles(s, Run(s, es))
    decreases |es|
  {
    hide Inv, Owners, Enabled, Next;
    if es != [] {
      StepKeeps(s, es[0]);
      StepOwners(s, es[0]);
      StepSettles(s, es[0]);
      RunKeeps(Next(s, es[0]), es[1..]);
    }
  }

  // ---------------------------------------------------------------- what every run guarantees

  lemma StartIsValid()
    ensures Inv(START) && Owners(START)
  {
  }

  /** Nothing of dataset `d` is left: no table, no request, no handle, no slot. */
  ghost predicate NothingLeft(s: State, d: nat) {
    && d in s.closedSources && d !in s.holders
    && (forall t :: t in s.tables && s.tables[t].dataset == d ==> s.tables[t].closed)
    && (forall r :: r in s.active && r in s.requests && s.requests[r].dataset == Some(d) ==> s.requests[r].cancelled)
    && (forall op :: op in s.owners ==> s.owners[op] != OfDataset(d) && s.owners[op] != Shared(d))
  }

  lemma SlotOf(s: State, r: nat)
    requires Inv(s) && r in s.requests
    ensures s.requests[r].slot ==> r in s.active && s.requests[r].dataset == None
  {
    assert ArrivalOk(s, r);
    if r in s.active {
      assert RequestOk(s, r);
    }
  }

  lemma ClosedHasNothingLeft(s: State, d: nat)
    requires Inv(s) && Owners(s) && d in s.datasets && s.datasets[d].closed
    ensures NothingLeft(s, d)
  {
    assert DatasetOk(s, d) && ArrivalOk(s, d);
    forall t | t in s.tables && s.tables[t].dataset == d ensures s.tables[t].closed {
      assert TableOk(s, t);
    }
    forall r | r in s.active && s.requests[r].dataset == Some(d) ensures s.requests[r].cancelled {
      assert RequestOk(s, r);
    }
    forall op | op in s.owners ensures s.owners[op] != OfDataset(d) && s.owners[op] != Shared(d) {
      assert OwnerOk(s, op);
    }
    SlotOf(s, d);
  }

  /**
   Every run, whatever the interleaving: no handle is cancelled twice and no source or table closed
   twice; the slots in use are those of the open datasets and of the opens under way, never more
   than there are.
   */
  lemma EveryRun(es: seq<Event>)
    requires Follows(START, es)
    ensures var s := Run(START, es);
            && !s.repeated && s.slotsInUse == |s.holders| <= MAX_SOURCES
            && (forall r :: r in s.holders <==> IsOpen(s, r) || (r in s.requests && s.requests[r].slot))
            && (forall d :: d in s.datasets ==> (s.datasets[d].closed <==> d in s.closedSources))
            && (forall t :: t in s.tables ==> (s.tables[t].closed <==> t in s.closedTables))
  {
    StartIsValid();
    RunKeeps(START, es);
    var s := Run(START, es);
    forall d | d in s.datasets ensures s.datasets[d].closed <==> d in s.closedSources {
      assert DatasetOk(s, d);
    }
    forall t | t in s.tables ensures s.tables[t].closed <==> t in s.closedTables {
      assert TableOk(s, t);
    }
  }

  /** A closed dataset stays closed and empty for the rest of every run. */
  lemma ClosedForGood(es: seq<Event>, later: seq<Event>, d: nat)
    requires Follows(START, es) && Follows(Run(START, es), later)
    requires d in Run(START, es).datasets && Run(START, es).datasets[d].closed
    ensures var s := Run(Run(START, es), later);
            d in s.datasets && s.datasets[d].closed && NothingLeft(s, d)
  {
    StartIsValid();
    RunKeeps(START, es);
    RunKeeps(Run(START, es), later);
    ClosedHasNothingLeft(Run(Run(START, es), later), d);
  }

  /** Once all handlers have ended and all datasets are closed, all slots are free and every handle is accounted for. */
  lemma NothingLeaksAtRest(es: seq<Event>)
    requires Follows(START, es)
    requires Run(START, es).active == {} && forall d :: d in Run(START, es).datasets ==> Run(START, es).datasets[d].closed
    ensures var s := Run(START, es);
            s.slotsInUse == 0 && forall op :: op in s.owners ==> s.owners[op] in {CancelledOp, Finished, Dropped}
  {
    StartIsValid();
    RunKeeps(START, es);
    var s := Run(START, es);
    forall d | d in s.datasets ensures s.datasets[d].scanOp == None {
      assert DatasetOk(s, d);
    }
    forall op | op in s.owners ensures s.owners[op] in {CancelledOp, Finished, Dropped} {
      assert OwnerOk(s, op);
    }
    forall r ensures r !in s.holders {
      if r in s.requests { assert ArrivalOk(s, r); }
    }
    assert s.holders == {};
  }

  // ---------------------------------------------------------------- when a handle is dropped

  /** The steps that lose a handle: an answer that nobody takes over, and an open that fails with a handle of its own. */
  predicate Loses(s: State, e: Event, op: nat) {
    || (e.Resume? && IsActive(s, e.request) && s.requests[e.request].cancelled && s.requests[e.request].arrival == Arrived(op))
    || (e.Refuse? && IsActive(s, e.request) && s.requests[e.request].arrival == Arrived(op))
    || (e.FailOpen? && IsActive(s, e.request) && s.requests[e.request].op == Some(op)
        && op in s.owners && s.owners[op] == OfRequest(e.request))
  }

  lemma DroppedDataset(s: State, r: nat)
    requires r in s.requests && r in s.datasets && DatasetOk(s, r)
    ensures DatasetOk(HandleDropped(s, r), r)
  {
  }

  /** What follows in the `finally` drops nothing. */
  lemma LeavingDrops(s: State, r: nat, known: bool, op: nat)
    requires r in s.requests && op in s.owners && (r in s.datasets ==> DatasetOk(s, r))
    ensures var c := OpenLeft(s, r, known); op in c.owners && (c.owners[op] == Dropped <==> s.owners[op] == Dropped)
  {
    if r in s.datasets {
      OwnedIsLive(s, r, op);
    }
    hide DatasetOk;
  }

  lemma FailOpenDrops(s: State, r: nat, known: bool, op: nat)
    requires Inv(s) && Owners(s) && Enabled(s, FailOpen(r, known)) && op in s.owners && s.owners[op] != Dropped
    ensures var c := Next(s, FailOpen(r, known));
            op in c.owners && (c.owners[op] == Dropped <==> Loses(s, FailOpen(r, known), op))
  {
    hide Inv, Owners, OpenLeft;
    RequestOf(s, r);
    var h := HandleDropped(s, r);
    assert r in h.requests && op in h.owners && (h.owners[op] == Dropped <==> Loses(s, FailOpen(r, known), op));
    if r in s.datasets {
      DroppedDataset(s, r);
    }
    LeavingDrops(h, r, known, op);
  }

  lemma FailStepDrops(s: State, r: nat, changed: bool, op: nat)
    requires Inv(s) && Enabled(s, FailStep(r, changed)) && op in s.owners && s.owners[op] != Dropped
    ensures var c := Next(s, FailStep(r, changed)); op in c.owners && c.owners[op] != Dropped
  {
  }

  lemma CancelDrops(s: State, r: nat, op: nat)
    requires op in s.owners && s.owners[op] != Dropped
    ensures var c := Next(s, CancelMessage(r)); op in c.owners && c.owners[op] != Dropped
  {
  }

  /**
   A handle is lost exactly when a request finds an answer after it was cancelled, when the first step
   in an answer is refused, or when an open fails with a handle of its own.
   */
  lemma DroppedExactlyWhen(s: State, e: Event, op: nat)
    requires Inv(s) && Owners(s) && Enabled(s, e) && op in s.owners && s.owners[op] != Dropped
    ensures var c := Next(s, e); op in c.owners && (c.owners[op] == Dropped <==> Loses(s, e, op))
  {
    hide Inv, Owners, Loses;
    match e
    case FailOpen(r, known) => FailOpenDrops(s, r, known, op);
    case FailStep(r, changed) => FailStepDrops(s, r, changed, op); NotLost(s, e, op);
    case CancelMessage(r) => CancelDrops(s, r, op); NotLost(s, e, op);
    case _ => OtherDrops(s, e, op);
  }

  lemma NotLost(s: State, e: Event, op: nat)
    requires !e.FailOpen? && !e.Resume? && !e.Refuse?
    ensures !Loses(s, e, op)
  {
  }

  lemma HandleDrops(s: State, e: Event, op: nat)
    requires Enabled(s, e) && op in s.owners && s.owners[op] != Dropped
    requires e.Answer? || e.Resume? || e.Refuse? || e.Complete?
    ensures var c := Next(s, e); op in c.owners && (c.owners[op] == Dropped <==> Loses(s, e, op))
  {
  }

  lemma QuietDrops(s: State, e: Event, op: nat)
    requires Enabled(s, e) && op in s.owners && s.owners[op] != Dropped
    requires !e.Answer? && !e.Resume? && !e.Refuse? && !e.Complete? && !e.FailOpen? && !e.FailStep? && !e.CancelMessage?
    ensures var c := Next(s, e); op in c.owners && c.owners[op] != Dropped && !Loses(s, e, op)
  {
    hide OnTable, OfTheDataset;
  }

  lemma OtherDrops(s: State, e: Event, op: nat)
    requires Inv(s) && Enabled(s, e) && op in s.owners && s.owners[op] != Dropped
    requires !e.FailOpen? && !e.FailStep? && !e.CancelMessage?
    ensures var c := Next(s, e); op in c.owners && (c.owners[op] == Dropped <==> Loses(s, e, op))
  {
    hide Inv, CancelRequest;
    if e.Answer? || e.Resume? || e.Refuse? || e.Complete? {
      HandleDrops(s, e, op);
    } else {
      QuietDrops(s, e, op);
    }
  }

  lemma OneStep(s: State, e: Event, es: seq<Event>)
    requires Enabled(s, e) && Follows(Next(s, e), es)
    ensures Follows(s, [e] + es) && Run(s, [e] + es) == Run(Next(s, e), es)
  {
    assert ([e] + es)[1..] == es;
  }

  /** `s` with one more request, `q`, and perhaps a handle with an owner. */
  function Calling(s: State, r: nat, q: Request, active: bool, owner: map<nat, Owner>): State {
    s.(requests := s.requests[r := q], active := if active then s.active + {r} else s.active, owners := s.owners + owner)
  }

  lemma CallStarts(s: State, r: nat, d: nat, t: nat, range: bool)
    requires IsOpen(s, d) && IsOpenTable(s, t) && s.tables[t].dataset == d && r !in s.requests
    ensures Enabled(s, StartCall(r, d, Some(t), range))
    ensures Next(s, StartCall(r, d, Some(t), range))
         == Calling(s, r, Request(if range then RangeKind else AsyncKind, Some(d), Some(t), false, None, Idle, false), true, map[])
  {
    assert s.owners + map[] == s.owners;
  }

  lemma CallBegins(s: State, r: nat, q: Request)
    requires q.arrival == Idle && q.op == None && q.kind != OpenKind
    ensures Enabled(Calling(s, r, q, true, map[]), Begin(r))
    ensures Next(Calling(s, r, q, true, map[]), Begin(r)) == Calling(s, r, q.(arrival := Begun), true, map[])
  {
    assert s.requests[r := q][r := q.(arrival := Begun)] == s.requests[r := q.(arrival := Begun)];
  }

  lemma CallAnswered(s: State, r: nat, q: Request, op: nat)
    requires q.arrival == Begun && !q.cancelled && op !in s.owners
    ensures var c := Calling(s, r, q, true, map[]);
            && Enabled(c, Answer(r, op, false))
            && Next(c, Answer(r, op, false)) == Calling(s, r, q.(arrival := Arrived(op)), true, map[op := Unclaimed(r)])
  {
    assert s.requests[r := q][r := q.(arrival := Arrived(op))] == s.requests[r := q.(arrival := Arrived(op))];
    assert (s.owners + map[])[op := Unclaimed(r)] == s.owners + map[op := Unclaimed(r)];
  }

  lemma CallRefused(s: State, r: nat, q: Request, op: nat)
    requires q.arrival == Arrived(op)
    ensures var c := Calling(s, r, q, true, map[op := Unclaimed(r)]);
            && Enabled(c, Refuse(r))
            && Next(c, Refuse(r)) == Calling(s, r, q.(arrival := Idle), true, map[op := Dropped])
  {
    assert s.requests[r := q][r := q.(arrival := Idle)] == s.requests[r := q.(arrival := Idle)];
    assert (s.owners + map[op := Unclaimed(r)])[op := Dropped] == s.owners + map[op := Dropped];
  }

  lemma CallEnds(s: State, r: nat, q: Request, op: nat)
    requires q.arrival == Idle && q.op == None && q.kind != OpenKind && r !in s.active
    ensures var c := Calling(s, r, q, true, map[op := Dropped]);
            Enabled(c, EndCall(r)) && Next(c, EndCall(r)) == Calling(s, r, q, false, map[op := Dropped])
  {
    assert s.active + {r} - {r} == s.active;
  }

  /**
   From every state with an open table: a call on it whose first step is refused ends with the
   adapter's handle neither cancelled nor finished, although nobody cancelled the call.
   */
  lemma ARefusedStepIsDropped(s: State, d: nat, t: nat, r: nat, range: bool, op: nat)
    requires Inv(s) && IsOpen(s, d) && IsOpenTable(s, t) && s.tables[t].dataset == d
    requires r !in s.requests && op !in s.owners
    ensures var es := [StartCall(r, d, Some(t), range), Begin(r), Answer(r, op, false), Refuse(r), EndCall(r)];
            && Follows(s, es)
            && var c := Run(s, es);
               c.active == s.active && r in c.requests && !c.requests[r].cancelled && op in c.owners && c.owners[op] == Dropped
  {
    hide Next, Enabled, Calling, Inv, IsOpen, IsOpenTable;
    var q := Request(if range then RangeKind else AsyncKind, Some(d), Some(t), false, None, Idle, false);
    NotYetActive(s, r);
    CallStarts(s, r, d, t, range);
    CallBegins(s, r, q);
    CallAnswered(s, r, q.(arrival := Begun), op);
    CallRefused(s, r, q.(arrival := Arrived(op)), op);
    CallEnds(s, r, q, op);
    var e1 := [EndCall(r)] + [];
    OneStep(Calling(s, r, q, true, map[op := Dropped]), EndCall(r), []);
    OneStep(Calling(s, r, q.(arrival := Arrived(op)), true, map[op := Unclaimed(r)]), Refuse(r), e1);
    var e2 := [Refuse(r)] + e1;
    OneStep(Calling(s, r, q.(arrival := Begun), true, map[]), Answer(r, op, false), e2);
    var e3 := [Answer(r, op, false)] + e2;
    OneStep(Calling(s, r, q, true, map[]), Begin(r), e3);
    var e4 := [Begin(r)] + e3;
    OneStep(s, StartCall(r, d, Some(t), range), e4);
    assert [StartCall(r, d, Some(t), range)] + e4
        == [StartCall(r, d, Some(t), range), Begin(r), Answer(r, op, false), Refuse(r), EndCall(r)];
    assert Run(s, [StartCall(r, d, Some(t), range)] + e4) == Calling(s, r, q, false, map[op := Dropped]);
    CallLeft(s, r, q, op);
  }

  lemma NotYetActive(s: State, r: nat)
    requires Inv(s) && r !in s.requests
    ensures r !in s.active
  {
  }

  lemma CallLeft(s: State, r: nat, q: Request, op: nat)
    ensures var c := Calling(s, r, q, false, map[op := Dropped]);
            c.active == s.active && r in c.requests && c.requests[r] == q && op in c.owners && c.owners[op] == Dropped
  {
  }

  /** One open under way, or ended, and nothing else. */
  function Opening(op: Option<nat>, arrival: Arrival, slot: bool, owners: map<nat, Owner>, active: set<nat>): State {
    State(map[0 := Request(OpenKind, None, None, false, op, arrival, slot)], active, map[], map[],
          owners, if slot then {0} else {}, if slot then 1 else 0, {}, {}, false)
  }

  lemma OpeningStarts()
    ensures Enabled(START, StartOpen(0))
    ensures Next(START, StartOpen(0)) == Opening(None, Idle, false, map[], {0})
  {
    var c := Next(START, StartOpen(0));
    assert c.requests == Opening(None, Idle, false, map[], {0}).requests && c.owners == Opening(None, Idle, false, map[], {0}).owners;
    assert c.active == Opening(None, Idle, false, map[], {0}).active && c.holders == Opening(None, Idle, false, map[], {0}).holders;
  }

  lemma OpeningReserves()
    ensures Enabled(Opening(None, Idle, false, map[], {0}), ReserveSlot(0))
    ensures Next(Opening(None, Idle, false, map[], {0}), ReserveSlot(0)) == Opening(None, Idle, true, map[], {0})
  {
    var c := Next(Opening(None, Idle, false, map[], {0}), ReserveSlot(0));
    assert c.requests == Opening(None, Idle, true, map[], {0}).requests && c.owners == Opening(None, Idle, true, map[], {0}).owners;
    assert c.active == Opening(None, Idle, true, map[], {0}).active && c.holders == Opening(None, Idle, true, map[], {0}).holders;
  }

  lemma OpeningBegins()
    ensures Enabled(Opening(None, Idle, true, map[], {0}), Begin(0))
    ensures Next(Opening(None, Idle, true, map[], {0}), Begin(0)) == Opening(None, Begun, true, map[], {0})
  {
    var c := Next(Opening(None, Idle, true, map[], {0}), Begin(0));
    assert c.requests == Opening(None, Begun, true, map[], {0}).requests && c.owners == Opening(None, Begun, true, map[], {0}).owners;
    assert c.active == Opening(None, Begun, true, map[], {0}).active && c.holders == Opening(None, Begun, true, map[], {0}).holders;
  }

  lemma OpeningAnswers()
    ensures Enabled(Opening(None, Begun, true, map[], {0}), Answer(0, 7, false))
    ensures Next(Opening(None, Begun, true, map[], {0}), Answer(0, 7, false)) == Opening(None, Arrived(7), true, map[7 := Unclaimed(0)], {0})
  {
    var c := Next(Opening(None, Begun, true, map[], {0}), Answer(0, 7, false));
    assert c.requests == Opening(None, Arrived(7), true, map[7 := Unclaimed(0)], {0}).requests && c.owners == Opening(None, Arrived(7), true, map[7 := Unclaimed(0)], {0}).owners;
    assert c.active == Opening(None, Arrived(7), true, map[7 := Unclaimed(0)], {0}).active && c.holders == Opening(None, Arrived(7), true, map[7 := Unclaimed(0)], {0}).holders;
  }

  lemma OpeningResumes()
    ensures Enabled(Opening(None, Arrived(7), true, map[7 := Unclaimed(0)], {0}), Resume(0))
    ensures Next(Opening(None, Arrived(7), true, map[7 := Unclaimed(0)], {0}), Resume(0)) == Opening(Some(7), Idle, true, map[7 := OfRequest(0)], {0})
  {
    var c := Next(Opening(None, Arrived(7), true, map[7 := Unclaimed(0)], {0}), Resume(0));
    assert c.requests == Opening(Some(7), Idle, true, map[7 := OfRequest(0)], {0}).requests && c.owners == Opening(Some(7), Idle, true, map[7 := OfRequest(0)], {0}).owners;
    assert c.active == Opening(Some(7), Idle, true, map[7 := OfRequest(0)], {0}).active && c.holders == Opening(Some(7), Idle, true, map[7 := OfRequest(0)], {0}).holders;
  }

  lemma OpeningFails()
    ensures Enabled(Opening(Some(7), Idle, true, map[7 := OfRequest(0)], {0}), FailOpen(0, false))
    ensures Next(Opening(Some(7), Idle, true, map[7 := OfRequest(0)], {0}), FailOpen(0, false)) == Opening(None, Idle, false, map[7 := Dropped], {})
  {
    var c := Next(Opening(Some(7), Idle, true, map[7 := OfRequest(0)], {0}), FailOpen(0, false));
    assert c.requests == Opening(None, Idle, false, map[7 := Dropped], {}).requests && c.owners == Opening(None, Idle, false, map[7 := Dropped], {}).owners;
    assert c.active == Opening(None, Idle, false, map[7 := Dropped], {}).active && c.holders == Opening(None, Idle, false, map[7 := Dropped], {}).holders;
  }

  lemma OpeningEnd()
    ensures var end := Opening(None, Idle, false, map[7 := Dropped], {});
            end.active == {} && 7 in end.owners && end.owners[7] == Dropped
  {
  }

  /** A run that loses a handle: the adapter's first progress step names no source, so the open fails holding it. */
  lemma AHandleCanBeDropped()
    ensures exists es :: Follows(START, es) && Run(START, es).active == {}
                         && 7 in Run(START, es).owners && Run(START, es).owners[7] == Dropped
  {
    hide Next, Enabled, Opening;
    OpeningStarts();
    OpeningReserves();
    OpeningBegins();
    OpeningAnswers();
    OpeningResumes();
    OpeningFails();
    var end := Opening(None, Idle, false, map[7 := Dropped], {});
    assert end.active == {} && 7 in end.owners && end.owners[7] == Dropped by { OpeningEnd(); }
    OneStep(Opening(Some(7), Idle, true, map[7 := OfRequest(0)], {0}), FailOpen(0, false), []);
    var e5 := [FailOpen(0, false)] + [];
    OneStep(Opening(None, Arrived(7), true, map[7 := Unclaimed(0)], {0}), Resume(0), e5);
    var e4 := [Resume(0)] + e5;
    OneStep(Opening(None, Begun, true, map[], {0}), Answer(0, 7, false), e4);
    var e3 := [Answer(0, 7, false)] + e4;
    OneStep(Opening(None, Idle, true, map[], {0}), Begin(0), e3);
    var e2 := [Begin(0)] + e3;
    OneStep(Opening(None, Idle, false, map[], {0}), ReserveSlot(0), e2);
    OneStep(START, StartOpen(0), [ReserveSlot(0)] + e2);
  }
}
