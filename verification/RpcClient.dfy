/** The main thread's request multiplexer (`WorkerRpcClient` in `js/rpc-client.ts`). */
module RpcClient {
  import opened Common

  /** How the promise of a request was settled. */
  datatype Settlement = Resolved | Failed | WrongKind | Aborted | Stopped | NotSent

  datatype Message = RequestMessage(id: nat) | CancelMessage(id: nat, target: nat)

  /** `pending` holds the kind of response that each request expects; `settled` and `posted` record the past. */
  datatype Rpc = Rpc(pending: map<nat, nat>, nextId: nat, closed: bool, settled: map<nat, Settlement>, posted: seq<Message>)

  function Cancels(posted: seq<Message>, target: nat): nat {
    if posted == [] then 0
    else Cancels(posted[..|posted| - 1], target)
         + var last := posted[|posted| - 1]; if last.CancelMessage? && last.target == target then 1 else 0
  }

  /** Every request is pending or settled, never both; an aborted one, and no other, has one cancel message. */
  ghost predicate RpcOk(r: Rpc) {
    && r.pending.Keys !! r.settled.Keys && (r.closed ==> r.pending == map[])
    && (forall id :: id in r.pending || id in r.settled ==> id < r.nextId)
    && (forall id :: Cancels(r.posted, id) == if id in r.settled && r.settled[id] == Aborted then 1 else 0)
  }

  // ---------------------------------------------------------------- the steps

  /** `request`, once it has an id; a closed client and an aborted signal refuse before that. */
  function Requested(r: Rpc, kind: nat, sent: bool): Rpc {
    if r.closed then r
    else if !sent then r.(nextId := r.nextId + 1, settled := r.settled[r.nextId := NotSent])
    else r.(nextId := r.nextId + 1, pending := r.pending[r.nextId := kind], posted := r.posted + [RequestMessage(r.nextId)])
  }

  function Settle(r: Rpc, id: nat, how: Settlement): Rpc {
    r.(pending := r.pending - {id}, settled := r.settled[id := how])
  }

  /** The abort listener of a request. */
  function AbortedBy(r: Rpc, id: nat): Rpc {
    if id !in r.pending then r
    else
      var s := Settle(r, id, Aborted);
      if r.closed then s else s.(nextId := r.nextId + 1, posted := r.posted + [CancelMessage(r.nextId, id)])
  }

  /** `#stop`: all that is pending is rejected. */
  function StoppedAll(r: Rpc): Rpc {
    if r.closed then r
    else r.(closed := true, pending := map[], settled := map id | id in r.settled.Keys + r.pending.Keys ::
                                                           if id in r.pending then Stopped else r.settled[id])
  }

  /** A valid response: a failure, a result of some kind, or an answer to nobody. */
  function Responded(r: Rpc, id: nat, failure: bool, kind: nat): Rpc {
    if r.closed || id !in r.pending then r
    else if failure then Settle(r, id, Failed)
    else if kind != r.pending[id] then StoppedAll(Settle(r, id, WrongKind))
    else Settle(r, id, Resolved)
  }

  // ---------------------------------------------------------------- what they keep

  /** A settled promise keeps its settlement: it is settled at most once. */
  ghost predicate Keeps(r: Rpc, c: Rpc) {
    && (forall id :: id in r.settled ==> id in c.settled && c.settled[id] == r.settled[id])
    && (forall id :: id in r.pending ==> id in c.pending || id in c.settled)
    && (r.closed ==> c.closed) && r.nextId <= c.nextId
  }

  lemma CancelsGrow(posted: seq<Message>, m: Message, target: nat)
    ensures Cancels(posted + [m], target) == Cancels(posted, target) + if m.CancelMessage? && m.target == target then 1 else 0
  {
    assert (posted + [m])[..|posted|] == posted;
  }

  lemma RequestKeeps(r: Rpc, kind: nat, sent: bool)
    requires RpcOk(r)
    ensures var c := Requested(r, kind, sent);
            && RpcOk(c) && Keeps(r, c)
            && (!r.closed ==> r.nextId !in r.pending && r.nextId !in r.settled && (r.nextId in c.pending <==> sent))
  {
    var c := Requested(r, kind, sent);
    forall id ensures Cancels(c.posted, id) == if id in c.settled && c.settled[id] == Aborted then 1 else 0 {
      CancelsGrow(r.posted, RequestMessage(r.nextId), id);
    }
  }

  lemma AbortKeeps(r: Rpc, id: nat)
    requires RpcOk(r)
    ensures var c := AbortedBy(r, id);
            && RpcOk(c) && Keeps(r, c) && id !in c.pending
            && (id in r.pending ==> c.settled[id] == Aborted && Cancels(c.posted, id) == 1)
            && (id !in r.pending ==> c == r)
            && (forall i :: i != id && i in r.pending ==> i in c.pending)
  {
    var c := AbortedBy(r, id);
    if id in r.pending {
      forall i ensures Cancels(c.posted, i) == if i in c.settled && c.settled[i] == Aborted then 1 else 0 {
        CancelsGrow(r.posted, CancelMessage(r.nextId, id), i);
      }
    }
  }

  lemma StopKeeps(r: Rpc)
    requires RpcOk(r)
    ensures var c := StoppedAll(r); RpcOk(c) && Keeps(r, c) && c.closed && c.pending == map[]
  {
  }

  lemma RespondKeeps(r: Rpc, id: nat, failure: bool, kind: nat)
    requires RpcOk(r)
    ensures var c := Responded(r, id, failure, kind);
            && RpcOk(c) && Keeps(r, c) && id !in c.pending && (id !in r.pending ==> c == r)
            && (id in r.pending ==> c.settled[id] == if failure then Failed else if kind != r.pending[id] then WrongKind else Resolved)
            && (if id in r.pending && !failure && kind != r.pending[id] then c.closed && c.pending == map[]
                else c.closed == r.closed && c.pending == r.pending - {id})
  {
    if !r.closed && id in r.pending {
      assert RpcOk(Settle(r, id, WrongKind));
      StopKeeps(Settle(r, id, WrongKind));
    }
  }

  // ---------------------------------------------------------------- a call from its request to its answer

  /** What a request adds: one message and one pending call of the kind asked for, or, if it cannot be sent, a settled one. */
  lemma RequestAdds(r: Rpc, kind: nat, sent: bool)
    requires RpcOk(r)
    ensures var c, id := Requested(r, kind, sent), r.nextId;
            && (forall i :: i != id ==> (i in c.pending <==> i in r.pending) && (i in c.settled <==> i in r.settled))
            && (forall i :: i != id && i in r.pending ==> c.pending[i] == r.pending[i])
            && (r.closed ==> id !in c.pending && id !in c.settled && c.posted == r.posted)
            && (!r.closed && sent ==> id in c.pending && c.pending[id] == kind && c.posted == r.posted + [RequestMessage(id)])
            && (!r.closed && !sent ==> id in c.settled && c.settled[id] == NotSent && c.posted == r.posted)
  {
  }

  /** An abort takes one call away and posts one message. */
  lemma AbortTakesOne(r: Rpc, id: nat)
    requires RpcOk(r) && id in r.pending
    ensures var c := AbortedBy(r, id);
            && c.pending == r.pending - {id} && c.posted == r.posted + [CancelMessage(r.nextId, id)] && c.closed == r.closed
            && (forall i :: i != id ==> (i in c.settled <==> i in r.settled))
  {
  }

  /** Stopping settles every pending call as stopped, and posts nothing. */
  lemma StopSettles(r: Rpc)
    requires RpcOk(r)
    ensures var c := StoppedAll(r);
            && (forall id :: id in r.pending ==> id in c.settled && c.settled[id] == Stopped)
            && c.settled.Keys == r.settled.Keys + r.pending.Keys && c.posted == r.posted
  {
  }

  datatype Event = Request(kind: nat, sent: bool) | Abort(id: nat) | Response(id: nat, failure: bool, kind: nat) | Stop

  function Next(r: Rpc, e: Event): Rpc {
    match e
    case Request(kind, sent) => Requested(r, kind, sent)
    case Abort(id) => AbortedBy(r, id)
    case Response(id, failure, kind) => Responded(r, id, failure, kind)
    case Stop => StoppedAll(r)
  }

  function Run(r: Rpc, es: seq<Event>): Rpc
    decreases |es|
  {
    if es == [] then r else Run(Next(r, es[0]), es[1..])
  }

  lemma NextKeeps(r: Rpc, e: Event)
    requires RpcOk(r)
    ensures RpcOk(Next(r, e)) && Keeps(r, Next(r, e))
  {
    hide RpcOk, Keeps;
    match e
    case Request(kind, sent) => RequestKeeps(r, kind, sent);
    case Abort(id) => AbortKeeps(r, id);
    case Response(id, failure, kind) => RespondKeeps(r, id, failure, kind);
    case Stop => StopKeeps(r);
  }

  lemma {:induction false} RunIsOk(r: Rpc, es: seq<Event>)
    requires RpcOk(r)
    ensures RpcOk(Run(r, es)) && r.nextId <= Run(r, es).nextId
    decreases |es|
  {
    if es != [] {
      NextKeeps(r, es[0]);
      RunIsOk(Next(r, es[0]), es[1..]);
    }
  }

  lemma NextKeepsKind(r: Rpc, e: Event, id: nat)
    requires RpcOk(r) && id < r.nextId && id in Next(r, e).pending
    ensures id in r.pending && Next(r, e).pending[id] == r.pending[id]
  {
    hide RpcOk;
  }

  /** While a call is pending it waits for the kind of response it asked for. */
  lemma {:induction false} PendingKeepsKind(r: Rpc, es: seq<Event>, id: nat)
    requires RpcOk(r) && id < r.nextId && id in Run(r, es).pending
    ensures id in r.pending && Run(r, es).pending[id] == r.pending[id]
    decreases |es|
  {
    if es != [] {
      NextKeeps(r, es[0]);
      PendingKeepsKind(Next(r, es[0]), es[1..], id);
      NextKeepsKind(r, es[0], id);
      hide RpcOk, Next;
    }
  }

  /**
   Whatever happens between the request and its answer: a call that is still pending then is resolved by
   an answer of the kind it asked for, and by no other; one of another kind stops the client.
   */
  lemma AnswerResolves(r: Rpc, kind: nat, es: seq<Event>, answer: nat)
    requires RpcOk(r) && !r.closed && r.nextId in Run(Requested(r, kind, true), es).pending
    ensures var c := Responded(Run(Requested(r, kind, true), es), r.nextId, false, answer);
            && r.nextId in c.settled && r.nextId !in c.pending
            && (c.settled[r.nextId] == Resolved <==> answer == kind)
            && (answer != kind ==> c.settled[r.nextId] == WrongKind && c.closed && c.pending == map[])
  {
    var first := Requested(r, kind, true);
    RequestKeeps(r, kind, true);
    RequestAdds(r, kind, true);
    assert r.nextId < first.nextId;
    RunIsOk(first, es);
    PendingKeepsKind(first, es, r.nextId);
    RespondKeeps(Run(first, es), r.nextId, false, answer);
    hide RpcOk, Keeps, Run, Responded, Requested;
  }

  // ---------------------------------------------------------------- the client

  class WorkerRpcClient {
    var pending: map<nat, nat>
    var nextRequestId: nat
    var closed: bool
    ghost var settled: map<nat, Settlement>
    ghost var posted: seq<Message>

    ghost function View(): Rpc
      reads this
    {
      Rpc(pending, nextRequestId, closed, settled, posted)
    }

    constructor ()
      ensures View() == Rpc(map[], 1, false, map[], []) && RpcOk(View())
    {
      pending, nextRequestId, closed := map[], 1, false;
      settled, posted := map[], [];
    }

    ghost method Settles(id: nat, how: Settlement)
      modifies this`settled
      ensures settled == old(settled)[id := how]
    {
      settled := settled[id := how];
    }

    ghost method Posts(m: Message)
      modifies this`posted
      ensures posted == old(posted) + [m]
    {
      posted := posted + [m];
    }

    /** `sent` tells whether the Worker takes the message. */
    method Request(kind: nat, aborted: bool, sent: bool) returns (r: Result<nat>)
      requires RpcOk(View())
      modifies this
      ensures RpcOk(View())
      ensures View() == if aborted then old(View()) else Requested(old(View()), kind, sent)
      ensures old(closed) ==> r == Err(HandleClosed)
      ensures !old(closed) && aborted ==> r == Err(CallCancelled)
      ensures !old(closed) && !aborted ==> r == if sent then Ok(old(nextRequestId)) else Err(RuntimeFailure)
    {
      RequestKeeps(View(), kind, sent);
      if closed {
        return Err(HandleClosed);
      }
      if aborted {
        return Err(CallCancelled);
      }
      var id := nextRequestId;
      nextRequestId := nextRequestId + 1;
      pending := pending[id := kind];
      if !sent {
        pending := pending - {id};
        Settles(id, NotSent);
        return Err(RuntimeFailure);
      }
      Posts(RequestMessage(id));
      return Ok(id);
    }

    method PostCancel(target: nat)
      modifies this`nextRequestId, this`posted
      ensures closed ==> View() == old(View())
      ensures !closed ==> View() == old(View()).(nextId := old(nextRequestId) + 1, posted := old(posted) + [CancelMessage(old(nextRequestId), target)])
    {
      if closed {
        return;
      }
      Posts(CancelMessage(nextRequestId, target));
      nextRequestId := nextRequestId + 1;
    }

    method Abort(id: nat)
      requires RpcOk(View())
      modifies this
      ensures RpcOk(View()) && View() == AbortedBy(old(View()), id)
    {
      AbortKeeps(View(), id);
      if id !in pending {
        return;
      }
      pending := pending - {id};
      PostCancel(id);
      Settles(id, Aborted);
    }

    method FailPending()
      modifies this`pending, this`settled
      ensures pending == map[]
      ensures settled == map id | id in old(settled).Keys + old(pending).Keys :: if id in old(pending) then Stopped else old(settled)[id]
    {
      var todo := pending.Keys;
      ghost var was := settled;
      while todo != {}
        invariant todo <= pending.Keys && pending == old(pending)
        invariant settled.Keys == was.Keys + (pending.Keys - todo)
        invariant forall id :: id in settled ==> settled[id] == if id in pending && id !in todo then Stopped else was[id]
        decreases todo
      {
        var id :| id in todo;
        Settles(id, Stopped);
        todo := todo - {id};
      }
      pending := map[];
    }

    method Stop() returns (stopped: bool)
      requires RpcOk(View())
      modifies this
      ensures RpcOk(View()) && View() == StoppedAll(old(View())) && (stopped <==> !old(closed))
    {
      StopKeeps(View());
      if closed {
        return false;
      }
      closed := true;
      FailPending();
      return true;
    }

    /** `#handleMessage` for a valid response. */
    method HandleResponse(id: nat, failure: bool, kind: nat)
      requires RpcOk(View())
      modifies this
      ensures RpcOk(View()) && View() == Responded(old(View()), id, failure, kind)
    {
      RespondKeeps(View(), id, failure, kind);
      if closed || id !in pending {
        return;
      }
      var expected := pending[id];
      pending := pending - {id};
      if failure {
        Settles(id, Failed);
        return;
      }
      if kind != expected {
        Settles(id, WrongKind);
        var _ := Stop();
        return;
      }
      Settles(id, Resolved);
    }
  }
}
