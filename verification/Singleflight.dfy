/**
 Sharing one range request among its callers (`readRange`, `#createRangeSingleflight`,
 `#joinRangeSingleflight` and `clearDatasetCache` in `js/client.ts`).  Keys, flights and callers are
 named by numbers.
 */
module Singleflight {
  import opened Common
  import opened RpcClient

  /** `request` is the id that the client gave, if it sent the request; `aborted` that of the shared controller. */
  datatype Flight = Flight(key: nat, dataset: nat, callers: set<nat>, settled: bool, aborted: bool, request: Option<nat>)

  /** `owner` tells which flight a request belongs to. */
  datatype Engine = Engine(rpc: Rpc, flights: map<nat, Flight>, byKey: map<nat, nat>, owner: map<nat, nat>)

  predicate Live(f: Flight) {
    !f.settled && !f.aborted
  }

  predicate FlightOk(s: Engine, f: nat)
    requires f in s.flights
  {
    var flight := s.flights[f];
    && (Live(flight) ==> flight.key in s.byKey && s.byKey[flight.key] == f && flight.callers != {})
    && (flight.request.Some? ==>
          var id := flight.request.value;
          && id in s.owner && s.owner[id] == f && (id in s.rpc.pending || id in s.rpc.settled)
          && (flight.aborted ==> id !in s.rpc.pending)
          && (!flight.aborted && id in s.rpc.settled ==> s.rpc.settled[id] != Aborted))
  }

  ghost predicate EngineOk(s: Engine) {
    && RpcOk(s.rpc)
    && (forall f :: f in s.flights ==> FlightOk(s, f))
    && (forall k :: k in s.byKey ==> s.byKey[k] in s.flights && s.flights[s.byKey[k]].key == k && Live(s.flights[s.byKey[k]]))
    && (forall id :: id in s.owner ==> id < s.rpc.nextId && s.owner[id] in s.flights)
  }

  // ---------------------------------------------------------------- the steps

  function Created(s: Engine, f: nat, key: nat, dataset: nat, caller: nat, kind: nat, sent: bool): Engine {
    var request := if !s.rpc.closed && sent then Some(s.rpc.nextId) else None;
    Engine(Requested(s.rpc, kind, sent), s.flights[f := Flight(key, dataset, {caller}, false, false, request)],
           s.byKey[key := f], if request.Some? then s.owner[request.value := f] else s.owner)
  }

  /** `readRange` with a signal that is not aborted yet: join the flight of the key, or start it. */
  function Read(s: Engine, f: nat, key: nat, dataset: nat, caller: nat, kind: nat, sent: bool): Engine {
    if key in s.byKey && s.byKey[key] in s.flights then
      var g := s.byKey[key];
      s.(flights := s.flights[g := s.flights[g].(callers := s.flights[g].callers + {caller})])
    else Created(s, f, key, dataset, caller, kind, sent)
  }

  function Freed(s: Engine, f: nat): map<nat, nat>
    requires f in s.flights
  {
    var key := s.flights[f].key;
    if key in s.byKey && s.byKey[key] == f then s.byKey - {key} else s.byKey
  }

  /** The key is freed and the shared controller aborted, which cancels the request if it is still pending. */
  function Dropped(s: Engine, f: nat): Engine
    requires f in s.flights
  {
    var flight := s.flights[f];
    s.(byKey := Freed(s, f), flights := s.flights[f := flight.(aborted := true)],
       rpc := if flight.request.Some? then AbortedBy(s.rpc, flight.request.value) else s.rpc)
  }

  /** The `finally` of a caller. */
  function Left(s: Engine, f: nat, caller: nat): Engine
    requires f in s.flights
  {
    var flight := s.flights[f].(callers := s.flights[f].callers - {caller});
    var c := s.(flights := s.flights[f := flight]);
    if !flight.settled && flight.callers == {} then Dropped(c, f) else c
  }

  /** The flight's promise is settled once that of its request is. */
  predicate MaySettle(s: Engine, f: nat) {
    f in s.flights && !s.flights[f].settled
    && (s.flights[f].request.Some? ==> s.flights[f].request.value in s.rpc.settled)
  }

  function Settled(s: Engine, f: nat): Engine
    requires f in s.flights
  {
    s.(flights := s.flights[f := s.flights[f].(settled := true)], byKey := Freed(s, f))
  }

  // ---------------------------------------------------------------- what they keep

  lemma ReadKeeps(s: Engine, f: nat, key: nat, dataset: nat, caller: nat, kind: nat, sent: bool)
    requires EngineOk(s) && f !in s.flights
    ensures var c := Read(s, f, key, dataset, caller, kind, sent);
            && EngineOk(c) && key in c.byKey && caller in c.flights[c.byKey[key]].callers
            && (key in s.byKey ==> c.byKey == s.byKey && c.rpc == s.rpc)
            && (key !in s.byKey ==> c.byKey[key] == f && c.flights[f].callers == {caller})
  {
    if key in s.byKey {
      JoinKeeps(s, f, key, dataset, caller, kind, sent);
    } else {
      CreateKeeps(s, f, key, dataset, caller, kind, sent);
    }
  }

  lemma JoinKeeps(s: Engine, f: nat, key: nat, dataset: nat, caller: nat, kind: nat, sent: bool)
    requires EngineOk(s) && key in s.byKey
    ensures EngineOk(Read(s, f, key, dataset, caller, kind, sent))
  {
    hide RpcOk, Requested, Created;
    var c := Read(s, f, key, dataset, caller, kind, sent);
    forall g | g in c.flights ensures FlightOk(c, g) {
      assert FlightOk(s, g);
    }
  }

  lemma OldFlightOk(s: Engine, f: nat, key: nat, dataset: nat, caller: nat, kind: nat, sent: bool, g: nat)
    requires EngineOk(s) && f !in s.flights && key !in s.byKey && g in s.flights
    ensures var c := Created(s, f, key, dataset, caller, kind, sent); g in c.flights && FlightOk(c, g)
  {
    hide RpcOk, Requested;
    RequestIds(s.rpc, kind, sent);
    RequestKeeps(s.rpc, kind, sent);
    assert FlightOk(s, g);
  }

  lemma NewFlightOk(s: Engine, f: nat, key: nat, dataset: nat, caller: nat, kind: nat, sent: bool)
    requires f !in s.flights && RpcOk(s.rpc)
    ensures var c := Created(s, f, key, dataset, caller, kind, sent); f in c.flights && FlightOk(c, f)
  {
    RequestIds(s.rpc, kind, sent);
  }

  lemma CreateKeeps(s: Engine, f: nat, key: nat, dataset: nat, caller: nat, kind: nat, sent: bool)
    requires EngineOk(s) && f !in s.flights && key !in s.byKey
    ensures EngineOk(Created(s, f, key, dataset, caller, kind, sent))
  {
    hide RpcOk, Requested, FlightOk;
    RequestKeeps(s.rpc, kind, sent);
    RequestIds(s.rpc, kind, sent);
    var c := Created(s, f, key, dataset, caller, kind, sent);
    forall g | g in c.flights ensures FlightOk(c, g) {
      if g in s.flights {
        OldFlightOk(s, f, key, dataset, caller, kind, sent, g);
      } else {
        NewFlightOk(s, f, key, dataset, caller, kind, sent);
      }
    }
  }

  lemma RequestIds(r: Rpc, kind: nat, sent: bool)
    ensures var c := Requested(r, kind, sent);
            && (!r.closed && sent ==> r.nextId in c.pending && c.nextId == r.nextId + 1)
            && (forall id :: id != r.nextId ==> (id in c.pending <==> id in r.pending))
            && (forall id :: id != r.nextId ==> (id in c.settled <==> id in r.settled))
            && (forall id :: id != r.nextId && id in r.settled ==> c.settled[id] == r.settled[id])
  {
  }

  lemma AbortIds(r: Rpc, id: nat)
    ensures var c := AbortedBy(r, id);
            && (forall i :: i != id ==> (i in c.pending <==> i in r.pending) && (i in c.settled <==> i in r.settled))
            && (forall i :: i != id && i in r.settled ==> c.settled[i] == r.settled[i])
            && (id in c.settled <==> id in r.settled || id in r.pending) && r.nextId <= c.nextId
  {
  }

  /** Dropping a flight frees its key and touches no other flight; its pending request gets the one cancel message. */
  lemma DropKeeps(s: Engine, f: nat)
    requires EngineOk(s) && f in s.flights && !s.flights[f].settled
    ensures var c := Dropped(s, f);
            && EngineOk(c) && (Live(s.flights[f]) ==> s.flights[f].key !in c.byKey) && c.flights - {f} == s.flights - {f}
            && (s.flights[f].request.Some? && s.flights[f].request.value in s.rpc.pending ==>
                  Cancels(s.rpc.posted, s.flights[f].request.value) == 0 && Cancels(c.rpc.posted, s.flights[f].request.value) == 1)
            && (s.flights[f].request.None? || s.flights[f].request.value !in s.rpc.pending ==> c.rpc == s.rpc)
  {
    var c := Dropped(s, f);
    assert FlightOk(s, f);
    if s.flights[f].request.Some? {
      AbortKeeps(s.rpc, s.flights[f].request.value);
      AbortIds(s.rpc, s.flights[f].request.value);
    }
    assert c.flights - {f} == s.flights - {f};
    hide RpcOk, AbortedBy;
    forall g | g in c.flights ensures FlightOk(c, g) {
      assert FlightOk(s, g);
    }
  }

  /** The state in which one caller has gone, before anything else happens. */
  function CallerGone(s: Engine, f: nat, caller: nat): Engine
    requires f in s.flights
  {
    s.(flights := s.flights[f := s.flights[f].(callers := s.flights[f].callers - {caller})])
  }

  lemma GoneKeeps(s: Engine, f: nat, caller: nat)
    requires EngineOk(s) && f in s.flights && (Live(s.flights[f]) ==> s.flights[f].callers - {caller} != {})
    ensures EngineOk(CallerGone(s, f, caller))
  {
    hide RpcOk;
    var c := CallerGone(s, f, caller);
    forall g | g in c.flights ensures FlightOk(c, g) {
      assert FlightOk(s, g);
    }
  }

  /** The last caller may as well go after the flight is dropped. */
  lemma LastLeft(s: Engine, f: nat, caller: nat)
    requires f in s.flights && !s.flights[f].settled && s.flights[f].callers - {caller} == {}
    ensures f in Dropped(s, f).flights && Left(s, f, caller) == CallerGone(Dropped(s, f), f, caller)
    ensures !Live(Dropped(s, f).flights[f])
  {
    hide AbortedBy;
    var left, dropped := s.flights[f].(callers := s.flights[f].callers - {caller}), s.flights[f].(aborted := true);
    assert s.flights[f := left][f := left.(aborted := true)] == s.flights[f := dropped][f := dropped.(callers := left.callers)];
  }

  lemma LeaveKeeps(s: Engine, f: nat, caller: nat)
    requires EngineOk(s) && f in s.flights
    ensures EngineOk(Left(s, f, caller))
  {
    hide EngineOk, AbortedBy, Freed;
    var flight := s.flights[f];
    if !flight.settled && flight.callers - {caller} == {} {
      DropKeeps(s, f);
      GoneKeeps(Dropped(s, f), f, caller);
      LastLeft(s, f, caller);
    } else {
      GoneKeeps(s, f, caller);
    }
  }

  /** A caller that leaves others behind takes nothing from them: same flight, same request, same key. */
  lemma OthersKeepTheFlight(s: Engine, f: nat, caller: nat)
    requires EngineOk(s) && f in s.flights && Live(s.flights[f]) && s.flights[f].callers - {caller} != {}
    ensures var c := Left(s, f, caller);
            && c.rpc == s.rpc && c.byKey == s.byKey && Live(c.flights[f]) && c.byKey[c.flights[f].key] == f
            && c.flights[f] == s.flights[f].(callers := s.flights[f].callers - {caller})
  {
    assert FlightOk(s, f);
  }

  /** The last caller frees the key in the same step, and a request still pending gets exactly one cancel message. */
  lemma LastCallerCancels(s: Engine, f: nat, caller: nat)
    requires EngineOk(s) && f in s.flights && Live(s.flights[f]) && s.flights[f].callers == {caller}
    ensures var c := Left(s, f, caller);
            && s.flights[f].key !in c.byKey && !Live(c.flights[f])
            && (s.flights[f].request.Some? && s.flights[f].request.value in s.rpc.pending ==>
                  Cancels(s.rpc.posted, s.flights[f].request.value) == 0 && Cancels(c.rpc.posted, s.flights[f].request.value) == 1)
            && (s.flights[f].request.None? || s.flights[f].request.value !in s.rpc.pending ==> c.rpc == s.rpc)
  {
    DropKeeps(s, f);
    assert Left(s, f, caller).rpc == Dropped(s, f).rpc && Left(s, f, caller).byKey == Dropped(s, f).byKey;
  }

  lemma SettleKeeps(s: Engine, f: nat)
    requires EngineOk(s) && f in s.flights
    ensures EngineOk(Settled(s, f)) && f !in Settled(s, f).byKey.Values
  {
    hide RpcOk;
    var c := Settled(s, f);
    forall g | g in c.flights ensures FlightOk(c, g) {
      assert FlightOk(s, g);
    }
  }

  /** A response or a stop reaches the requests and leaves the flights to settle. */
  lemma RpcKeeps(s: Engine, after: Rpc)
    requires EngineOk(s) && RpcOk(after) && Keeps(s.rpc, after)
    requires forall id :: id in after.settled && id !in s.rpc.settled ==> after.settled[id] != Aborted
    requires forall id :: id in after.pending ==> id in s.rpc.pending
    ensures EngineOk(s.(rpc := after))
  {
    hide RpcOk;
    var c := s.(rpc := after);
    forall g | g in c.flights ensures FlightOk(c, g) {
      assert FlightOk(s, g);
    }
  }

  lemma ResponseKeeps(s: Engine, id: nat, failure: bool, kind: nat)
    requires EngineOk(s)
    ensures EngineOk(s.(rpc := Responded(s.rpc, id, failure, kind)))
  {
    RespondKeeps(s.rpc, id, failure, kind);
    RpcKeeps(s, Responded(s.rpc, id, failure, kind));
  }

  /** Once the client has stopped every flight can settle: nobody waits for ever. */
  lemma StopReleasesEveryFlight(s: Engine)
    requires EngineOk(s)
    ensures var c := s.(rpc := StoppedAll(s.rpc));
            EngineOk(c) && forall f :: f in c.flights && !c.flights[f].settled ==> MaySettle(c, f)
  {
    StopKeeps(s.rpc);
    var c := s.(rpc := StoppedAll(s.rpc));
    RpcKeeps(s, c.rpc);
    forall f | f in c.flights && !c.flights[f].settled ensures MaySettle(c, f) {
      assert FlightOk(c, f);
    }
  }

  /** At most one request for a key is under way that anybody still wants. */
  lemma OneLiveFlightPerKey(s: Engine, f: nat, g: nat)
    requires EngineOk(s) && f in s.flights && g in s.flights && Live(s.flights[f]) && Live(s.flights[g])
    requires s.flights[f].key == s.flights[g].key
    ensures f == g
  {
    assert FlightOk(s, f) && FlightOk(s, g);
  }

  // ---------------------------------------------------------------- what else is touched

  /** Joining adds the caller to the flight of its key, and does nothing else. */
  lemma JoinAddsCaller(s: Engine, f: nat, key: nat, dataset: nat, caller: nat, kind: nat, sent: bool)
    requires EngineOk(s) && key in s.byKey
    ensures var c, g := Read(s, f, key, dataset, caller, kind, sent), s.byKey[key];
            && c.rpc == s.rpc && c.byKey == s.byKey && c.owner == s.owner && c.flights.Keys == s.flights.Keys && g in s.flights
            && c.flights[g] == s.flights[g].(callers := s.flights[g].callers + {caller})
            && forall h :: h in s.flights && h != g ==> c.flights[h] == s.flights[h]
  {
    hide RpcOk, FlightOk;
  }

  /** Starting a flight posts exactly one request, which is the flight's, and touches no other flight. */
  lemma StartPostsOnce(s: Engine, f: nat, key: nat, dataset: nat, caller: nat, kind: nat, sent: bool)
    requires EngineOk(s) && key !in s.byKey && f !in s.flights
    ensures var c, id := Read(s, f, key, dataset, caller, kind, sent), s.rpc.nextId;
            && c.flights.Keys == s.flights.Keys + {f} && (forall g :: g in s.flights ==> c.flights[g] == s.flights[g])
            && c.flights[f].key == key && c.flights[f].dataset == dataset && c.flights[f].callers == {caller} && Live(c.flights[f])
            && c.byKey == s.byKey[key := f]
            && (if !s.rpc.closed && sent
                then c.rpc.posted == s.rpc.posted + [RequestMessage(id)] && id in c.rpc.pending && c.rpc.pending[id] == kind
                     && c.flights[f].request == Some(id) && c.owner == s.owner[id := f]
                else c.rpc.posted == s.rpc.posted && c.flights[f].request == None && c.owner == s.owner)
  {
    RequestAdds(s.rpc, kind, sent);
    hide RpcOk, FlightOk, Requested;
  }

  /** Dropping marks one flight and frees its key; settling ends one flight and frees its key. */
  lemma OneFlightEnds(s: Engine, f: nat)
    requires EngineOk(s) && f in s.flights
    ensures var c := Settled(s, f);
            && c.rpc == s.rpc && c.owner == s.owner && c.flights == s.flights[f := s.flights[f].(settled := true)]
            && forall k :: k in c.byKey <==> k in s.byKey && s.byKey[k] != f
    ensures var c := Dropped(s, f);
            && c.owner == s.owner && c.flights == s.flights[f := s.flights[f].(aborted := true)]
            && forall k :: k in c.byKey <==> k in s.byKey && s.byKey[k] != f
    ensures forall k :: k in Settled(s, f).byKey ==> Settled(s, f).byKey[k] == s.byKey[k]
    ensures forall k :: k in Dropped(s, f).byKey ==> Dropped(s, f).byKey[k] == s.byKey[k]
  {
    hide RpcOk, FlightOk, AbortedBy;
  }

  /** Leaving a flight that is over takes only the caller away. */
  lemma LeaveAfterwards(s: Engine, f: nat, caller: nat)
    requires f in s.flights && (s.flights[f].settled || s.flights[f].callers - {caller} != {})
    ensures Left(s, f, caller) == CallerGone(s, f, caller)
  {
  }

  // ---------------------------------------------------------------- runs

  datatype Event =
    | ReadRange(flight: nat, key: nat, dataset: nat, caller: nat, kind: nat, sent: bool)
    | CallerLeaves(flight: nat, caller: nat)
    | FlightSettles(flight: nat)
    | DropFlight(flight: nat)
    | Response(id: nat, failure: bool, kind: nat)
    | RuntimeStops

  predicate Enabled(s: Engine, e: Event) {
    match e
    case ReadRange(f, _, _, _, _, _) => f !in s.flights
    case CallerLeaves(f, _) => f in s.flights
    case FlightSettles(f) => MaySettle(s, f)
    case DropFlight(f) => f in s.flights && f in s.byKey.Values
    case _ => true
  }

  function Next(s: Engine, e: Event): Engine
    requires Enabled(s, e)
  {
    match e
    case ReadRange(f, key, dataset, caller, kind, sent) => Read(s, f, key, dataset, caller, kind, sent)
    case CallerLeaves(f, caller) => Left(s, f, caller)
    case FlightSettles(f) => Settled(s, f)
    case DropFlight(f) => Dropped(s, f)
    case Response(id, failure, kind) => s.(rpc := Responded(s.rpc, id, failure, kind))
    case RuntimeStops => s.(rpc := StoppedAll(s.rpc))
  }

  lemma StepKeeps(s: Engine, e: Event)
    requires EngineOk(s) && Enabled(s, e)
    ensures EngineOk(Next(s, e)) && Keeps(s.rpc, Next(s, e).rpc)
  {
    match e
    case ReadRange(f, key, dataset, caller, kind, sent) =>
      ReadKeeps(s, f, key, dataset, caller, kind, sent);
      RequestKeeps(s.rpc, kind, sent);
      hide RpcOk, EngineOk;
    case CallerLeaves(f, caller) =>
      LeaveKeeps(s, f, caller);
      DropKeepsRpc(s, f);
      hide RpcOk, EngineOk, AbortedBy;
    case FlightSettles(f) => SettleKeeps(s, f); hide RpcOk;
    case DropFlight(f) =>
      DropKeeps(s, f);
      DropKeepsRpc(s, f);
      hide RpcOk, AbortedBy;
    case Response(id, failure, kind) =>
      ResponseKeeps(s, id, failure, kind);
      RespondKeeps(s.rpc, id, failure, kind);
      hide RpcOk, Responded;
    case RuntimeStops =>
      StopReleasesEveryFlight(s);
      StopKeeps(s.rpc);
      hide RpcOk, StoppedAll;
  }

  lemma DropKeepsRpc(s: Engine, f: nat)
    requires EngineOk(s) && f in s.flights
    ensures Keeps(s.rpc, Dropped(s, f).rpc) && Keeps(s.rpc, s.rpc)
  {
    if s.flights[f].request.Some? {
      AbortKeeps(s.rpc, s.flights[f].request.value);
    }
  }

  predicate Follows(s: Engine, es: seq<Event>)
    decreases |es|
  {
    es == [] || (Enabled(s, es[0]) && Follows(Next(s, es[0]), es[1..]))
  }

  function Run(s: Engine, es: seq<Event>): Engine
    requires Follows(s, es)
    decreases |es|
  {
    if es == [] then s else Run(Next(s, es[0]), es[1..])
  }

  /** In every run a settled request keeps its settlement, and no request is lost. */
  lemma {:induction false} RunKeeps(s: Engine, es: seq<Event>)
    requires EngineOk(s) && Follows(s, es)
    ensures EngineOk(Run(s, es)) && Keeps(s.rpc, Run(s, es).rpc)
    decreases |es|
  {
    hide EngineOk, Next, Enabled;
    if es != [] {
      StepKeeps(s, es[0]);
      RunKeeps(Next(s, es[0]), es[1..]);
    }
  }

  /** A flight has settled only with its request: no caller is answered before the Worker has answered. */
  ghost predicate Answered(s: Engine) {
    forall f :: f in s.flights && s.flights[f].settled && s.flights[f].request.Some? ==> s.flights[f].request.value in s.rpc.settled
  }

  lemma StepAnswers(s: Engine, e: Event)
    requires EngineOk(s) && Enabled(s, e) && Answered(s)
    ensures Answered(Next(s, e))
  {
    StepKeeps(s, e);
    hide EngineOk, RpcOk;
    assert Keeps(s.rpc, Next(s, e).rpc);
    match e
    case ReadRange(f, key, dataset, caller, kind, sent) => ReadAnswers(s, f, key, dataset, caller, kind, sent);
    case CallerLeaves(f, caller) => hide Keeps, AbortedBy; LeaveFlights(s, f, caller);
    case FlightSettles(f) =>
    case DropFlight(f) => hide AbortedBy;
    case Response(id, failure, kind) => hide Responded;
    case RuntimeStops => hide StoppedAll;
  }

  lemma ReadAnswers(s: Engine, f: nat, key: nat, dataset: nat, caller: nat, kind: nat, sent: bool)
    requires f !in s.flights && Answered(s) && Keeps(s.rpc, Read(s, f, key, dataset, caller, kind, sent).rpc)
    ensures Answered(Read(s, f, key, dataset, caller, kind, sent))
  {
    hide Requested;
  }

  lemma LeaveFlights(s: Engine, f: nat, caller: nat)
    requires f in s.flights
    ensures var c := Left(s, f, caller);
            c.flights.Keys == s.flights.Keys
            && forall g :: g in s.flights ==> c.flights[g].settled == s.flights[g].settled && c.flights[g].request == s.flights[g].request
  {
    hide AbortedBy;
  }

  lemma {:induction false} RunAnswers(s: Engine, es: seq<Event>)
    requires EngineOk(s) && Answered(s) && Follows(s, es)
    ensures Answered(Run(s, es))
    decreases |es|
  {
    if es != [] {
      StepKeeps(s, es[0]);
      StepAnswers(s, es[0]);
      RunAnswers(Next(s, es[0]), es[1..]);
    }
  }

  /** The flight was dropped, and its request, if it was pending, has been cancelled. */
  predicate Gone(s: Engine, c: Engine, f: nat) {
    && f in s.flights && f in c.flights && c.flights[f].aborted
    && (s.flights[f].request.Some? && s.flights[f].request.value in s.rpc.pending ==>
          s.flights[f].request.value in c.rpc.settled && c.rpc.settled[s.flights[f].request.value] == RpcClient.Aborted)
  }

  /** The request of a flight that is still wanted was not answered since `s`. */
  predicate StillPending(s: Engine, c: Engine, k: nat) {
    k in c.byKey && c.byKey[k] in c.flights && c.flights[c.byKey[k]].request.Some? && c.flights[c.byKey[k]].request.value in s.rpc.pending
    ==> c.flights[c.byKey[k]].request.value in c.rpc.pending
  }

  lemma DropIsGone(s: Engine, b: Engine, k: nat)
    requires EngineOk(b) && k in b.byKey && b.byKey[k] in b.flights && b.byKey[k] in s.flights
    requires b.flights[b.byKey[k]] == s.flights[b.byKey[k]] && StillPending(s, b, k)
    ensures Gone(s, Dropped(b, b.byKey[k]), b.byKey[k])
  {
    hide EngineOk, RpcOk;
  }

  lemma GoneLater(s: Engine, b: Engine, k: nat, f: nat)
    requires EngineOk(b) && k in b.byKey && b.byKey[k] in b.flights && Gone(s, b, f)
    ensures Gone(s, Dropped(b, b.byKey[k]), f)
  {
    DropKeepsRpc(b, b.byKey[k]);
    hide EngineOk, RpcOk, AbortedBy;
  }

  lemma OthersStayPending(s: Engine, b: Engine, k: nat, j: nat)
    requires EngineOk(b) && k in b.byKey && b.byKey[k] in b.flights && j != k && StillPending(s, b, j)
    ensures StillPending(s, Dropped(b, b.byKey[k]), j)
  {
    KeyIsLive(b, k);
    var f := b.byKey[k];
    if j in b.byKey && b.byKey[j] in b.flights {
      KeyIsLive(b, j);
      assert FlightOk(b, f) && FlightOk(b, b.byKey[j]);
      if b.flights[f].request.Some? {
        AbortIds(b.rpc, b.flights[f].request.value);
      }
    }
    hide EngineOk, RpcOk, AbortedBy;
  }

  // ---------------------------------------------------------------- the engine

  class RangeFlights {
    const client: WorkerRpcClient
    var flights: map<nat, Flight>
    var byKey: map<nat, nat>
    ghost var owner: map<nat, nat>

    ghost function View(): Engine
      reads this, client
    {
      Engine(client.View(), flights, byKey, owner)
    }

    constructor (rpc: WorkerRpcClient)
      requires RpcOk(rpc.View())
      ensures client == rpc && flights == map[] && byKey == map[] && EngineOk(View())
    {
      client := rpc;
      flights, byKey, owner := map[], map[], map[];
    }

    /** Joins the flight of the key or starts one, named `newFlight`; a cancelled caller gets nothing. */
    method ReadRange(newFlight: nat, key: nat, dataset: nat, caller: nat, kind: nat, aborted: bool, sent: bool) returns (r: Result<nat>)
      requires EngineOk(View()) && newFlight !in flights
      modifies this, client
      ensures EngineOk(View())
      ensures aborted ==> r == Err(CallCancelled) && View() == old(View())
      ensures !aborted ==> View() == Read(old(View()), newFlight, key, dataset, caller, kind, sent)
                           && key in byKey && r == Ok(byKey[key]) && r.value in flights && caller in flights[r.value].callers
    {
      if aborted {
        return Err(CallCancelled);
      }
      ReadKeeps(View(), newFlight, key, dataset, caller, kind, sent);
      hide EngineOk, RpcOk;
      var f: nat;
      if key in byKey && byKey[key] in flights {
        f := byKey[key];
        flights := flights[f := flights[f].(callers := flights[f].callers + {caller})];
      } else {
        f := newFlight;
        EngineRpc(View());
        var requested := client.Request(kind, false, sent);
        var request := if requested.Ok? then Some(requested.value) else None;
        flights := flights[f := Flight(key, dataset, {caller}, false, false, request)];
        byKey := byKey[key := f];
        if request.Some? {
          owner := owner[request.value := f];
        }
      }
      return Ok(f);
    }

    /** Frees the key and aborts the shared controller. */
    method Drop(f: nat)
      requires EngineOk(View()) && f in flights && !flights[f].settled
      modifies this, client
      ensures EngineOk(View()) && View() == Dropped(old(View()), f)
    {
      DropKeeps(View(), f);
      EngineRpc(View());
      hide EngineOk, RpcOk, AbortedBy;
      var flight := flights[f];
      if flight.key in byKey && byKey[flight.key] == f {
        byKey := byKey - {flight.key};
      }
      flights := flights[f := flight.(aborted := true)];
      if flight.request.Some? {
        client.Abort(flight.request.value);
      }
    }

    /** The `finally` of a caller, whether it got its batch, failed or was cancelled. */
    method CallerLeaves(f: nat, caller: nat)
      requires EngineOk(View()) && f in flights
      modifies this, client
      ensures EngineOk(View()) && View() == Left(old(View()), f, caller)
    {
      LeaveKeeps(View(), f, caller);
      EngineRpc(View());
      hide EngineOk, RpcOk, AbortedBy;
      var flight := flights[f].(callers := flights[f].callers - {caller});
      flights := flights[f := flight];
      if !flight.settled && flight.callers == {} {
        if flight.key in byKey && byKey[flight.key] == f {
          byKey := byKey - {flight.key};
        }
        flights := flights[f := flight.(aborted := true)];
        if flight.request.Some? {
          client.Abort(flight.request.value);
        }
      }
    }

    method FlightSettles(f: nat)
      requires EngineOk(View()) && MaySettle(View(), f)
      modifies this`flights, this`byKey
      ensures EngineOk(View()) && View() == Settled(old(View()), f)
    {
      SettleKeeps(View(), f);
      hide EngineOk, RpcOk;
      var key := flights[f].key;
      flights := flights[f := flights[f].(settled := true)];
      if key in byKey && byKey[key] == f {
        byKey := byKey - {key};
      }
    }

    /** `clearDatasetCache`: the flights of a closed dataset are dropped, and only those. */
    method ClearDataset(dataset: nat)
      requires EngineOk(View())
      modifies this, client
      ensures EngineOk(View()) && flights.Keys == old(flights.Keys)
      ensures forall k :: k in byKey <==> k in old(byKey) && old(flights[byKey[k]]).dataset != dataset
      ensures forall k :: k in byKey ==> byKey[k] == old(byKey[k]) && flights[byKey[k]] == old(flights[byKey[k]])
      ensures forall k :: k in old(byKey) && old(flights[byKey[k]]).dataset == dataset ==> Gone(old(View()), View(), old(byKey[k]))
    {
      ghost var s := View();
      hide RpcOk, Dropped, Live, Gone;
      var todo := set k | k in byKey && byKey[k] in flights && flights[byKey[k]].dataset == dataset;
      hide StillPending;
      assert forall k :: StillPending(s, s, k) by {
        AllPending(s);
      }
      while todo != {}
        invariant EngineOk(View()) && flights.Keys == s.flights.Keys && todo <= byKey.Keys
        invariant forall k :: k in byKey <==> k in s.byKey && (s.flights[s.byKey[k]].dataset != dataset || k in todo)
        invariant forall k :: k in byKey ==> byKey[k] == s.byKey[k] && flights[byKey[k]] == s.flights[s.byKey[k]]
        invariant forall k :: StillPending(s, View(), k)
        invariant forall k :: k in s.byKey && s.flights[s.byKey[k]].dataset == dataset && k !in todo ==> Gone(s, View(), s.byKey[k])
        decreases todo
      {
        var k :| k in todo;
        ghost var before := View();
        KeyIsLive(before, k);
        DropIsLocal(before, k);
        DropOne(s, before, k);
        Drop(byKey[k]);
        todo := todo - {k};
      }
    }
  }

  lemma AllPending(s: Engine)
    ensures forall k :: StillPending(s, s, k)
  {
  }

  /** One turn of the loop that drops the flights of a dataset. */
  lemma DropOne(s: Engine, b: Engine, k: nat)
    requires EngineOk(b) && k in b.byKey && b.byKey[k] in b.flights && b.byKey[k] in s.flights
    requires b.flights[b.byKey[k]] == s.flights[b.byKey[k]] && forall j :: StillPending(s, b, j)
    ensures var c := Dropped(b, b.byKey[k]);
            && Gone(s, c, b.byKey[k]) && (forall f :: Gone(s, b, f) ==> Gone(s, c, f)) && forall j :: StillPending(s, c, j)
  {
    var c := Dropped(b, b.byKey[k]);
    DropIsGone(s, b, k);
    DropIsLocal(b, k);
    hide Gone, Dropped, EngineOk, RpcOk;
    forall f | Gone(s, b, f) ensures Gone(s, c, f) {
      GoneLater(s, b, k, f);
    }
    forall j ensures StillPending(s, c, j) {
      if j != k {
        OthersStayPending(s, b, k, j);
      }
    }
  }

  lemma EngineRpc(s: Engine)
    requires EngineOk(s)
    ensures RpcOk(s.rpc)
  {
  }

  lemma KeyIsLive(s: Engine, k: nat)
    requires EngineOk(s) && k in s.byKey
    ensures s.byKey[k] in s.flights && s.flights[s.byKey[k]].key == k && !s.flights[s.byKey[k]].settled
  {
  }

  lemma DropIsLocal(s: Engine, k: nat)
    requires EngineOk(s) && k in s.byKey && s.byKey[k] in s.flights
    ensures var c := Dropped(s, s.byKey[k]);
            && c.byKey == s.byKey - {k} && c.flights.Keys == s.flights.Keys
            && forall j :: j in s.byKey && j != k ==> s.byKey[j] in s.flights && c.flights[s.byKey[j]] == s.flights[s.byKey[j]]
  {
    KeyIsLive(s, k);
    hide RpcOk, AbortedBy;
    forall j | j in s.byKey && j != k ensures s.byKey[j] in s.flights && s.byKey[j] != s.byKey[k] {
      KeyIsLive(s, j);
    }
  }
}
