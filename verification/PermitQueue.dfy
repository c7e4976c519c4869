/**
 The permits of the Worker's range reads (`AsyncPermitQueue` in `js/range-cache.ts`) and the bound on
 reads in flight that keeps its queue from ever being full (`readRange` in `js/worker.ts`).
 */
module PermitQueue {
  import opened Common

  /** What became of a call of `acquire`. */
  datatype Grant = Given | Full | Cancelled

  /** `held` are the permits not released yet, `waiters` the calls that wait, both by the id of their call. */
  datatype Permits = Permits(maxActive: nat, maxWaiters: nat, active: int, waiters: seq<nat>, held: set<nat>, outcome: map<nat, Grant>)

  predicate PermitsOk(p: Permits) {
    && 0 < p.maxActive && p.active == |p.held| <= p.maxActive && |p.waiters| <= p.maxWaiters
    && (p.waiters != [] ==> p.active == p.maxActive)
    && (forall i :: 0 <= i < |p.waiters| ==> p.waiters[i] !in p.outcome && p.waiters[i] !in p.held)
    && (forall i, j :: 0 <= i < j < |p.waiters| ==> p.waiters[i] != p.waiters[j])
    && (forall id :: id in p.held ==> id in p.outcome && p.outcome[id] == Given)
  }

  function GiveTo(p: Permits, id: nat): Permits {
    p.(active := p.active + 1, held := p.held + {id}, outcome := p.outcome[id := Given])
  }

  /** `#wakeWaiters`: the longest-waiting first, as long as there are permits. */
  function Woken(p: Permits): Permits
    decreases |p.waiters|
  {
    if p.active < p.maxActive && p.waiters != [] then Woken(GiveTo(p.(waiters := p.waiters[1..]), p.waiters[0])) else p
  }

  function Acquired(p: Permits, id: nat): Permits {
    if p.active < p.maxActive then GiveTo(p, id)
    else if |p.waiters| >= p.maxWaiters then p.(outcome := p.outcome[id := Full])
    else p.(waiters := p.waiters + [id])
  }

  function Released(p: Permits, id: nat): Permits {
    if id !in p.held then p else Woken(p.(active := p.active - 1, held := p.held - {id}))
  }

  function WithoutWaiter(waiters: seq<nat>, i: nat): (r: seq<nat>)
    requires i < |waiters|
    ensures |r| == |waiters| - 1 && forall j :: 0 <= j < |r| ==> r[j] == if j < i then waiters[j] else waiters[j + 1]
  {
    waiters[..i] + waiters[i + 1..]
  }

  function IndexOf(waiters: seq<nat>, id: nat): (i: nat)
    ensures i <= |waiters| && (i < |waiters| ==> waiters[i] == id)
    ensures id in waiters <==> i < |waiters|
  {
    if waiters == [] || waiters[0] == id then 0 else 1 + IndexOf(waiters[1..], id)
  }

  function CancelledWait(p: Permits, id: nat): Permits {
    var i := IndexOf(p.waiters, id);
    if i == |p.waiters| then p
    else Woken(p.(waiters := WithoutWaiter(p.waiters, i), outcome := p.outcome[id := Cancelled]))
  }

  // ---------------------------------------------------------------- what the queue keeps

  /** Outcomes are final. */
  ghost predicate Finals(p: Permits, c: Permits) {
    forall id :: id in p.outcome ==> id in c.outcome && c.outcome[id] == p.outcome[id]
  }

  lemma AcquireKeeps(p: Permits, id: nat)
    requires PermitsOk(p) && id !in p.outcome && id !in p.waiters
    ensures PermitsOk(Acquired(p, id)) && Finals(p, Acquired(p, id))
    ensures var c := Acquired(p, id); id in c.held || id in c.waiters || (id in c.outcome && c.outcome[id] == Full)
    ensures id !in Acquired(p, id).waiters ==> Acquired(p, id).waiters == p.waiters
    ensures id in Acquired(p, id).waiters ==> Acquired(p, id).waiters == p.waiters + [id]
    ensures (id in Acquired(p, id).outcome && Acquired(p, id).outcome[id] == Full) <==> p.active == p.maxActive && |p.waiters| == p.maxWaiters
  {
    assert id !in p.held;
    var c := Acquired(p, id);
    if p.active == p.maxActive && |p.waiters| < p.maxWaiters {
      assert c.waiters[|p.waiters|] == id;
    }
  }

  /** A permit that comes back goes to the one who has waited longest, and to nobody else. */
  lemma ReleaseKeeps(p: Permits, id: nat)
    requires PermitsOk(p)
    ensures var c := Released(p, id);
            && PermitsOk(c) && Finals(p, c) && id !in c.held && Released(c, id) == c
            && (id in p.held ==>
                  if p.waiters == [] then c == p.(active := p.active - 1, held := p.held - {id})
                  else c.waiters == p.waiters[1..] && c.held == p.held - {id} + {p.waiters[0]} && c.outcome[p.waiters[0]] == Given)
  {
    if id in p.held {
      var r := p.(active := p.active - 1, held := p.held - {id});
      if p.waiters != [] {
        var g := GiveTo(r.(waiters := r.waiters[1..]), r.waiters[0]);
        assert Woken(r) == Woken(g) == g;
      }
    }
  }

  /** Cancelling a waiter leaves the others in their order. */
  lemma CancelKeeps(p: Permits, id: nat)
    requires PermitsOk(p)
    ensures var c := CancelledWait(p, id);
            && PermitsOk(c) && Finals(p, c) && id !in c.waiters && c.held == p.held
            && (id in p.waiters ==> c.waiters == WithoutWaiter(p.waiters, IndexOf(p.waiters, id)) && c.outcome[id] == Cancelled)
  {
    var i := IndexOf(p.waiters, id);
    if i < |p.waiters| {
      var r := p.(waiters := WithoutWaiter(p.waiters, i), outcome := p.outcome[id := Cancelled]);
      assert Woken(r) == r;
    }
  }

  // ---------------------------------------------------------------- reads in flight

  const MAX_ACTIVE_RANGES := 2
  const MAX_RANGE_WAITERS := 8
  const MAX_IN_FLIGHT_RANGES := MAX_ACTIVE_RANGES + MAX_RANGE_WAITERS

  /** `running` are the reads between the count going up and their `finally`. */
  datatype Reads = Reads(permits: Permits, running: set<nat>, inFlight: int)

  const NO_READS := Reads(Permits(MAX_ACTIVE_RANGES, MAX_RANGE_WAITERS, 0, [], {}, map[]), {}, 0)

  datatype Event = Start(id: nat) | Acquire(id: nat) | Cancel(id: nat) | Finish(id: nat)

  predicate Enabled(r: Reads, e: Event) {
    match e
    case Start(id) => id !in r.running && id !in r.permits.outcome && id !in r.permits.waiters
    case Acquire(id) => id in r.running && id !in r.permits.outcome && id !in r.permits.waiters
    case Cancel(id) => true
    case Finish(id) => id in r.running && id !in r.permits.waiters
  }

  function Next(r: Reads, e: Event): Reads
    requires Enabled(r, e)
  {
    match e
    case Start(id) =>
      if r.inFlight >= MAX_IN_FLIGHT_RANGES then r else r.(running := r.running + {id}, inFlight := r.inFlight + 1)
    case Acquire(id) => r.(permits := Acquired(r.permits, id))
    case Cancel(id) => r.(permits := CancelledWait(r.permits, id))
    case Finish(id) => r.(permits := Released(r.permits, id), running := r.running - {id}, inFlight := r.inFlight - 1)
  }

  /** The permits are those of reads in flight, which are no more than permits and places together. */
  ghost predicate ReadsOk(r: Reads) {
    && PermitsOk(r.permits) && r.permits.maxActive == MAX_ACTIVE_RANGES && r.permits.maxWaiters == MAX_RANGE_WAITERS
    && r.inFlight == |r.running| <= MAX_IN_FLIGHT_RANGES
    && r.permits.held <= r.running && (forall i :: 0 <= i < |r.permits.waiters| ==> r.permits.waiters[i] in r.running)
    && (forall id :: id in r.permits.outcome ==> r.permits.outcome[id] != Full)
  }

  function Ids(waiters: seq<nat>): set<nat> {
    set i | 0 <= i < |waiters| :: waiters[i]
  }

  lemma {:induction false} DistinctCount(waiters: seq<nat>)
    requires forall i, j :: 0 <= i < j < |waiters| ==> waiters[i] != waiters[j]
    ensures |Ids(waiters)| == |waiters|
  {
    if waiters != [] {
      DistinctCount(waiters[1..]);
      assert Ids(waiters) == {waiters[0]} + Ids(waiters[1..]);
    }
  }

  /** A read that asks for a permit always finds room: the queue is never full. */
  lemma NeverFull(r: Reads, id: nat)
    requires ReadsOk(r) && Enabled(r, Acquire(id))
    ensures r.permits.active < MAX_ACTIVE_RANGES || |r.permits.waiters| < MAX_RANGE_WAITERS
  {
    var p := r.permits;
    DistinctCount(p.waiters);
    assert id !in p.held && id !in Ids(p.waiters);
    assert p.held !! Ids(p.waiters);
    assert |p.held + Ids(p.waiters) + {id}| == |p.held| + |p.waiters| + 1;
    SubsetIsSmaller(p.held + Ids(p.waiters) + {id}, r.running);
  }

  lemma StartKeeps(r: Reads, id: nat)
    requires ReadsOk(r) && Enabled(r, Start(id))
    ensures ReadsOk(Next(r, Start(id)))
  {
    hide PermitsOk;
  }

  lemma AcquireReads(r: Reads, id: nat)
    requires ReadsOk(r) && Enabled(r, Acquire(id))
    ensures ReadsOk(Next(r, Acquire(id))) && Finals(r.permits, Next(r, Acquire(id)).permits)
  {
    NeverFull(r, id);
    AcquireKeeps(r.permits, id);
  }

  lemma CancelReads(r: Reads, id: nat)
    requires ReadsOk(r)
    ensures ReadsOk(Next(r, Cancel(id))) && Finals(r.permits, Next(r, Cancel(id)).permits)
  {
    CancelKeeps(r.permits, id);
    CancelOutcomes(r.permits, id);
    hide CancelledWait, PermitsOk, IndexOf, WithoutWaiter;
    forall i | i in Next(r, Cancel(id)).permits.outcome ensures Next(r, Cancel(id)).permits.outcome[i] != Full {
    }
  }

  lemma FinishReads(r: Reads, id: nat)
    requires ReadsOk(r) && Enabled(r, Finish(id))
    ensures ReadsOk(Next(r, Finish(id))) && Finals(r.permits, Next(r, Finish(id)).permits)
  {
    ReleaseKeeps(r.permits, id);
    ReleaseOutcomes(r.permits, id);
    hide Released, PermitsOk;
    var c := Next(r, Finish(id)).permits;
    forall i | 0 <= i < |c.waiters| ensures c.waiters[i] in r.running - {id} {
      if id in r.permits.held && r.permits.waiters != [] {
        assert c.waiters[i] == r.permits.waiters[i + 1];
      } else {
        assert c.waiters[i] == r.permits.waiters[i];
      }
    }
  }

  lemma StepKeeps(r: Reads, e: Event)
    requires ReadsOk(r) && Enabled(r, e)
    ensures ReadsOk(Next(r, e)) && Finals(r.permits, Next(r, e).permits)
  {
    hide ReadsOk;
    match e
    case Start(id) => StartKeeps(r, id);
    case Acquire(id) => AcquireReads(r, id);
    case Cancel(id) => CancelReads(r, id);
    case Finish(id) => FinishReads(r, id);
  }

  lemma CancelOutcomes(p: Permits, id: nat)
    requires PermitsOk(p)
    ensures var c := CancelledWait(p, id);
            && c.maxActive == p.maxActive && c.maxWaiters == p.maxWaiters
            && forall i :: i in c.outcome && i !in p.outcome ==> c.outcome[i] == Cancelled
    ensures forall i :: 0 <= i < |CancelledWait(p, id).waiters| ==> CancelledWait(p, id).waiters[i] in p.waiters
  {
    CancelKeeps(p, id);
    if IndexOf(p.waiters, id) < |p.waiters| {
      var r := p.(waiters := WithoutWaiter(p.waiters, IndexOf(p.waiters, id)), outcome := p.outcome[id := Cancelled]);
      assert Woken(r) == r;
    }
  }

  lemma ReleaseOutcomes(p: Permits, id: nat)
    requires PermitsOk(p)
    ensures var c := Released(p, id);
            && c.maxActive == p.maxActive && c.maxWaiters == p.maxWaiters
            && forall i :: i in c.outcome && i !in p.outcome ==> c.outcome[i] == Given
    ensures id !in p.held ==> Released(p, id) == p
  {
    if id in p.held {
      var r := p.(active := p.active - 1, held := p.held - {id});
      if p.waiters != [] {
        var g := GiveTo(r.(waiters := r.waiters[1..]), r.waiters[0]);
        assert Woken(r) == Woken(g) == g;
      }
    }
  }

  predicate Follows(r: Reads, es: seq<Event>)
    decreases |es|
  {
    es == [] || (Enabled(r, es[0]) && Follows(Next(r, es[0]), es[1..]))
  }

  function Run(r: Reads, es: seq<Event>): Reads
    requires Follows(r, es)
    decreases |es|
  {
    if es == [] then r else Run(Next(r, es[0]), es[1..])
  }

  lemma {:induction false} RunKeeps(r: Reads, es: seq<Event>)
    requires ReadsOk(r) && Follows(r, es)
    ensures ReadsOk(Run(r, es)) && Finals(r.permits, Run(r, es).permits)
    decreases |es|
  {
    hide ReadsOk, Enabled, Next;
    if es != [] {
      StepKeeps(r, es[0]);
      RunKeeps(Next(r, es[0]), es[1..]);
    }
  }

  /** In no run does a read find the queue full, more reads than permits run, or anybody wait beside a free permit. */
  lemma EveryRunHasRoom(es: seq<Event>)
    requires Follows(NO_READS, es)
    ensures var p := Run(NO_READS, es).permits;
            && (forall id :: id in p.outcome ==> p.outcome[id] != Full)
            && |p.held| <= MAX_ACTIVE_RANGES && (p.waiters != [] ==> |p.held| == MAX_ACTIVE_RANGES)
  {
    RunKeeps(NO_READS, es);
  }

  // ---------------------------------------------------------------- first in, first out

  /** `x` waits, and `y` does not wait in front of it. */
  predicate Ahead(waiters: seq<nat>, x: nat, y: nat) {
    exists i: nat :: i < |waiters| && WaitsAt(waiters, x, y, i)
  }

  predicate WaitsAt(waiters: seq<nat>, x: nat, y: nat, i: nat) {
    i < |waiters| && waiters[i] == x && y !in waiters[..i + 1]
  }

  /** Either `x` is served or cancelled by now, or it is still ahead and `y` has got no permit. */
  predicate InOrder(p: Permits, x: nat, y: nat) {
    x in p.outcome || (Ahead(p.waiters, x, y) && (y in p.outcome ==> p.outcome[y] != Given))
  }

  lemma AheadOfNewcomer(waiters: seq<nat>, x: nat, y: nat, id: nat)
    requires Ahead(waiters, x, y)
    ensures Ahead(waiters + [id], x, y)
  {
    var i: nat :| i < |waiters| && WaitsAt(waiters, x, y, i);
    assert (waiters + [id])[..i + 1] == waiters[..i + 1];
    assert WaitsAt(waiters + [id], x, y, i);
  }

  lemma AheadWithout(waiters: seq<nat>, x: nat, y: nat, k: nat)
    requires Ahead(waiters, x, y) && k < |waiters| && waiters[k] != x
    ensures Ahead(WithoutWaiter(waiters, k), x, y)
  {
    var i: nat :| i < |waiters| && WaitsAt(waiters, x, y, i);
    var w := WithoutWaiter(waiters, k);
    var at := if k < i then i - 1 else i;
    forall j | 0 <= j <= at ensures w[j] != y {
      assert w[j] == waiters[if j < k then j else j + 1];
      assert waiters[..i + 1][if j < k then j else j + 1] != y;
    }
    assert WaitsAt(w, x, y, at);
  }

  lemma FirstIsNotBehind(waiters: seq<nat>, x: nat, y: nat)
    requires Ahead(waiters, x, y)
    ensures waiters != [] && waiters[0] != y
  {
    var i: nat :| i < |waiters| && WaitsAt(waiters, x, y, i);
    assert waiters[..i + 1][0] == waiters[0];
  }

  lemma ReleaseInOrder(p: Permits, id: nat, x: nat, y: nat)
    requires PermitsOk(p) && InOrder(p, x, y)
    ensures InOrder(Released(p, id), x, y)
  {
    ReleaseKeeps(p, id);
    ReleaseOutcomes(p, id);
    hide PermitsOk, Released, Ahead;
    if x !in p.outcome && id in p.held {
      FirstIsNotBehind(p.waiters, x, y);
      if p.waiters[0] != x {
        AheadWithout(p.waiters, x, y, 0);
        assert WithoutWaiter(p.waiters, 0) == p.waiters[1..];
        OnlyFirstIsGiven(p, id, y);
      }
    }
  }

  /** A release settles nobody but the first waiter. */
  lemma OnlyFirstIsGiven(p: Permits, id: nat, y: nat)
    requires PermitsOk(p) && id in p.held && p.waiters != [] && y != p.waiters[0]
    ensures y in Released(p, id).outcome <==> y in p.outcome
  {
    var r := p.(active := p.active - 1, held := p.held - {id});
    var g := GiveTo(r.(waiters := r.waiters[1..]), r.waiters[0]);
    assert Woken(r) == Woken(g) == g;
  }

  lemma CancelInOrder(p: Permits, id: nat, x: nat, y: nat)
    requires PermitsOk(p) && InOrder(p, x, y)
    ensures InOrder(CancelledWait(p, id), x, y)
  {
    CancelKeeps(p, id);
    CancelOutcomes(p, id);
    hide PermitsOk, CancelledWait, Ahead, WithoutWaiter;
    if x !in p.outcome && id in p.waiters && id != x {
      AheadWithout(p.waiters, x, y, IndexOf(p.waiters, id));
    } else if id !in p.waiters {
      NothingCancelled(p, id);
    }
  }

  lemma NothingCancelled(p: Permits, id: nat)
    requires id !in p.waiters
    ensures CancelledWait(p, id) == p
  {
  }

  lemma AcquireInOrder(p: Permits, id: nat, x: nat, y: nat)
    requires PermitsOk(p) && InOrder(p, x, y) && id !in p.outcome && id !in p.waiters
    ensures InOrder(Acquired(p, id), x, y)
  {
    AcquireKeeps(p, id);
    if x !in p.outcome {
      FirstIsNotBehind(p.waiters, x, y);
      assert p.active == p.maxActive;
      AheadOfNewcomer(p.waiters, x, y, id);
    }
  }

  /**
   Over every run: of a read that waits and one that is not in front of it, the second gets a
   permit only after the first was served or cancelled.
   */
  lemma {:induction false} FirstInFirstOut(r: Reads, es: seq<Event>, x: nat, y: nat)
    requires ReadsOk(r) && Follows(r, es) && InOrder(r.permits, x, y)
    ensures var p := Run(r, es).permits;
            InOrder(p, x, y) && (y in p.outcome && p.outcome[y] == Given ==> x in p.outcome)
    decreases |es|
  {
    hide ReadsOk, InOrder;
    if es != [] {
      StepKeeps(r, es[0]);
      StepInOrder(r, es[0], x, y);
      FirstInFirstOut(Next(r, es[0]), es[1..], x, y);
    } else {
      InOrderSays(r.permits, x, y);
    }
  }

  lemma InOrderSays(p: Permits, x: nat, y: nat)
    requires InOrder(p, x, y)
    ensures y in p.outcome && p.outcome[y] == Given ==> x in p.outcome
  {
  }

  lemma StepInOrder(r: Reads, e: Event, x: nat, y: nat)
    requires ReadsOk(r) && Enabled(r, e) && InOrder(r.permits, x, y)
    ensures InOrder(Next(r, e).permits, x, y)
  {
    hide PermitsOk, InOrder, Acquired, Released, CancelledWait;
    match e
    case Start(_) =>
    case Acquire(id) => AcquireInOrder(r.permits, id, x, y);
    case Cancel(id) => CancelInOrder(r.permits, id, x, y);
    case Finish(id) => ReleaseInOrder(r.permits, id, x, y);
  }

  // ---------------------------------------------------------------- everybody gets on

  /** A read is admitted exactly while fewer run than there are permits and places; the bound is the number of reads running. */
  lemma StartAdmits(r: Reads, id: nat)
    requires ReadsOk(r) && Enabled(r, Start(id))
    ensures var c := Next(r, Start(id));
            && c.permits == r.permits && c.inFlight == |c.running|
            && c.running == r.running + if |r.running| < MAX_IN_FLIGHT_RANGES then {id} else {}
  {
    StartKeeps(r, id);
  }

  /** A read that asks has its permit at once if one is free, and otherwise waits behind the others. */
  lemma AskingGives(r: Reads, id: nat)
    requires ReadsOk(r) && Enabled(r, Acquire(id))
    ensures var c := Next(r, Acquire(id));
            && c.running == r.running && c.inFlight == r.inFlight
            && (if |r.permits.held| < MAX_ACTIVE_RANGES then c.permits.held == r.permits.held + {id} && c.permits.waiters == r.permits.waiters
                else c.permits.held == r.permits.held && c.permits.waiters == r.permits.waiters + [id])
  {
    NeverFull(r, id);
  }

  /** A read that ends gives its permit to the one who has waited longest. */
  lemma FinishPasses(r: Reads, id: nat)
    requires ReadsOk(r) && Enabled(r, Finish(id))
    ensures var c := Next(r, Finish(id));
            && c.running == r.running - {id} && c.inFlight == |c.running|
            && (id !in r.permits.held ==> c.permits == r.permits)
            && (id in r.permits.held ==>
                  if r.permits.waiters == [] then c.permits.held == r.permits.held - {id} && c.permits.waiters == []
                  else c.permits.held == r.permits.held - {id} + {r.permits.waiters[0]} && c.permits.waiters == r.permits.waiters[1..])
  {
    FinishReads(r, id);
    ReleaseKeeps(r.permits, id);
    ReleaseOutcomes(r.permits, id);
    hide Released;
  }

  lemma SomebodyHolds(r: Reads) returns (id: nat)
    requires ReadsOk(r) && r.permits.waiters != []
    ensures id in r.permits.held && Enabled(r, Finish(id))
  {
    assert r.permits.held != {};
    id :| id in r.permits.held;
  }

  /** Nobody waits for ever: as reads end, one after the other, a waiter has its permit after as many as stand before it and one. */
  lemma {:induction false} WaiterIsServed(r: Reads, i: nat) returns (es: seq<Event>)
    requires ReadsOk(r) && i < |r.permits.waiters|
    ensures |es| == i + 1 && (forall k :: 0 <= k < |es| ==> es[k].Finish?)
    ensures Follows(r, es) && r.permits.waiters[i] in Run(r, es).permits.held
    decreases i
  {
    var id := SomebodyHolds(r);
    FinishPasses(r, id);
    FinishReads(r, id);
    var c := Next(r, Finish(id));
    hide ReadsOk, Enabled, Next;
    if i == 0 {
      es := [Finish(id)];
      assert es[1..] == [] && Follows(c, []) && Run(c, []) == c;
    } else {
      var rest := WaiterIsServed(c, i - 1);
      es := [Finish(id)] + rest;
      assert es[1..] == rest;
    }
  }

  // ---------------------------------------------------------------- the queue

  class AsyncPermitQueue {
    const maxActive: nat
    const maxWaiters: nat
    var waiters: seq<nat>
    var active: int
    var unreleased: set<nat>
    ghost var outcome: map<nat, Grant>

    ghost function View(): Permits
      reads this
    {
      Permits(maxActive, maxWaiters, active, waiters, unreleased, outcome)
    }

    constructor (activeLimit: nat, waiterLimit: nat)
      requires activeLimit > 0
      ensures View() == Permits(activeLimit, waiterLimit, 0, [], {}, map[]) && PermitsOk(View())
    {
      maxActive, maxWaiters := activeLimit, waiterLimit;
      waiters, active, unreleased, outcome := [], 0, {}, map[];
    }

    /** One more permit and the closure that gives it back. */
    method GivePermit(id: nat)
      modifies this`active, this`unreleased, this`outcome
      ensures View() == GiveTo(old(View()), id)
    {
      active := active + 1;
      unreleased := unreleased + {id};
      outcome := outcome[id := Given];
    }

    method Acquire(id: nat)
      requires PermitsOk(View()) && id !in outcome && id !in waiters
      modifies this
      ensures PermitsOk(View()) && View() == Acquired(old(View()), id)
    {
      AcquireKeeps(View(), id);
      if active < maxActive {
        GivePermit(id);
      } else if |waiters| >= maxWaiters {
        outcome := outcome[id := Full];
      } else {
        waiters := waiters + [id];
      }
    }

    method WakeWaiters()
      modifies this
      ensures View() == Woken(old(View()))
    {
      ghost var p := View();
      while active < maxActive && |waiters| > 0
        invariant Woken(View()) == Woken(p)
        decreases |waiters|
      {
        var id := waiters[0];
        waiters := waiters[1..];
        GivePermit(id);
      }
    }

    method FindWaiter(id: nat) returns (i: nat)
      ensures i == IndexOf(waiters, id)
    {
      i := 0;
      while i < |waiters| && waiters[i] != id
        invariant i <= |waiters| && i + IndexOf(waiters[i..], id) == IndexOf(waiters, id)
      {
        assert waiters[i..][1..] == waiters[i + 1..];
        i := i + 1;
      }
      if i < |waiters| {
        assert waiters[i..][0] == waiters[i];
      }
    }

    method Cancel(id: nat) returns (cancelled: bool)
      requires PermitsOk(View())
      modifies this
      ensures PermitsOk(View()) && View() == CancelledWait(old(View()), id) && (cancelled <==> id in old(waiters))
    {
      CancelKeeps(View(), id);
      var i := FindWaiter(id);
      if i == |waiters| {
        return false;
      }
      waiters := waiters[..i] + waiters[i + 1..];
      outcome := outcome[id := Cancelled];
      WakeWaiters();
      return true;
    }

    method Release(id: nat)
      requires PermitsOk(View())
      modifies this
      ensures PermitsOk(View()) && View() == Released(old(View()), id)
    {
      ReleaseKeeps(View(), id);
      if id in unreleased {
        unreleased := unreleased - {id};
        active := active - 1;
        WakeWaiters();
      }
    }
  }
}
