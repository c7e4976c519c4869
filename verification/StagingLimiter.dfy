/** The host-side staging limiter (`SourceStagingLimiter` in `js/client.ts`). */
module StagingLimiter {
  import opened Common
  import opened Totals

  datatype Waiter = Waiter(id: nat, bytes: nat, signal: nat)

  /** What became of one call of `acquire`. */
  datatype Outcome = Granted | Refused(error: ErrorCode)

  /**
   `permits` are the grants not yet released, by the id of their call; `aborted` the signals whose
   flag is set; `settled` the calls whose promise is resolved or rejected.
   */
  datatype Staging = Staging(
    capacity: nat, used: int, queue: seq<Waiter>, closed: bool, permits: map<nat, nat>, aborted: set<nat>, settled: map<nat, Outcome>)

  predicate Fits(s: Staging, w: Waiter) {
    s.used + w.bytes <= s.capacity
  }

  /** The waiters are calls not yet settled, each once; nothing waits that would fit. */
  predicate StagingOk(s: Staging) {
    && s.used == Total(s.permits) <= s.capacity
    && s.permits.Keys <= s.settled.Keys
    && (forall i :: 0 <= i < |s.queue| ==> s.queue[i].id !in s.settled)
    && (forall i, j :: 0 <= i < j < |s.queue| ==> s.queue[i].id != s.queue[j].id)
    && (s.closed ==> s.queue == [])
  }

  predicate NobodyFits(s: Staging) {
    forall i :: 0 <= i < |s.queue| ==> !Fits(s, s.queue[i]) && s.queue[i].bytes <= s.capacity
  }

  predicate NobodyAborted(s: Staging) {
    forall i :: 0 <= i < |s.queue| ==> s.queue[i].signal !in s.aborted
  }

  // ---------------------------------------------------------------- the steps

  function Grant(s: Staging, id: nat, bytes: nat): Staging {
    s.(used := s.used + bytes, permits := s.permits[id := bytes], settled := s.settled[id := Granted])
  }

  function Without(queue: seq<Waiter>, i: nat): (r: seq<Waiter>)
    requires i < |queue|
    ensures |r| == |queue| - 1
    ensures forall j :: 0 <= j < |r| ==> r[j] == if j < i then queue[j] else queue[j + 1]
  {
    queue[..i] + queue[i + 1..]
  }

  function Reject(s: Staging, i: nat, error: ErrorCode): Staging
    requires i < |s.queue|
  {
    s.(queue := Without(s.queue, i), settled := s.settled[s.queue[i].id := Refused(error)])
  }

  /** `#drain` from position `i`: aborted waiters go, the first that fits gets its permit, and the search starts over. */
  function Drained(s: Staging, i: nat): Staging
    requires i <= |s.queue|
    decreases |s.queue|, |s.queue| - i
  {
    if i == |s.queue| then s
    else if s.queue[i].signal in s.aborted then Drained(Reject(s, i, CallCancelled), i)
    else if Fits(s, s.queue[i]) then
      Drained(Grant(s.(queue := Without(s.queue, i)), s.queue[i].id, s.queue[i].bytes), 0)
    else Drained(s, i + 1)
  }

  function Acquired(s: Staging, id: nat, bytes: int, signal: nat): Staging {
    if bytes < 0 then s.(settled := s.settled[id := Refused(RangeUnsupported)])
    else if bytes > s.capacity then s.(settled := s.settled[id := Refused(ResourceLimit)])
    else if s.closed then s.(settled := s.settled[id := Refused(HandleClosed)])
    else if signal in s.aborted then s.(settled := s.settled[id := Refused(CallCancelled)])
    else if s.used + bytes <= s.capacity then Grant(s, id, bytes)
    else Drained(s.(queue := s.queue + [Waiter(id, bytes, signal)]), 0)
  }

  /** The `release` of a permit; later calls do nothing. */
  function PermitReleased(s: Staging, id: nat): Staging {
    if id !in s.permits then s
    else
      var r := s.(used := Max(0, s.used - s.permits[id]), permits := s.permits - {id});
      if s.closed then r else Drained(r, 0)
  }

  /** The abort listener of a waiter. */
  function AbortHandled(s: Staging, i: nat): Staging
    requires i < |s.queue|
  {
    Reject(s, i, CallCancelled)
  }

  function Ids(queue: seq<Waiter>): set<nat> {
    set i | 0 <= i < |queue| :: queue[i].id
  }

  function AllRefused(queue: seq<Waiter>, settled: map<nat, Outcome>): map<nat, Outcome> {
    map id | id in settled.Keys + Ids(queue) :: if id in Ids(queue) then Refused(HandleClosed) else settled[id]
  }

  function StagingClosed(s: Staging): Staging {
    if s.closed then s else s.(closed := true, queue := [], settled := AllRefused(s.queue, s.settled))
  }

  // ---------------------------------------------------------------- what every step keeps

  /** Settled calls keep their outcome: no promise is settled twice. */
  ghost predicate Settles(s: Staging, c: Staging) {
    s.settled.Keys <= c.settled.Keys && forall id :: id in s.settled ==> c.settled[id] == s.settled[id]
  }

  lemma RejectKeeps(s: Staging, i: nat, error: ErrorCode)
    requires StagingOk(s) && i < |s.queue|
    ensures StagingOk(Reject(s, i, error)) && Settles(s, Reject(s, i, error))
  {
  }

  lemma GrantKeeps(s: Staging, i: nat)
    requires StagingOk(s) && i < |s.queue| && Fits(s, s.queue[i])
    ensures var c := Grant(s.(queue := Without(s.queue, i)), s.queue[i].id, s.queue[i].bytes); StagingOk(c) && Settles(s, c)
  {
    TotalWith(s.permits, s.queue[i].id, s.queue[i].bytes);
  }

  /** `#drain` has come to position `i`. */
  predicate Draining(s: Staging, i: nat) {
    && StagingOk(s) && i <= |s.queue|
    && (forall j :: 0 <= j < |s.queue| ==> s.queue[j].bytes <= s.capacity)
    && (forall j :: 0 <= j < i ==> !Fits(s, s.queue[j]) && s.queue[j].signal !in s.aborted)
  }

  lemma RejectDrains(s: Staging, i: nat)
    requires Draining(s, i) && i < |s.queue|
    ensures Draining(Reject(s, i, CallCancelled), i) && s.queue[i].id in Reject(s, i, CallCancelled).settled
  {
    RejectKeeps(s, i, CallCancelled);
  }

  function GrantedAt(s: Staging, i: nat): Staging
    requires i < |s.queue|
  {
    Grant(s.(queue := Without(s.queue, i)), s.queue[i].id, s.queue[i].bytes)
  }

  lemma GrantDrains(s: Staging, i: nat)
    requires Draining(s, i) && i < |s.queue| && Fits(s, s.queue[i])
    ensures Draining(GrantedAt(s, i), 0) && s.queue[i].id in GrantedAt(s, i).settled
  {
    GrantKeeps(s, i);
  }

  /** Draining ends with nobody left that is aborted or would fit. */
  lemma {:induction false} DrainKeeps(s: Staging, i: nat)
    requires Draining(s, i)
    ensures var d := Drained(s, i);
            && StagingOk(d) && Settles(s, d) && NobodyFits(d) && NobodyAborted(d)
            && d.capacity == s.capacity && d.closed == s.closed && d.aborted == s.aborted
    decreases |s.queue|, |s.queue| - i
  {
    if i < |s.queue| {
      if s.queue[i].signal in s.aborted {
        RejectKeeps(s, i, CallCancelled);
        DrainKeeps(Reject(s, i, CallCancelled), i);
      } else if Fits(s, s.queue[i]) {
        GrantKeeps(s, i);
        DrainKeeps(GrantedAt(s, i), 0);
      } else {
        DrainKeeps(s, i + 1);
      }
    }
  }

  /** What holds between any two steps. */
  predicate Settled(s: Staging) {
    StagingOk(s) && NobodyFits(s)
  }

  lemma AcquireKeeps(s: Staging, id: nat, bytes: int, signal: nat)
    requires Settled(s) && id !in s.settled && forall i :: 0 <= i < |s.queue| ==> s.queue[i].id != id
    ensures var c := Acquired(s, id, bytes, signal);
            && Settled(c) && Settles(s, c) && c.capacity == s.capacity
            && (if bytes < 0 || bytes > s.capacity || s.closed || signal in s.aborted
                then id in c.settled && c.settled[id].Refused?
                else (id in c.settled && c.settled[id] == Granted) || Waiter(id, bytes, signal) in c.queue)
            && (0 <= bytes <= s.capacity - s.used && !s.closed && signal !in s.aborted ==> id in c.permits && c.permits[id] == bytes)
  {
    if 0 <= bytes <= s.capacity && !s.closed && signal !in s.aborted {
      if s.used + bytes <= s.capacity {
        TotalWith(s.permits, id, bytes);
      } else {
        var q := s.(queue := s.queue + [Waiter(id, bytes, signal)]);
        DrainKeeps(q, 0);
        DrainAccounts(q, 0, |s.queue|);
      }
    }
  }

  /** After draining a call still waits, or was cancelled if its signal is aborted, or has its permit. */
  predicate AccountedFor(s: Staging, w: Waiter) {
    w in s.queue || (w.id in s.settled && s.settled[w.id] == if w.signal in s.aborted then Refused(CallCancelled) else Granted)
  }

  lemma OutcomeStays(s: Staging, i: nat, id: nat)
    requires Draining(s, i) && id in s.settled
    ensures var d := Drained(s, i); id in d.settled && d.settled[id] == s.settled[id] && d.aborted == s.aborted
  {
    DrainKeeps(s, i);
  }

  lemma RejectedStep(s: Staging, i: nat)
    requires i < |s.queue| && s.queue[i].signal in s.aborted
    ensures Drained(s, i) == Drained(Reject(s, i, CallCancelled), i)
    ensures Reject(s, i, CallCancelled).settled[s.queue[i].id] == Refused(CallCancelled)
  {
  }

  lemma SkippedStep(s: Staging, i: nat)
    requires Draining(s, i) && i < |s.queue| && s.queue[i].signal !in s.aborted && !Fits(s, s.queue[i])
    ensures Drained(s, i) == Drained(s, i + 1) && Draining(s, i + 1)
  {
  }

  lemma DrainingBound(s: Staging, i: nat)
    requires Draining(s, i)
    ensures i <= |s.queue|
  {
  }

  lemma {:induction false} DrainAccounts(s: Staging, i: nat, k: nat)
    requires Draining(s, i) && k < |s.queue|
    ensures AccountedFor(Drained(s, i), s.queue[k])
    decreases |s.queue|, |s.queue| - i
  {
    hide Drained, Draining, StagingOk;
    DrainingBound(s, i);
    if i == |s.queue| {
      assert Drained(s, i) == s by { DrainedToTheEnd(s); }
    } else if s.queue[i].signal in s.aborted {
      var c := Reject(s, i, CallCancelled);
      RejectDrains(s, i);
      RejectedStep(s, i);
      if k == i {
        OutcomeStays(c, i, s.queue[i].id);
      } else {
        DrainAccounts(c, i, Shifted(i, k));
      }
    } else if Fits(s, s.queue[i]) {
      GrantDrains(s, i);
      DrainedStep(s, i);
      if k == i {
        OutcomeStays(GrantedAt(s, i), 0, s.queue[i].id);
      } else {
        DrainAccounts(GrantedAt(s, i), 0, Shifted(i, k));
      }
    } else {
      SkippedStep(s, i);
      DrainAccounts(s, i + 1, k);
    }
  }

  lemma DrainedToTheEnd(s: Staging)
    ensures Drained(s, |s.queue|) == s
  {
  }

  lemma PermitReleaseKeeps(s: Staging, id: nat)
    requires Settled(s)
    ensures var c := PermitReleased(s, id);
            && Settled(c) && Settles(s, c) && id !in c.permits && PermitReleased(c, id) == c && c.capacity == s.capacity
  {
    if id in s.permits {
      var r := s.(used := s.used - s.permits[id], permits := s.permits - {id});
      TotalWithout(s.permits, id);
      if !s.closed {
        DrainKeeps(r, 0);
        DrainGrantsWaiters(r, 0, id);
      }
    }
  }

  /** Draining grants only to waiters. */
  lemma {:induction false} DrainGrantsWaiters(s: Staging, i: nat, id: nat)
    requires i <= |s.queue| && id !in s.permits && forall j :: 0 <= j < |s.queue| ==> s.queue[j].id != id
    ensures id !in Drained(s, i).permits
    decreases |s.queue|, |s.queue| - i
  {
    if i < |s.queue| {
      if s.queue[i].signal in s.aborted {
        DrainGrantsWaiters(Reject(s, i, CallCancelled), i, id);
      } else if Fits(s, s.queue[i]) {
        DrainGrantsWaiters(Grant(s.(queue := Without(s.queue, i)), s.queue[i].id, s.queue[i].bytes), 0, id);
      } else {
        DrainGrantsWaiters(s, i + 1, id);
      }
    }
  }

  lemma AbortKeeps(s: Staging, i: nat)
    requires Settled(s) && i < |s.queue|
    ensures Settled(AbortHandled(s, i)) && Settles(s, AbortHandled(s, i))
  {
    RejectKeeps(s, i, CallCancelled);
  }

  lemma CloseKeeps(s: Staging)
    requires Settled(s)
    ensures var c := StagingClosed(s);
            && Settled(c) && Settles(s, c) && c.queue == [] && c.permits == s.permits
            && forall i :: 0 <= i < |s.queue| ==> c.settled[s.queue[i].id] == Refused(HandleClosed)
  {
  }

  /** While anybody waits, somebody holds a permit whose release will wake the queue. */
  lemma WaitersHaveAPermitAhead(s: Staging)
    requires Settled(s) && s.queue != []
    ensures exists id :: id in s.permits
  {
    assert !Fits(s, s.queue[0]);
    TotalHolds(s.permits);
  }

  lemma SettledStays(s: Staging, i: nat, w: Waiter)
    requires Draining(s, i) && w.id in s.settled
    ensures w !in Drained(s, i).queue
  {
    DrainKeeps(s, i);
  }

  /** The position of a waiter once position `i` is gone. */
  function Shifted(i: nat, a: nat): nat
    requires a != i
  {
    if a < i then a else a - 1
  }

  /** Draining is fair among equals: a waiter that still waits was overtaken only by smaller ones. */
  lemma {:induction false} NoOvertaking(s: Staging, i: nat, a: nat, b: nat)
    requires Draining(s, i) && a < b < |s.queue| && s.queue[b].id !in s.permits
    ensures var d := Drained(s, i); s.queue[b].id in d.permits && s.queue[a] in d.queue ==> s.queue[b].bytes < s.queue[a].bytes
    decreases |s.queue|, |s.queue| - i
  {
    if i < |s.queue| {
      if s.queue[i].signal in s.aborted {
        RejectDrains(s, i);
        RejectedBefore(s, i, a, b);
      } else if Fits(s, s.queue[i]) {
        GrantDrains(s, i);
        if i == a {
          SettledStays(GrantedAt(s, i), 0, s.queue[a]);
        } else if i != b {
          assert s.queue[i].id != s.queue[b].id;
          hide Draining, StagingOk, Drained;
          NoOvertaking(GrantedAt(s, i), 0, Shifted(i, a), Shifted(i, b));
          DrainedStep(s, i);
        }
      } else {
        NoOvertaking(s, i + 1, a, b);
      }
    }
  }

  lemma DrainedStep(s: Staging, i: nat)
    requires i < |s.queue| && s.queue[i].signal !in s.aborted && Fits(s, s.queue[i])
    ensures Drained(s, i) == Drained(GrantedAt(s, i), 0)
  {
  }

  lemma {:induction false} RejectedBefore(s: Staging, i: nat, a: nat, b: nat)
    requires Draining(s, i) && a < b < |s.queue| && i < |s.queue| && s.queue[b].id !in s.permits && s.queue[i].signal in s.aborted
    requires var c := Reject(s, i, CallCancelled); Draining(c, i) && s.queue[i].id in c.settled
    ensures var d := Drained(s, i); s.queue[b].id in d.permits && s.queue[a] in d.queue ==> s.queue[b].bytes < s.queue[a].bytes
    decreases |s.queue|, |s.queue| - i, 0
  {
    var c := Reject(s, i, CallCancelled);
    if i == a {
      SettledStays(c, i, s.queue[a]);
    } else if i == b {
      DrainGrantsWaiters(c, i, s.queue[b].id);
    } else {
      NoOvertaking(c, i, Shifted(i, a), Shifted(i, b));
    }
  }

  // ---------------------------------------------------------------- what a step does to everybody else

  /** Who waits with these bytes. */
  predicate Asks(queue: seq<Waiter>, id: nat, bytes: nat) {
    exists i :: 0 <= i < |queue| && queue[i].id == id && queue[i].bytes == bytes
  }

  lemma AsksLater(queue: seq<Waiter>, i: nat, id: nat, bytes: nat)
    requires i < |queue| && Asks(Without(queue, i), id, bytes)
    ensures Asks(queue, id, bytes)
  {
    var j :| 0 <= j < |queue| - 1 && Without(queue, i)[j].id == id && Without(queue, i)[j].bytes == bytes;
    var k := if j < i then j else j + 1;
    assert queue[k] == Without(queue, i)[j];
  }

  /** Draining leaves every permit as it is. */
  lemma {:induction false} DrainKeepsPermit(s: Staging, i: nat, id: nat)
    requires Draining(s, i) && id in s.permits
    ensures var d := Drained(s, i); id in d.permits && d.permits[id] == s.permits[id]
    decreases |s.queue|, |s.queue| - i
  {
    hide Draining;
    if i == |s.queue| {
      DrainedToTheEnd(s);
    } else {
      DrainingBound(s, i);
      if i < |s.queue| && s.queue[i].signal in s.aborted {
        RejectDrains(s, i);
        RejectedStep(s, i);
        DrainKeepsPermit(Reject(s, i, CallCancelled), i, id);
      } else if i < |s.queue| && Fits(s, s.queue[i]) {
        GrantDrains(s, i);
        DrainedStep(s, i);
        PermitIsSettled(s, i, id);
        DrainKeepsPermit(GrantedAt(s, i), 0, id);
      } else {
        SkippedStep(s, i);
        DrainKeepsPermit(s, i + 1, id);
      }
    }
  }

  lemma PermitIsSettled(s: Staging, i: nat, id: nat)
    requires Draining(s, i) && i < |s.queue| && id in s.permits
    ensures s.queue[i].id != id
  {
  }

  /** Every new permit is for somebody who waited, and for the bytes asked for; nobody else is settled. */
  predicate OnlyWaiters(s: Staging, d: Staging, id: nat) {
    && (id !in s.permits && id in d.permits ==> Asks(s.queue, id, d.permits[id]))
    && (id !in s.settled && id in d.settled ==> d.settled[id] in {Granted, Refused(CallCancelled)})
    && (id !in s.settled && id in d.settled && d.settled[id] == Granted ==> id in d.permits)
    && (id !in s.settled && id in d.settled ==> exists i :: 0 <= i < |s.queue| && s.queue[i].id == id)
  }

  lemma {:induction false} DrainServesWaiters(s: Staging, i: nat, id: nat)
    requires Draining(s, i)
    ensures OnlyWaiters(s, Drained(s, i), id)
    decreases |s.queue|, |s.queue| - i
  {
    hide Draining, OnlyWaiters;
    if i == |s.queue| {
      DrainedToTheEnd(s);
      NobodyServed(s, id);
    } else {
      DrainingBound(s, i);
      if i < |s.queue| && s.queue[i].signal in s.aborted {
        RejectDrains(s, i);
        RejectedStep(s, i);
        var r := Reject(s, i, CallCancelled);
        DrainServesWaiters(r, i, id);
        OutcomeStays(r, i, s.queue[i].id);
        ServedAfterReject(s, i, Drained(r, i), id);
      } else if i < |s.queue| && Fits(s, s.queue[i]) {
        GrantDrains(s, i);
        DrainedStep(s, i);
        var g := GrantedAt(s, i);
        DrainServesWaiters(g, 0, id);
        DrainKeepsPermit(g, 0, s.queue[i].id);
        OutcomeStays(g, 0, s.queue[i].id);
        ServedAfterGrant(s, i, Drained(g, 0), id);
      } else {
        SkippedStep(s, i);
        DrainServesWaiters(s, i + 1, id);
      }
    }
  }

  lemma NobodyServed(s: Staging, id: nat)
    ensures OnlyWaiters(s, s, id)
  {
  }

  lemma SomebodyWaited(queue: seq<Waiter>, i: nat, id: nat)
    requires i < |queue| && exists j :: 0 <= j < |queue| - 1 && Without(queue, i)[j].id == id
    ensures exists j :: 0 <= j < |queue| && queue[j].id == id
  {
    var j :| 0 <= j < |queue| - 1 && Without(queue, i)[j].id == id;
    assert queue[if j < i then j else j + 1].id == id;
  }

  lemma ServedAfterReject(s: Staging, i: nat, d: Staging, id: nat)
    requires i < |s.queue| && OnlyWaiters(Reject(s, i, CallCancelled), d, id)
    requires s.queue[i].id in d.settled && d.settled[s.queue[i].id] == Refused(CallCancelled)
    ensures OnlyWaiters(s, d, id)
  {
    if id !in s.permits && id in d.permits {
      AsksLater(s.queue, i, id, d.permits[id]);
    }
    if id !in s.settled && id in d.settled && id != s.queue[i].id {
      SomebodyWaited(s.queue, i, id);
    }
  }

  lemma ServedAfterGrant(s: Staging, i: nat, d: Staging, id: nat)
    requires i < |s.queue| && OnlyWaiters(GrantedAt(s, i), d, id)
    requires s.queue[i].id in d.settled && d.settled[s.queue[i].id] == Granted
    requires s.queue[i].id in d.permits && d.permits[s.queue[i].id] == s.queue[i].bytes
    ensures OnlyWaiters(s, d, id)
  {
    if id !in s.permits && id in d.permits {
      if id == s.queue[i].id {
        assert Asks(s.queue, id, s.queue[i].bytes);
      } else {
        AsksLater(s.queue, i, id, d.permits[id]);
      }
    }
    if id !in s.settled && id in d.settled && id != s.queue[i].id {
      SomebodyWaited(s.queue, i, id);
    }
  }

  /** With which error a call is refused: the size first, then the limiter, then the signal. */
  lemma RefusedExactly(s: Staging, id: nat, bytes: int, signal: nat)
    requires Settled(s) && (bytes < 0 || bytes > s.capacity || s.closed || signal in s.aborted)
    ensures var c := Acquired(s, id, bytes, signal);
            && c == s.(settled := c.settled) && c.settled.Keys == s.settled.Keys + {id}
            && c.settled[id] == Refused(if bytes < 0 then RangeUnsupported else if bytes > s.capacity then ResourceLimit
                                        else if s.closed then HandleClosed else CallCancelled)
  {
  }

  /** A call takes nothing from those who have permits, and gives nothing to those who wait. */
  lemma AcquireLeavesOthers(s: Staging, id: nat, bytes: int, signal: nat, other: nat)
    requires Settled(s) && id !in s.settled && (forall i :: 0 <= i < |s.queue| ==> s.queue[i].id != id) && other != id
    ensures var c := Acquired(s, id, bytes, signal);
            && (other in s.permits ==> other in c.permits && c.permits[other] == s.permits[other])
            && (other !in s.permits && other in c.permits ==> Asks(s.queue, other, c.permits[other]))
  {
    if 0 <= bytes <= s.capacity && !s.closed && signal !in s.aborted && s.used + bytes > s.capacity {
      var q := s.(queue := s.queue + [Waiter(id, bytes, signal)]);
      assert Draining(q, 0);
      DrainServesWaiters(q, 0, other);
      if other in s.permits {
        DrainKeepsPermit(q, 0, other);
      }
      if other !in s.permits && other in Drained(q, 0).permits {
        AsksBefore(s.queue, Waiter(id, bytes, signal), other, Drained(q, 0).permits[other]);
      }
    }
  }

  lemma AsksBefore(queue: seq<Waiter>, w: Waiter, id: nat, bytes: nat)
    requires Asks(queue + [w], id, bytes) && w.id != id
    ensures Asks(queue, id, bytes)
  {
    var i :| 0 <= i < |queue + [w]| && (queue + [w])[i].id == id && (queue + [w])[i].bytes == bytes;
    assert i < |queue| && queue[i] == (queue + [w])[i];
  }

  /** A release ends one permit; the others stay, and every new one goes to somebody who waited, for the bytes asked for. */
  lemma ReleaseEndsOne(s: Staging, id: nat, other: nat)
    requires Settled(s) && other != id
    ensures var c := PermitReleased(s, id);
            && (other in s.permits ==> other in c.permits && c.permits[other] == s.permits[other])
            && (other !in s.permits && other in c.permits ==> Asks(s.queue, other, c.permits[other]))
            && (id !in s.permits ==> c == s)
            && (other !in s.settled && other in c.settled ==> c.settled[other] in {Granted, Refused(CallCancelled)})
  {
    if id in s.permits && !s.closed {
      TotalWithout(s.permits, id);
      var r := s.(used := s.used - s.permits[id], permits := s.permits - {id});
      assert Draining(r, 0);
      DrainServesWaiters(r, 0, other);
      if other in s.permits {
        DrainKeepsPermit(r, 0, other);
      }
    }
  }

  /** An abort takes one waiter out of the queue and refuses its call; everybody else stays where they are. */
  lemma AbortRefusesOne(s: Staging, i: nat)
    requires Settled(s) && i < |s.queue|
    ensures var c := AbortHandled(s, i);
            && c.permits == s.permits && c.used == s.used && c.queue == s.queue[..i] + s.queue[i + 1..]
            && c.settled == s.settled[s.queue[i].id := Refused(CallCancelled)] && c.closed == s.closed && c.aborted == s.aborted
  {
  }

  // ---------------------------------------------------------------- the limiter

  class SourceStagingLimiter {
    const capacity: nat
    var used: int
    var queue: seq<Waiter>
    var closed: bool
    var unreleased: map<nat, nat>
    var abortedSignals: set<nat>
    ghost var settled: map<nat, Outcome>

    ghost function View(): Staging
      reads this
    {
      Staging(capacity, used, queue, closed, unreleased, abortedSignals, settled)
    }

    constructor (wanted: int)
      ensures capacity == Max(1, wanted)
      ensures View() == Staging(capacity, 0, [], false, map[], {}, map[]) && Settled(View())
    {
      capacity := Max(1, wanted);
      used, queue, closed, unreleased, abortedSignals := 0, [], false, map[], {};
      settled := map[];
    }

    ghost method Settle(id: nat, outcome: Outcome)
      modifies this`settled
      ensures settled == old(settled)[id := outcome]
    {
      settled := settled[id := outcome];
    }

    method GrantPermit(id: nat, bytes: nat)
      modifies this`used, this`unreleased, this`settled
      ensures View() == Grant(old(View()), id, bytes)
    {
      used := used + bytes;
      unreleased := unreleased[id := bytes];
      Settle(id, Granted);
    }

    method Acquire(id: nat, bytes: int, signal: nat)
      requires Settled(View()) && id !in settled && forall i :: 0 <= i < |queue| ==> queue[i].id != id
      modifies this
      ensures View() == Acquired(old(View()), id, bytes, signal) && Settled(View())
    {
      AcquireKeeps(View(), id, bytes, signal);
      if bytes < 0 {
        Settle(id, Refused(RangeUnsupported));
        return;
      }
      if bytes > capacity {
        Settle(id, Refused(ResourceLimit));
        return;
      }
      if closed {
        Settle(id, Refused(HandleClosed));
        return;
      }
      if signal in abortedSignals {
        Settle(id, Refused(CallCancelled));
        return;
      }
      if used + bytes <= capacity {
        GrantPermit(id, bytes);
        return;
      }
      queue := queue + [Waiter(id, bytes, signal)];
      Drain();
    }

    /** The search for a waiter that fits; it drops the aborted ones on its way. */
    method Select() returns (selected: int)
      modifies this`queue, this`settled
      ensures -1 <= selected < |queue|
      ensures selected == -1 ==> View() == Drained(old(View()), 0)
      ensures selected >= 0 ==>
                && Fits(View(), queue[selected])
                && Drained(Grant(View().(queue := Without(queue, selected)), queue[selected].id, queue[selected].bytes), 0)
                   == Drained(old(View()), 0)
      ensures |queue| <= |old(queue)|
    {
      ghost var s := View();
      selected := -1;
      var index: nat := 0;
      while index < |queue|
        invariant 0 <= index <= |queue| <= |s.queue|
        invariant Drained(View(), index) == Drained(s, 0)
        decreases |queue| - index
      {
        var waiter := queue[index];
        if waiter.signal in abortedSignals {
          queue := queue[..index] + queue[index + 1..];
          Settle(waiter.id, Refused(CallCancelled));
        } else if used + waiter.bytes <= capacity {
          return index;
        } else {
          index := index + 1;
        }
      }
    }

    method Drain()
      modifies this`used, this`queue, this`unreleased, this`settled
      ensures View() == if closed then old(View()) else Drained(old(View()), 0)
    {
      if closed {
        return;
      }
      ghost var s := View();
      while true
        invariant Drained(View(), 0) == Drained(s, 0)
        decreases |queue|
      {
        var selected := Select();
        if selected < 0 {
          return;
        }
        var waiter := queue[selected];
        queue := queue[..selected] + queue[selected + 1..];
        GrantPermit(waiter.id, waiter.bytes);
      }
    }

    method Release(id: nat)
      requires Settled(View())
      modifies this
      ensures View() == PermitReleased(old(View()), id) && Settled(View())
    {
      PermitReleaseKeeps(View(), id);
      if id in unreleased {
        used := Max(0, used - unreleased[id]);
        unreleased := unreleased - {id};
        Drain();
      }
    }

    /** The flag of a signal is set before its listeners run. */
    method SignalAborts(signal: nat)
      requires Settled(View())
      modifies this`abortedSignals
      ensures View() == old(View()).(aborted := old(abortedSignals) + {signal}) && Settled(View())
    {
      abortedSignals := abortedSignals + {signal};
    }

    /** `onAbort`: the listener is there only while the waiter is in the queue. */
    method OnAbort(index: nat)
      requires Settled(View()) && index < |queue|
      modifies this
      ensures View() == AbortHandled(old(View()), index) && Settled(View())
    {
      AbortKeeps(View(), index);
      Settle(queue[index].id, Refused(CallCancelled));
      queue := queue[..index] + queue[index + 1..];
    }

    method Close()
      requires Settled(View())
      modifies this
      ensures View() == StagingClosed(old(View())) && Settled(View())
    {
      CloseKeeps(View());
      if closed {
        return;
      }
      closed := true;
      settled := AllRefused(queue, settled);
      queue := [];
    }
  }
}
