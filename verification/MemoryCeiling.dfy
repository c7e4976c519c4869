/**
 One engine's memory across its two threads: the Worker's ledger and range caches, and on the main
 thread the staging limiter, the batch cache and the retained sources.  An engine that can be created
 never uses more than its budget, in any run; a Worker on its own may be given a budget that it exceeds.
 */
module MemoryCeiling {
  import opened Common
  import opened MemoryBudget
  import opened RangeCache
  import opened RangeRequests
  import S = StagingLimiter
  import W = WorkerState
  import WorkerSteps
  import WorkerRuns
  import WorkerEffects

  /** A batch is represented by a number: only its size matters here. */
  datatype Memory = Memory(budget: Budget, ledger: Ledger, worker: W.State, staging: S.Staging, slice: Slice<nat>)

  datatype Event =
    | LedgerReserve(id: nat, amount: int)
    | LedgerRelease(id: nat)
    | WorkerStep(step: WorkerSteps.Event)
    | StageAcquire(id: nat, amount: int, signal: nat)
    | StageRelease(id: nat)
    | SignalAborts(signal: nat)
    | StageAbort(index: nat)
    | StageClose
    | CacheGet(key: Key)
    | CacheSet(key: Key, value: nat, size: nat)
    | CacheDelete(keys: set<Key>)
    | RetainBytes(id: nat, amount: int)
    | UnretainBytes(id: nat)

  const MAX_BATCH_CACHE_ENTRIES := 512
  const MIN_BATCH_CACHE_ENTRY_BYTES := 4 * 1024

  function StartCache(limits: Limits): Cache<nat> {
    var bytes: nat := Min(limits.mainThreadRangeCache, limits.mainThreadRetained);
    Cache(bytes, Min(MAX_BATCH_CACHE_ENTRIES, Max(1, bytes / MIN_BATCH_CACHE_ENTRY_BYTES)), MIN_BATCH_CACHE_ENTRY_BYTES, [], 0)
  }

  function Start(budget: Budget): Memory
  {
    var limits := DeriveLimits(budget);
    Memory(budget, Ledger(LedgerCapacity(budget), 0, map[]), W.START,
           S.Staging(limits.mainThreadSource, 0, [], false, map[], {}, map[]),
           Slice(limits.mainThreadRetained, StartCache(limits), 0, map[]))
  }

  predicate Enabled(m: Memory, e: Event) {
    match e
    case LedgerReserve(id, _) => id !in m.ledger.live
    case WorkerStep(step) => WorkerSteps.Enabled(m.worker, step)
    case StageAcquire(id, _, _) => id !in m.staging.settled && id !in S.Ids(m.staging.queue)
    case StageAbort(index) => index < |m.staging.queue|
    case RetainBytes(id, _) => id !in m.slice.live
    case _ => true
  }

  function Next(m: Memory, e: Event): Memory
    requires Enabled(m, e)
  {
    match e
    case LedgerReserve(id, amount) =>
      var r := Reserved(m.ledger, id, amount);
      if r.Ok? then m.(ledger := r.value) else m
    case LedgerRelease(id) => m.(ledger := Released(m.ledger, id))
    case WorkerStep(step) => m.(worker := WorkerSteps.Next(m.worker, step))
    case StageAcquire(id, amount, signal) => m.(staging := S.Acquired(m.staging, id, amount, signal))
    case StageRelease(id) => m.(staging := S.PermitReleased(m.staging, id))
    case SignalAborts(signal) => m.(staging := m.staging.(aborted := m.staging.aborted + {signal}))
    case StageAbort(index) => m.(staging := S.AbortHandled(m.staging, index))
    case StageClose => m.(staging := S.StagingClosed(m.staging))
    case CacheGet(key) => m.(slice := m.slice.(cache := Touched(m.slice.cache, key)))
    case CacheSet(key, value, size) => m.(slice := StoreBatch(m.slice, key, value, size))
    case CacheDelete(keys) =>
      var kept := Kept(m.slice.cache.entries, (e: Entry<nat>) => e.key in keys);
      m.(slice := m.slice.(cache := m.slice.cache.(entries := kept, byteLength := Bytes(kept))))
    case RetainBytes(id, amount) =>
      var r := Retain(m.slice, id, amount);
      if r.Ok? then m.(slice := r.value) else m
    case UnretainBytes(id) => m.(slice := Unretain(m.slice, id))
  }

  /** What the Worker accounts for; a source slot is charged with the whole cache it may fill. */
  function WorkerInUse(m: Memory): int
  {
    m.ledger.used + |m.worker.holders| * SourceCacheBudget(DeriveLimits(m.budget))
  }

  /** All bytes that the engine accounts for. */
  function InUse(m: Memory): int
  {
    WorkerInUse(m) + m.staging.used + m.slice.cache.byteLength + m.slice.retained
  }

  ghost predicate MemoryOk(m: Memory) {
    && LedgerOk(m.ledger) && m.ledger.capacity == LedgerCapacity(m.budget)
    && W.Inv(m.worker)
    && S.Settled(m.staging) && m.staging.capacity == DeriveLimits(m.budget).mainThreadSource
    && SliceOk(m.slice) && m.slice.limit == DeriveLimits(m.budget).mainThreadRetained
  }

  // ---------------------------------------------------------------- every step keeps its slice

  lemma StagingKeeps(m: Memory, e: Event)
    requires MemoryOk(m) && Enabled(m, e)
    requires e.StageAcquire? || e.StageRelease? || e.SignalAborts? || e.StageAbort? || e.StageClose?
    ensures MemoryOk(Next(m, e)) && Next(m, e).budget == m.budget
  {
    hide W.Inv, SliceOk, LedgerOk, DeriveLimits, LedgerCapacity, S.Acquired, S.PermitReleased;
    match e
    case StageAcquire(id, amount, signal) => S.AcquireKeeps(m.staging, id, amount, signal);
    case StageRelease(id) => S.PermitReleaseKeeps(m.staging, id);
    case SignalAborts(signal) =>
    case StageAbort(index) => S.AbortKeeps(m.staging, index);
    case StageClose => S.CloseKeeps(m.staging);
  }

  lemma SliceKeeps(m: Memory, e: Event)
    requires MemoryOk(m) && Enabled(m, e)
    requires e.CacheGet? || e.CacheSet? || e.CacheDelete? || e.RetainBytes? || e.UnretainBytes?
    ensures MemoryOk(Next(m, e)) && Next(m, e).budget == m.budget
  {
    hide W.Inv, S.Settled, LedgerOk, DeriveLimits, LedgerCapacity, Retain, Unretain, StoreBatch, Distinct;
    match e
    case CacheGet(key) => TouchKeeps(m.slice.cache, key); TouchBytes(m.slice.cache, key);
    case CacheSet(key, value, size) => StoreBatchKeeps(m.slice, key, value, size); LimitStays(m.slice, key, value, size);
    case CacheDelete(keys) => KeptKeeps(m.slice.cache.entries, (e: Entry<nat>) => e.key in keys);
    case RetainBytes(id, amount) => RetainKeeps(m.slice, id, amount); RetainLimit(m.slice, id, amount);
    case UnretainBytes(id) => UnretainKeeps(m.slice, id); UnretainLimit(m.slice, id);
  }

  lemma TouchBytes<T>(c: Cache<T>, key: Key)
    ensures Touched(c, key).byteLength == c.byteLength
  {
  }

  lemma LimitStays<T>(s: Slice<T>, key: Key, value: T, size: nat)
    ensures StoreBatch(s, key, value, size).limit == s.limit
  {
  }

  lemma RetainLimit<T>(s: Slice<T>, id: nat, amount: int)
    ensures var r := Retain(s, id, amount); r.Ok? ==> r.value.limit == s.limit
  {
  }

  lemma UnretainLimit<T>(s: Slice<T>, id: nat)
    ensures Unretain(s, id).limit == s.limit
  {
  }

  lemma StepKeeps(m: Memory, e: Event)
    requires MemoryOk(m) && Enabled(m, e)
    ensures MemoryOk(Next(m, e)) && Next(m, e).budget == m.budget
  {
    if e.LedgerReserve? || e.LedgerRelease? || e.WorkerStep? {
      hide S.Settled, SliceOk, W.Inv, WorkerSteps.Enabled, WorkerSteps.Next, DeriveLimits, LedgerCapacity;
      match e
      case LedgerReserve(id, amount) => ReserveKeeps(m.ledger, id, amount);
      case LedgerRelease(id) => ReservationReleaseKeeps(m.ledger, id);
      case WorkerStep(step) => WorkerSteps.StepKeeps(m.worker, step);
    } else {
      hide MemoryOk, Enabled, Next;
      if e.StageAcquire? || e.StageRelease? || e.SignalAborts? || e.StageAbort? || e.StageClose? {
        StagingKeeps(m, e);
      } else {
        SliceKeeps(m, e);
      }
    }
  }

  // ---------------------------------------------------------------- what the events add and take

  /** Reservations that fit count from then on, others do not; what is given back is gone, once. */
  lemma LedgerMovesUse(m: Memory, e: Event)
    requires MemoryOk(m) && Enabled(m, e) && (e.LedgerReserve? || e.LedgerRelease?)
    ensures var c := Next(m, e);
            && c == m.(ledger := c.ledger)
            && (e.LedgerReserve? ==>
                  InUse(c) == InUse(m) + if 0 <= e.amount <= m.ledger.capacity - m.ledger.used then e.amount else 0)
            && (e.LedgerRelease? ==> InUse(c) == InUse(m) - (if e.id in m.ledger.live then m.ledger.live[e.id] else 0) && e.id !in c.ledger.live)
  {
    hide W.Inv, S.Settled, SliceOk, DeriveLimits, LedgerCapacity;
  }

  lemma SliceMovesUse(m: Memory, e: Event)
    requires MemoryOk(m) && Enabled(m, e) && (e.RetainBytes? || e.UnretainBytes?)
    ensures var c := Next(m, e);
            && c == m.(slice := c.slice)
            && (e.RetainBytes? ==>
                  var fits := 0 <= e.amount <= m.slice.limit - m.slice.retained;
                  c.slice.retained == m.slice.retained + (if fits then e.amount else 0) && (!fits ==> c == m))
            && (e.UnretainBytes? ==> InUse(c) == InUse(m) - if e.id in m.slice.live then m.slice.live[e.id] else 0)
  {
    hide W.Inv, S.Settled, LedgerOk, DeriveLimits, LedgerCapacity, CacheOk, Trimmed;
    UnretainKeeps(m.slice, if e.UnretainBytes? then e.id else 0);
  }

  /** A staged read that fits counts at once; a slot that is reserved counts with the cache it may fill. */
  lemma StageMovesUse(m: Memory, id: nat, amount: int, signal: nat)
    requires MemoryOk(m) && Enabled(m, StageAcquire(id, amount, signal))
    requires 0 <= amount <= m.staging.capacity - m.staging.used && !m.staging.closed && signal !in m.staging.aborted
    ensures var c := Next(m, StageAcquire(id, amount, signal)); InUse(c) == InUse(m) + amount && id in c.staging.permits
  {
    hide W.Inv, SliceOk, LedgerOk, DeriveLimits, LedgerCapacity;
  }

  lemma SlotMovesUse(m: Memory, r: nat)
    requires MemoryOk(m) && Enabled(m, WorkerStep(WorkerSteps.ReserveSlot(r)))
    ensures var c := Next(m, WorkerStep(WorkerSteps.ReserveSlot(r)));
            && c == m.(worker := WorkerSteps.Next(m.worker, WorkerSteps.ReserveSlot(r)))
            && InUse(c) == InUse(m) + if m.worker.slotsInUse < MAX_SOURCES then SourceCacheBudget(DeriveLimits(m.budget)) else 0
  {
    SlotHolders(m.worker, r);
    WorkerNext(m, WorkerSteps.ReserveSlot(r));
    hide W.Inv, MemoryOk, Enabled, Next, WorkerSteps.Enabled, WorkerSteps.Next, SourceCacheBudget, DeriveLimits;
    UseWithSlots(m, WorkerSteps.Next(m.worker, WorkerSteps.ReserveSlot(r)), if m.worker.slotsInUse < MAX_SOURCES then 1 else 0);
    hide InUse;
  }

  lemma UseWithSlots(m: Memory, w: W.State, more: nat)
    requires |w.holders| == |m.worker.holders| + more && more <= 1
    ensures InUse(m.(worker := w)) == InUse(m) + if more == 1 then SourceCacheBudget(DeriveLimits(m.budget)) else 0
  {
    hide SourceCacheBudget, DeriveLimits;
    var perSource := SourceCacheBudget(DeriveLimits(m.budget));
    assert (|m.worker.holders| + 1) * perSource == |m.worker.holders| * perSource + perSource;
  }

  lemma WorkerNext(m: Memory, step: WorkerSteps.Event)
    requires Enabled(m, WorkerStep(step))
    ensures WorkerSteps.Enabled(m.worker, step) && Next(m, WorkerStep(step)) == m.(worker := WorkerSteps.Next(m.worker, step))
  {
    hide WorkerSteps.Enabled, WorkerSteps.Next;
  }

  lemma SlotHolders(w: W.State, r: nat)
    requires W.Inv(w) && WorkerSteps.Enabled(w, WorkerSteps.ReserveSlot(r))
    ensures |WorkerSteps.Next(w, WorkerSteps.ReserveSlot(r)).holders| == |w.holders| + if w.slotsInUse < MAX_SOURCES then 1 else 0
  {
    hide W.Inv, WorkerSteps.Enabled, WorkerSteps.Next;
    WorkerEffects.SlotIsReserved(w, r);
  }

  // ---------------------------------------------------------------- every run stays within the budget

  predicate Follows(m: Memory, es: seq<Event>)
    decreases |es|
  {
    es == [] || (Enabled(m, es[0]) && Follows(Next(m, es[0]), es[1..]))
  }

  function Run(m: Memory, es: seq<Event>): Memory
    requires Follows(m, es)
    decreases |es|
  {
    if es == [] then m else Run(Next(m, es[0]), es[1..])
  }

  lemma {:induction false} RunKeeps(m: Memory, es: seq<Event>)
    requires MemoryOk(m) && Follows(m, es)
    ensures MemoryOk(Run(m, es)) && Run(m, es).budget == m.budget
    decreases |es|
  {
    hide MemoryOk, Enabled, Next;
    if es != [] {
      StepKeeps(m, es[0]);
      RunKeeps(Next(m, es[0]), es[1..]);
    }
  }

  lemma StartIsOk(budget: Budget)
    ensures MemoryOk(Start(budget))
  {
    WorkerRuns.StartIsValid();
    hide W.Inv;
  }

  lemma HoldersBounded(w: W.State)
    requires W.Inv(w)
    ensures |w.holders| <= MAX_SOURCES
  {
  }

  lemma WithinSlices(m: Memory)
    requires MemoryOk(m)
    ensures InUse(m) <= Slices(m.budget)
  {
    HoldersBounded(m.worker);
    hide W.Inv, DeriveLimits, LedgerCapacity, CacheOk, S.StagingOk;
    assert m.staging.used <= m.staging.capacity by { StagingBounded(m.staging); }
    var perSource := SourceCacheBudget(DeriveLimits(m.budget));
    ScaledOrder(|m.worker.holders|, MAX_SOURCES, perSource);
  }

  lemma StagingBounded(s: S.Staging)
    requires S.Settled(s)
    ensures s.used <= s.capacity
  {
  }

  lemma StartBudget(budget: Budget)
    ensures Start(budget).budget == budget
  {
  }

  // ---------------------------------------------------------------- engines

  const MIN_MEMORY_BUDGET_BYTES := 8 * 1024 * 1024
  const DEFAULT_MEMORY_BUDGET_BYTES := 256 * 1024 * 1024

  /** `createEngine` as far as the budget is concerned: too small a budget is refused before anything is allotted. */
  function CreateEngine(requested: Option<int>): Result<Memory>
  {
    var budget := if requested.Some? then requested.value else DEFAULT_MEMORY_BUDGET_BYTES;
    if budget > MAX_SAFE_INTEGER || budget <= 0 then Err(InvalidArgument)
    else if budget < MIN_MEMORY_BUDGET_BYTES then Err(InvalidArgument)
    else Ok(Start(budget))
  }

  /** The ceiling: an engine that can be created never uses more than its budget, whatever it does. */
  lemma CeilingHolds(requested: Option<int>, es: seq<Event>)
    requires CreateEngine(requested).Ok? && Follows(CreateEngine(requested).value, es)
    ensures var m := Run(CreateEngine(requested).value, es);
            InUse(m) <= m.budget && (requested.Some? ==> m.budget == requested.value)
  {
    hide Start, Follows, Run, MemoryOk, InUse, Slices;
    var start := CreateEngine(requested).value;
    var budget: Budget := if requested.Some? then requested.value else DEFAULT_MEMORY_BUDGET_BYTES;
    StartIsOk(budget);
    StartBudget(budget);
    RunKeeps(start, es);
    WithinSlices(Run(start, es));
    SlicesFitExactlyWhenSplit(budget);
  }

  /** An engine is created exactly for the budgets that its slices fit, or if none is named. */
  lemma CreatedExactlyWhenSlicesFit(requested: Option<int>)
    ensures CreateEngine(requested).Ok? <==>
            (requested.Some? ==> 0 < requested.value <= MAX_SAFE_INTEGER && Slices(requested.value) <= requested.value)
    ensures CreateEngine(requested).Err? ==> CreateEngine(requested).error == InvalidArgument
  {
    if requested.Some? && 0 < requested.value <= MAX_SAFE_INTEGER {
      SlicesFitExactlyWhenSplit(requested.value);
    }
  }

  // ---------------------------------------------------------------- the Worker alone

  /** `hello` accepts every positive safe integer.  The host's slices stay untouched by what a Worker does. */
  function Hello(budget: int): Result<Memory>
  {
    if budget > MAX_SAFE_INTEGER || budget <= 0 then Err(InvalidArgument) else Ok(Start(budget))
  }

  predicate InWorker(es: seq<Event>) {
    forall i :: 0 <= i < |es| ==> es[i].LedgerReserve? || es[i].LedgerRelease? || es[i].WorkerStep?
  }

  lemma {:induction false} HostUntouched(m: Memory, es: seq<Event>)
    requires Follows(m, es) && InWorker(es)
    ensures Run(m, es).staging == m.staging && Run(m, es).slice == m.slice
    decreases |es|
  {
    hide WorkerSteps.Enabled, WorkerSteps.Next;
    if es != [] {
      assert es[0].LedgerReserve? || es[0].LedgerRelease? || es[0].WorkerStep?;
      HostUntouched(Next(m, es[0]), es[1..]);
    }
  }

  /** Whatever its budget, a Worker stays within its ledger and one cache for each source slot. */
  lemma WorkerWithinSlices(budget: int, es: seq<Event>)
    requires Hello(budget).Ok? && Follows(Hello(budget).value, es) && InWorker(es)
    ensures var m := Run(Hello(budget).value, es);
            && m.budget == budget && InUse(m) == WorkerInUse(m)
            && WorkerInUse(m) <= LedgerCapacity(budget) + MAX_SOURCES * SourceCacheBudget(DeriveLimits(budget))
  {
    var m := Run(Hello(budget).value, es);
    HostUntouched(Start(budget), es);
    assert Start(budget).staging.used == 0 && Start(budget).slice.cache.byteLength == 0 && Start(budget).slice.retained == 0;
    hide Start, Follows, Run, W.Inv, DeriveLimits, LedgerCapacity;
    StartIsOk(budget);
    StartBudget(budget);
    RunKeeps(Start(budget), es);
    HoldersBounded(m.worker);
    ScaledOrder(|m.worker.holders|, MAX_SOURCES, SourceCacheBudget(DeriveLimits(budget)));
  }

  /** Below the split the ledger may take the whole budget, and an open source gets its cache on top. */
  function Overrun(budget: Budget): seq<Event> {
    [LedgerReserve(0, budget), WorkerStep(WorkerSteps.StartOpen(0)), WorkerStep(WorkerSteps.ReserveSlot(0))]
  }

  lemma FirstSlot()
    ensures WorkerSteps.Enabled(W.START, WorkerSteps.StartOpen(0))
    ensures var s := WorkerSteps.Next(W.START, WorkerSteps.StartOpen(0));
            WorkerSteps.Enabled(s, WorkerSteps.ReserveSlot(0)) && WorkerSteps.Next(s, WorkerSteps.ReserveSlot(0)).holders == {0}
  {
  }

  lemma FirstOfRun(m: Memory, e: Event, es: seq<Event>)
    requires Enabled(m, e) && Follows(Next(m, e), es)
    ensures Follows(m, [e] + es) && Run(m, [e] + es) == Run(Next(m, e), es)
  {
    hide Enabled, Next;
    assert ([e] + es)[1..] == es;
  }

  lemma RunOfThree(m: Memory, e1: Event, e2: Event, e3: Event)
    requires Enabled(m, e1) && Enabled(Next(m, e1), e2) && Enabled(Next(Next(m, e1), e2), e3)
    ensures Follows(m, [e1, e2, e3]) && Run(m, [e1, e2, e3]) == Next(Next(Next(m, e1), e2), e3)
  {
    hide Enabled, Next;
    var m2 := Next(Next(m, e1), e2);
    FirstOfRun(m2, e3, []);
    assert [e3] + [] == [e3] && [e2] + [e3] == [e2, e3] && [e1] + [e2, e3] == [e1, e2, e3];
    FirstOfRun(Next(m, e1), e2, [e3]);
    FirstOfRun(m, e1, [e2, e3]);
  }

  lemma OverrunExceeds(budget: Budget)
    requires budget < MIN_SPLIT_BUDGET_BYTES
    ensures InWorker(Overrun(budget)) && Follows(Start(budget), Overrun(budget))
    ensures WorkerInUse(Run(Start(budget), Overrun(budget))) > budget
  {
    hide WorkerSteps.Enabled, WorkerSteps.Next, Follows, Run;
    FirstSlot();
    var e1, e2, e3 := LedgerReserve(0, budget), WorkerStep(WorkerSteps.StartOpen(0)), WorkerStep(WorkerSteps.ReserveSlot(0));
    RunOfThree(Start(budget), e1, e2, e3);
  }

  /** A Worker stays within the budget it was given in every run if and only if that budget is split. */
  lemma WorkerCeilingExactlyWhenSplit(budget: int)
    requires Hello(budget).Ok?
    ensures (forall es :: Follows(Hello(budget).value, es) && InWorker(es) ==> WorkerInUse(Run(Hello(budget).value, es)) <= budget)
            <==> budget >= MIN_SPLIT_BUDGET_BYTES
  {
    hide Follows, Run, Start, WorkerInUse, DeriveLimits, LedgerCapacity, InWorker;
    var start := Hello(budget).value;
    if budget >= MIN_SPLIT_BUDGET_BYTES {
      SlicesFitExactlyWhenSplit(budget);
      forall es | Follows(start, es) && InWorker(es) ensures WorkerInUse(Run(start, es)) <= budget {
        WorkerWithinSlices(budget, es);
      }
    } else {
      OverrunExceeds(budget);
    }
  }
}
