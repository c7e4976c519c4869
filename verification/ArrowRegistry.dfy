/** The handle registry of the Arrow adapter (`ArrowIpcRuntime` in `src/arrow.rs`). */
module ArrowRegistry {
  import opened Common
  import opened ArrowRange
  import opened ArrowSource
  import opened Totals

  /** A source decoded at once, one that is opened progressively, or an indexed File that retains no batches. */
  datatype RuntimeSource = Decoded(source: Source) | Incremental(source: Source) | IndexedFile(limits: Limits) {
    function DecodedBytes(): nat {
      if IndexedFile? then 0 else source.decodedBytes
    }

    predicate IsStream() {
      Incremental? && source.stream
    }

    function LimitsOf(): Limits {
      if IndexedFile? then limits else source.limits
    }
  }

  datatype Registry = Registry(
    memoryBudget: nat, maxSources: nat, nextHandle: nat, retainedBytes: int, sources: map<nat, RuntimeSource>, tables: map<nat, nat>)

  function SizesOf(sources: map<nat, RuntimeSource>): map<nat, nat> {
    map h | h in sources :: sources[h].DecodedBytes()
  }

  predicate RegistryOk(r: Registry) {
    && r.retainedBytes == Total(SizesOf(r.sources)) <= r.memoryBudget && |r.sources| <= r.maxSources
    && 0 < r.nextHandle <= U32_MAX
    && (forall h :: h in r.sources ==> h < r.nextHandle && h !in r.tables)
    && (forall t :: t in r.tables ==> t < r.nextHandle && r.tables[t] in r.sources)
    && (forall h :: h in r.sources && !r.sources[h].IndexedFile? ==> SourceOk(r.sources[h].source))
  }

  /** `validate_for_memory_budget`. */
  predicate LimitsFit(l: Limits, budget: nat) {
    0 < l.maxDecodedBytes <= budget
  }

  // ---------------------------------------------------------------- the operations

  /** `allocate_handle`: the last `u32` is never given out. */
  function Allocate(r: Registry): Result<nat> {
    if r.nextHandle + 1 > U32_MAX then Err(ResourceLimit) else Ok(r.nextHandle)
  }

  /** `register_source`. */
  function Registered(r: Registry, source: RuntimeSource): Result<Registry> {
    if |r.sources| >= r.maxSources then Err(ResourceLimit)
    else if r.retainedBytes + source.DecodedBytes() > r.memoryBudget then Err(ResourceLimit)
    else
      var handle :- Allocate(r);
      Ok(r.(nextHandle := handle + 1, retainedBytes := r.retainedBytes + source.DecodedBytes(), sources := r.sources[handle := source]))
  }

  function OpenedIncremental(r: Registry, source: RuntimeSource): Result<Registry> {
    if !LimitsFit(source.LimitsOf(), r.memoryBudget) then Err(InvalidArgument) else Registered(r, source)
  }

  function OpenedStream(r: Registry, d: Delta): Result<Registry> {
    if !LimitsFit(d.limits, r.memoryBudget) then Err(InvalidArgument)
    else
      var source :- FromDelta(d);
      Registered(r, Incremental(source))
  }

  /** `append_incremental_stream`. */
  function AppendedTo(r: Registry, h: nat, d: Delta): Result<Registry> {
    if !LimitsFit(d.limits, r.memoryBudget) then Err(InvalidArgument)
    else if h !in r.sources then Err(HandleClosed)
    else if !r.sources[h].IsStream() then Err(InvalidArgument)
    else
      var previous := r.sources[h].source;
      if d.cumulativeDecodedBytes < previous.decodedBytes then Err(InvalidArgument)
      else
        var retained := r.retainedBytes + (d.cumulativeDecodedBytes - previous.decodedBytes);
        if retained > r.memoryBudget then Err(ResourceLimit)
        else
          var grown :- Appended(previous, d);
          Ok(r.(retainedBytes := retained, sources := r.sources[h := Incremental(grown)]))
  }

  /** `replace_incremental_source`. */
  function Replaced(r: Registry, h: nat, source: RuntimeSource): Result<Registry> {
    if !LimitsFit(source.LimitsOf(), r.memoryBudget) then Err(InvalidArgument)
    else if !source.IsStream() then Err(InvalidArgument)
    else if h !in r.sources then Err(HandleClosed)
    else if !r.sources[h].IsStream() then Err(InvalidArgument)
    else if r.retainedBytes < r.sources[h].DecodedBytes() then Err(RuntimeFailure)
    else
      var retained := r.retainedBytes - r.sources[h].DecodedBytes() + source.DecodedBytes();
      if retained > r.memoryBudget then Err(ResourceLimit)
      else Ok(r.(retainedBytes := retained, sources := r.sources[h := source]))
  }

  function OpenedTable(r: Registry, source: nat, isTableZero: bool): Result<Registry> {
    if !isTableZero then Err(InvalidArgument)
    else if source !in r.sources then Err(HandleClosed)
    else
      var handle :- Allocate(r);
      Ok(r.(nextHandle := handle + 1, tables := r.tables[handle := source]))
  }

  function ClosedTable(r: Registry, t: nat): Registry {
    r.(tables := r.tables - {t})
  }

  /** `close_source`, with its saturating subtraction. */
  function ClosedSource(r: Registry, h: nat): Registry {
    if h !in r.sources then r
    else
      r.(retainedBytes := Max(0, r.retainedBytes - r.sources[h].DecodedBytes()), sources := r.sources - {h},
         tables := map t | t in r.tables && r.tables[t] != h :: r.tables[t])
  }

  function ShutDown(r: Registry): Registry {
    r.(retainedBytes := 0, sources := map[], tables := map[])
  }

  // ---------------------------------------------------------------- what they keep

  lemma SizesWith(sources: map<nat, RuntimeSource>, h: nat, source: RuntimeSource)
    ensures SizesOf(sources[h := source]) == SizesOf(sources)[h := source.DecodedBytes()]
    ensures SizesOf(sources - {h}) == SizesOf(sources) - {h}
  {
  }

  lemma NewHandle(r: Registry)
    requires RegistryOk(r)
    ensures r.nextHandle !in r.sources && r.nextHandle !in r.tables && r.retainedBytes == Total(SizesOf(r.sources))
  {
    hide SizesOf, Total, SourceOk;
  }

  /** One more source, whose bytes and handle fit. */
  lemma OneMoreSource(r: Registry, source: RuntimeSource)
    requires RegistryOk(r) && (!source.IndexedFile? ==> SourceOk(source.source))
    requires |r.sources| < r.maxSources && r.retainedBytes + source.DecodedBytes() <= r.memoryBudget && r.nextHandle < U32_MAX
    ensures RegistryOk(r.(nextHandle := r.nextHandle + 1, retainedBytes := r.retainedBytes + source.DecodedBytes(),
                          sources := r.sources[r.nextHandle := source]))
  {
    hide SourceOk, Total, SizesOf;
    NewHandle(r);
    var h, sources := r.nextHandle, r.sources[r.nextHandle := source];
    assert Total(SizesOf(sources)) == r.retainedBytes + source.DecodedBytes() by {
      NewTotal(r, source);
    }
    assert |sources| == |r.sources| + 1;
    forall o | o in sources && !sources[o].IndexedFile? ensures SourceOk(sources[o].source) {
      if o != h {
        assert sources[o] == r.sources[o];
      }
    }
  }

  lemma NewTotal(r: Registry, source: RuntimeSource)
    requires r.nextHandle !in r.sources && r.retainedBytes == Total(SizesOf(r.sources))
    ensures Total(SizesOf(r.sources[r.nextHandle := source])) == r.retainedBytes + source.DecodedBytes()
  {
    SizesWith(r.sources, r.nextHandle, source);
    TotalWith(SizesOf(r.sources), r.nextHandle, source.DecodedBytes());
  }

  lemma RegisterKeeps(r: Registry, source: RuntimeSource)
    requires RegistryOk(r) && (!source.IndexedFile? ==> SourceOk(source.source))
    ensures var c := Registered(r, source);
            && (c.Ok? <==> && |r.sources| < r.maxSources && r.retainedBytes + source.DecodedBytes() <= r.memoryBudget
                           && r.nextHandle < U32_MAX)
            && (c.Ok? ==> RegistryOk(c.value) && c.value.sources == r.sources[r.nextHandle := source]
                          && r.nextHandle !in r.sources && r.nextHandle !in r.tables)
  {
    NewHandle(r);
    if |r.sources| < r.maxSources && r.retainedBytes + source.DecodedBytes() <= r.memoryBudget && r.nextHandle < U32_MAX {
      OneMoreSource(r, source);
    }
    hide RegistryOk, SourceOk;
  }

  /** The retained bytes of one source exchanged for another's. */
  lemma TotalExchanged(r: Registry, h: nat, source: RuntimeSource)
    requires RegistryOk(r) && h in r.sources
    ensures r.sources[h].DecodedBytes() <= r.retainedBytes
    ensures Total(SizesOf(r.sources[h := source])) == r.retainedBytes - r.sources[h].DecodedBytes() + source.DecodedBytes()
    ensures Total(SizesOf(r.sources - {h})) == r.retainedBytes - r.sources[h].DecodedBytes()
  {
    var sizes := SizesOf(r.sources);
    SizesWith(r.sources, h, source);
    TotalWithout(sizes, h);
    TotalWithout(sizes[h := source.DecodedBytes()], h);
    assert sizes[h := source.DecodedBytes()] - {h} == sizes - {h};
  }

  lemma AppendKeeps(r: Registry, h: nat, d: Delta)
    requires RegistryOk(r) && (h in r.sources && r.sources[h].IsStream() ==> WellFormed(d.batches, r.sources[h].source.schema))
    ensures var c := AppendedTo(r, h, d); c.Ok? ==> RegistryOk(c.value) && c.value.sources.Keys == r.sources.Keys
  {
    hide SourceOk, Appended, Total, SizesOf;
    var c := AppendedTo(r, h, d);
    if c.Ok? {
      AppendIsOk(r.sources[h].source, d);
      TotalExchanged(r, h, Incremental(Appended(r.sources[h].source, d).value));
      assert r.sources[h := Incremental(Appended(r.sources[h].source, d).value)].Keys == r.sources.Keys;
    }
  }

  lemma ReplaceKeeps(r: Registry, h: nat, source: RuntimeSource)
    requires RegistryOk(r) && (!source.IndexedFile? ==> SourceOk(source.source))
    ensures var c := Replaced(r, h, source);
            && c != Err(RuntimeFailure) && (c.Ok? ==> RegistryOk(c.value) && c.value.sources.Keys == r.sources.Keys)
  {
    hide SourceOk, Total, SizesOf;
    if h in r.sources {
      TotalExchanged(r, h, source);
      assert r.sources[h := source].Keys == r.sources.Keys;
    }
  }

  lemma OpenTableKeeps(r: Registry, source: nat, isTableZero: bool)
    requires RegistryOk(r)
    ensures var c := OpenedTable(r, source, isTableZero);
            c.Ok? ==> RegistryOk(c.value) && r.nextHandle !in r.sources && r.nextHandle !in r.tables
  {
    hide SourceOk, Total;
  }

  lemma CloseTableKeeps(r: Registry, t: nat)
    requires RegistryOk(r)
    ensures RegistryOk(ClosedTable(r, t)) && t !in ClosedTable(r, t).tables
  {
    hide SourceOk, Total;
  }

  /** Closing gives back exactly what the source retained, and takes its tables along. */
  lemma CloseSourceKeeps(r: Registry, h: nat)
    requires RegistryOk(r)
    ensures var c := ClosedSource(r, h);
            && RegistryOk(c) && h !in c.sources && ClosedSource(c, h) == c
            && c.retainedBytes == r.retainedBytes - (if h in r.sources then r.sources[h].DecodedBytes() else 0)
            && forall t :: t in c.tables <==> t in r.tables && r.tables[t] != h
  {
    if h in r.sources {
      TotalExchanged(r, h, r.sources[h]);
      hide SourceOk, Total;
      assert |r.sources - {h}| < |r.sources| by { assert (r.sources - {h}).Keys == r.sources.Keys - {h}; }
    }
  }

  // ---------------------------------------------------------------- exactly when they succeed, and what is there then

  /** Every other handle leads where it led, and no table changes. */
  ghost predicate OthersStay(r: Registry, c: Registry, h: nat) {
    && (forall o :: o != h ==> (o in c.sources <==> o in r.sources))
    && (forall o :: o in r.sources && o in c.sources && o != h ==> c.sources[o] == r.sources[o])
    && c.tables == r.tables && c.memoryBudget == r.memoryBudget && c.maxSources == r.maxSources
  }

  /** A source is opened exactly within its limits, count, budget and handles, and stands under the new handle. */
  lemma OpenExactly(r: Registry, source: RuntimeSource)
    requires RegistryOk(r)
    ensures var c, h := OpenedIncremental(r, source), r.nextHandle;
            && (c.Ok? <==> && 0 < source.LimitsOf().maxDecodedBytes <= r.memoryBudget && |r.sources| < r.maxSources
                           && Total(SizesOf(r.sources)) + source.DecodedBytes() <= r.memoryBudget && h < U32_MAX)
            && (c.Ok? ==> h !in r.sources && h in c.value.sources && c.value.sources[h] == source && OthersStay(r, c.value, h)
                          && c.value.nextHandle == h + 1)
  {
    hide SizesOf, Total;
  }

  /** A delta is taken exactly if the handle is an open stream that takes it and the growth fits the budget; then the source has grown. */
  lemma AppendedExactly(r: Registry, h: nat, d: Delta)
    requires RegistryOk(r)
    ensures var c := AppendedTo(r, h, d);
            && (c.Ok? <==> && 0 < d.limits.maxDecodedBytes <= r.memoryBudget && h in r.sources && r.sources[h].IsStream()
                           && Appended(r.sources[h].source, d).Ok?
                           && Total(SizesOf(r.sources)) + MemoryOf(d.batches) <= r.memoryBudget)
            && (c.Ok? ==> h in c.value.sources && c.value.sources[h].source == Appended(r.sources[h].source, d).value
                          && c.value.sources[h].IsStream() && OthersStay(r, c.value, h) && c.value.nextHandle == r.nextHandle)
            && (h !in r.sources && 0 < d.limits.maxDecodedBytes <= r.memoryBudget ==> c == Err(HandleClosed))
  {
    if h in r.sources && r.sources[h].IsStream() {
      AppendExactly(r.sources[h].source, d);
    }
    hide SizesOf, Total, Appended, SourceOk;
  }

  /** A stream is replaced exactly by another one that fits the budget in its place, which then stands under the handle. */
  lemma ReplacedExactly(r: Registry, h: nat, source: RuntimeSource)
    requires RegistryOk(r)
    ensures var c := Replaced(r, h, source);
            && (c.Ok? <==> && 0 < source.LimitsOf().maxDecodedBytes <= r.memoryBudget && source.IsStream() && h in r.sources
                           && r.sources[h].IsStream()
                           && Total(SizesOf(r.sources)) - r.sources[h].DecodedBytes() + source.DecodedBytes() <= r.memoryBudget)
            && (c.Ok? ==> h in c.value.sources && c.value.sources[h] == source && OthersStay(r, c.value, h)
                          && c.value.nextHandle == r.nextHandle)
  {
    if h in r.sources {
      TotalExchanged(r, h, source);
    }
    hide SizesOf, Total, SourceOk;
  }

  /** A table is opened exactly for an open source, and leads to it; closing it or the source takes nothing else away. */
  lemma TablesExactly(r: Registry, source: nat, isTableZero: bool)
    requires RegistryOk(r)
    ensures var c, t := OpenedTable(r, source, isTableZero), r.nextHandle;
            && (c.Ok? <==> isTableZero && source in r.sources && t < U32_MAX)
            && (c.Ok? ==> && c.value.tables.Keys == r.tables.Keys + {t} && c.value.tables[t] == source
                          && (forall u :: u in r.tables ==> u != t && c.value.tables[u] == r.tables[u])
                          && c.value.sources == r.sources && c.value.retainedBytes == r.retainedBytes && c.value.nextHandle == t + 1)
  {
    hide SizesOf, Total;
  }

  lemma ClosingExactly(r: Registry, h: nat)
    requires RegistryOk(r)
    ensures var c := ClosedTable(r, h);
            && c.tables.Keys == r.tables.Keys - {h} && (forall u :: u in c.tables ==> c.tables[u] == r.tables[u])
            && c.sources == r.sources && c.retainedBytes == r.retainedBytes && c.nextHandle == r.nextHandle
    ensures var c := ClosedSource(r, h);
            && c.sources.Keys == r.sources.Keys - {h} && (forall o :: o in c.sources ==> c.sources[o] == r.sources[o])
            && (forall u :: u in c.tables <==> u in r.tables && r.tables[u] != h) && (forall u :: u in c.tables ==> c.tables[u] == r.tables[u])
            && c.nextHandle == r.nextHandle
    ensures var c := ShutDown(r);
            c.sources == map[] && c.tables == map[] && c.retainedBytes == 0 && c.nextHandle == r.nextHandle
  {
    hide SizesOf, Total, SourceOk;
    if h !in r.sources {
      assert r.sources.Keys - {h} == r.sources.Keys;
    }
  }

  // ---------------------------------------------------------------- runs

  datatype Call =
    | Open(source: RuntimeSource)
    | OpenDelta(delta: Delta)
    | Append(handle: nat, delta: Delta)
    | Replace(handle: nat, source: RuntimeSource)
    | OpenTable(handle: nat, isTableZero: bool)
    | CloseTable(handle: nat)
    | CloseSource(handle: nat)
    | Shutdown

  /** What decoding guarantees of the values that come in. */
  predicate Sound(r: Registry, c: Call) {
    match c
    case Open(source) => !source.IndexedFile? ==> SourceOk(source.source)
    case OpenDelta(d) => WellFormed(d.batches, d.schema)
    case Append(h, d) => h in r.sources && r.sources[h].IsStream() ==> WellFormed(d.batches, r.sources[h].source.schema)
    case Replace(_, source) => !source.IndexedFile? ==> SourceOk(source.source)
    case _ => true
  }

  function Outcome(r: Registry, c: Call): Result<Registry> {
    match c
    case Open(source) => OpenedIncremental(r, source)
    case OpenDelta(d) => OpenedStream(r, d)
    case Append(h, d) => AppendedTo(r, h, d)
    case Replace(h, source) => Replaced(r, h, source)
    case OpenTable(h, zero) => OpenedTable(r, h, zero)
    case CloseTable(t) => Ok(ClosedTable(r, t))
    case CloseSource(h) => Ok(ClosedSource(r, h))
    case Shutdown => Ok(ShutDown(r))
  }

  /** A failed call leaves the registry as it was. */
  function Called(r: Registry, c: Call): Registry {
    if Outcome(r, c).Ok? then Outcome(r, c).value else r
  }

  lemma CallKeeps(r: Registry, c: Call)
    requires RegistryOk(r) && Sound(r, c)
    ensures RegistryOk(Called(r, c))
  {
    hide RegistryOk, SourceOk, WellFormed;
    match c
    case Open(source) => RegisterKeeps(r, source);
    case OpenDelta(d) =>
      BuildIsOk(true, d.schema, d.batches, d.limits, d.exact);
      if FromDelta(d).Ok? {
        RegisterKeeps(r, Incremental(FromDelta(d).value));
      }
    case Append(h, d) => AppendKeeps(r, h, d);
    case Replace(h, source) => ReplaceKeeps(r, h, source);
    case OpenTable(h, zero) => OpenTableKeeps(r, h, zero);
    case CloseTable(t) => CloseTableKeeps(r, t);
    case CloseSource(h) => CloseSourceKeeps(r, h);
    case Shutdown => ShutdownKeeps(r);
  }

  lemma ShutdownKeeps(r: Registry)
    requires RegistryOk(r)
    ensures RegistryOk(ShutDown(r))
  {
    assert SizesOf(map[]) == map[];
  }

  /** Handles go up; one that is closed, or was never a handle of this kind, does not come back. */
  ghost predicate Retires(r: Registry, c: Registry) {
    && r.nextHandle <= c.nextHandle
    && (forall h :: h < r.nextHandle && h !in r.sources ==> h !in c.sources)
    && (forall t :: t < r.nextHandle && t !in r.tables ==> t !in c.tables)
    && (forall t :: t in r.tables && t in c.tables ==> c.tables[t] == r.tables[t])
  }

  lemma CallRetires(r: Registry, c: Call)
    requires RegistryOk(r)
    ensures Retires(r, Called(r, c))
  {
    hide SourceOk, Appended, FromDelta, SizesOf;
  }

  function CallAll(r: Registry, calls: seq<Call>): Registry
    decreases |calls|
  {
    if calls == [] then r else CallAll(Called(r, calls[0]), calls[1..])
  }

  predicate AllSound(r: Registry, calls: seq<Call>)
    decreases |calls|
  {
    calls == [] || (Sound(r, calls[0]) && AllSound(Called(r, calls[0]), calls[1..]))
  }

  /** Every sequence of calls keeps the registry's invariant and never gives a handle out twice. */
  lemma {:induction false} CallsKeep(r: Registry, calls: seq<Call>)
    requires RegistryOk(r) && AllSound(r, calls)
    ensures RegistryOk(CallAll(r, calls)) && Retires(r, CallAll(r, calls))
    decreases |calls|
  {
    hide Sound, Called, SourceOk, Total, SizesOf;
    if calls != [] {
      CallKeeps(r, calls[0]);
      CallRetires(r, calls[0]);
      CallsKeep(Called(r, calls[0]), calls[1..]);
    }
  }

  // ---------------------------------------------------------------- the registry

  class ArrowIpcRuntime {
    const memoryBudget: nat
    const maxSources: nat
    var nextHandle: nat
    var retainedBytes: int
    var sources: map<nat, RuntimeSource>
    var tables: map<nat, nat>

    ghost function View(): Registry
      reads this
    {
      Registry(memoryBudget, maxSources, nextHandle, retainedBytes, sources, tables)
    }

    constructor (budget: nat, limit: nat)
      requires budget > 0 && limit > 0
      ensures RegistryOk(View()) && View() == Registry(budget, limit, 1, 0, map[], map[])
    {
      memoryBudget, maxSources := budget, limit;
      nextHandle, retainedBytes, sources, tables := 1, 0, map[], map[];
      new;
      assert SizesOf(map[]) == map[];
    }

    method AllocateHandle() returns (r: Result<nat>)
      modifies this`nextHandle
      ensures r == Allocate(old(View())) && nextHandle == if r.Ok? then old(nextHandle) + 1 else old(nextHandle)
    {
      var handle := nextHandle;
      if nextHandle + 1 > U32_MAX {
        return Err(ResourceLimit);
      }
      nextHandle := nextHandle + 1;
      return Ok(handle);
    }

    method RegisterSource(source: RuntimeSource) returns (r: Result<nat>)
      requires RegistryOk(View()) && (!source.IndexedFile? ==> SourceOk(source.source))
      modifies this
      ensures var spec := Registered(old(View()), source);
              if spec.Err? then r == Err(spec.error) && View() == old(View())
              else View() == spec.value && r == Ok(old(nextHandle))
      ensures RegistryOk(View())
    {
      RegisterKeeps(View(), source);
      hide RegistryOk, SourceOk;
      if |sources| >= maxSources {
        return Err(ResourceLimit);
      }
      var retained := retainedBytes + source.DecodedBytes();
      if retained > memoryBudget {
        return Err(ResourceLimit);
      }
      var handle :- AllocateHandle();
      retainedBytes := retained;
      sources := sources[handle := source];
      return Ok(handle);
    }

    method OpenIncrementalSource(source: RuntimeSource) returns (r: Result<nat>)
      requires RegistryOk(View()) && (!source.IndexedFile? ==> SourceOk(source.source))
      modifies this
      ensures View() == Called(old(View()), Open(source)) && RegistryOk(View())
      ensures r.Ok? <==> Outcome(old(View()), Open(source)).Ok?
      ensures r.Ok? ==> r.value == old(nextHandle)
    {
      hide RegistryOk, SourceOk;
      if !LimitsFit(source.LimitsOf(), memoryBudget) {
        return Err(InvalidArgument);
      }
      r := RegisterSource(source);
    }

    method OpenIncrementalStream(d: Delta) returns (r: Result<nat>)
      requires RegistryOk(View()) && WellFormed(d.batches, d.schema)
      modifies this
      ensures View() == Called(old(View()), OpenDelta(d)) && RegistryOk(View())
      ensures r.Ok? <==> Outcome(old(View()), OpenDelta(d)).Ok?
      ensures r.Ok? ==> r.value == old(nextHandle)
    {
      hide RegistryOk, SourceOk, Build, WellFormed;
      if !LimitsFit(d.limits, memoryBudget) {
        return Err(InvalidArgument);
      }
      BuildIsOk(true, d.schema, d.batches, d.limits, d.exact);
      var source :- FromDelta(d);
      r := RegisterSource(Incremental(source));
    }

    method AppendIncrementalStream(h: nat, d: Delta) returns (r: Result<()>)
      requires RegistryOk(View()) && Sound(View(), Append(h, d))
      modifies this
      ensures View() == Called(old(View()), Append(h, d)) && RegistryOk(View())
      ensures r.Ok? <==> Outcome(old(View()), Append(h, d)).Ok?
    {
      AppendKeeps(View(), h, d);
      hide RegistryOk, SourceOk, Appended, WellFormed;
      if !LimitsFit(d.limits, memoryBudget) {
        return Err(InvalidArgument);
      }
      if h !in sources {
        return Err(HandleClosed);
      }
      if !sources[h].IsStream() {
        return Err(InvalidArgument);
      }
      var previous := sources[h].source;
      if d.cumulativeDecodedBytes < previous.decodedBytes {
        return Err(InvalidArgument);
      }
      var retained := retainedBytes + (d.cumulativeDecodedBytes - previous.decodedBytes);
      if retained > memoryBudget {
        return Err(ResourceLimit);
      }
      var grown :- Appended(previous, d);
      sources := sources[h := Incremental(grown)];
      retainedBytes := retained;
      return Ok(());
    }

    method ReplaceIncrementalSource(h: nat, source: RuntimeSource) returns (r: Result<()>)
      requires RegistryOk(View()) && (!source.IndexedFile? ==> SourceOk(source.source))
      modifies this
      ensures View() == Called(old(View()), Replace(h, source)) && RegistryOk(View())
      ensures r.Ok? <==> Outcome(old(View()), Replace(h, source)).Ok?
    {
      ReplaceKeeps(View(), h, source);
      hide RegistryOk, SourceOk;
      if !LimitsFit(source.LimitsOf(), memoryBudget) {
        return Err(InvalidArgument);
      }
      if !source.IsStream() {
        return Err(InvalidArgument);
      }
      if h !in sources {
        return Err(HandleClosed);
      }
      if !sources[h].IsStream() {
        return Err(InvalidArgument);
      }
      if retainedBytes < sources[h].DecodedBytes() {
        return Err(RuntimeFailure);
      }
      var retained := retainedBytes - sources[h].DecodedBytes() + source.DecodedBytes();
      if retained > memoryBudget {
        return Err(ResourceLimit);
      }
      sources := sources[h := source];
      retainedBytes := retained;
      return Ok(());
    }

    method OpenTableOf(source: nat, isTableZero: bool) returns (r: Result<nat>)
      requires RegistryOk(View())
      modifies this
      ensures View() == Called(old(View()), OpenTable(source, isTableZero)) && RegistryOk(View())
      ensures r.Ok? <==> Outcome(old(View()), OpenTable(source, isTableZero)).Ok?
      ensures r.Ok? ==> r.value == old(nextHandle)
    {
      OpenTableKeeps(View(), source, isTableZero);
      hide RegistryOk;
      if !isTableZero {
        return Err(InvalidArgument);
      }
      if source !in sources {
        return Err(HandleClosed);
      }
      var handle :- AllocateHandle();
      tables := tables[handle := source];
      return Ok(handle);
    }

    method CloseTableHandle(t: nat) returns (closed: bool)
      requires RegistryOk(View())
      modifies this`tables
      ensures View() == Called(old(View()), CloseTable(t)) && RegistryOk(View())
      ensures closed <==> t in old(tables)
    {
      CloseTableKeeps(View(), t);
      closed := t in tables;
      tables := tables - {t};
    }

    method CloseSourceHandle(h: nat) returns (closed: bool)
      requires RegistryOk(View())
      modifies this
      ensures View() == Called(old(View()), CloseSource(h)) && RegistryOk(View())
      ensures closed <==> h in old(sources)
    {
      CloseSourceKeeps(View(), h);
      hide RegistryOk;
      if h !in sources {
        return false;
      }
      var bytes := sources[h].DecodedBytes();
      sources := sources - {h};
      retainedBytes := Max(0, retainedBytes - bytes);
      tables := map t | t in tables && tables[t] != h :: tables[t];
      return true;
    }

    method ShutdownAll()
      requires RegistryOk(View())
      modifies this
      ensures View() == Called(old(View()), Shutdown) && RegistryOk(View())
    {
      ShutdownKeeps(View());
      tables, sources, retainedBytes := map[], map[], 0;
    }

    /** A table that is open always finds its source. */
    method SourceForTable(t: nat) returns (r: Result<RuntimeSource>)
      requires RegistryOk(View())
      ensures r.Ok? <==> t in tables
      ensures r.Ok? ==> tables[t] in sources && r.value == sources[tables[t]]
    {
      if t !in tables {
        return Err(HandleClosed);
      }
      if tables[t] !in sources {
        return Err(HandleClosed);
      }
      return Ok(sources[tables[t]]);
    }
  }
}
