/**
 Half-done closing: what the Worker's state is between two steps of `closeTableState` and
 `closeDatasetState`, that it is fit for calling the other handlers, and that the recursion ends.
 */
module WorkerStages {
  import opened Common
  import opened WorkerState
  import opened WorkerSteps
  import opened WorkerRuns

  // ---------------------------------------------------------------- what holds inside a handler

  /** A request's handle is its own, also while a handler is half done. */
  predicate HandleOk(s: State, r: nat)
    requires r in s.requests
  {
    var q := s.requests[r];
    && (q.cancelled ==> q.op == None)
    && (q.kind == OpenKind && q.dataset.Some? ==> q.dataset.value == r)
    && (q.op.Some? ==> q.op.value in s.owners
                       && (s.owners[q.op.value] == OfRequest(r)
                           || (s.owners[q.op.value] == Shared(r) && q.kind == OpenKind && q.dataset == Some(r)
                               && r in s.datasets && s.datasets[r].scanOp == q.op)))
    && (!q.cancelled && q.kind != OpenKind && q.table.Some? ==>
          q.table.value in s.tables && q.dataset == Some(s.tables[q.table.value].dataset))
  }

  predicate ScanOk(s: State, d: nat)
    requires d in s.datasets
  {
    var e := s.datasets[d];
    && (e.closed ==> e.scanOp == None)
    && (e.scanOp.Some? ==> e.scanOp.value in s.owners && s.owners[e.scanOp.value] in {OfDataset(d), Shared(d)})
  }

  /** What every handler keeps at every point where it calls another one. */
  predicate Handles(s: State) {
    && s.active <= s.requests.Keys
    && (forall r :: r in s.active ==> HandleOk(s, r))
    && (forall d :: d in s.datasets ==> ScanOk(s, d))
    && (forall t :: t in s.tables && t in s.closedTables ==> s.tables[t].closed)
  }

  lemma InvHandles(s: State)
    requires Inv(s)
    ensures Handles(s)
  {
    forall r | r in s.active ensures HandleOk(s, r) {
      assert RequestOk(s, r);
    }
    forall d | d in s.datasets ensures ScanOk(s, d) {
      assert DatasetOk(s, d);
    }
    forall t | t in s.tables && t in s.closedTables ensures s.tables[t].closed {
      assert TableOk(s, t);
    }
  }

  function LiveRequests(s: State): set<nat> {
    set r | r in s.active && r in s.requests && !s.requests[r].cancelled
  }

  function OpenDatasets(s: State): set<nat> {
    set d | d in s.datasets && !s.datasets[d].closed
  }

  function OpenTables(s: State): set<nat> {
    set t | t in s.tables && !s.tables[t].closed
  }

  /** Uncancelled requests plus unclosed datasets and tables: what the recursion uses up. */
  function Live(s: State): nat {
    |LiveRequests(s)| + |OpenDatasets(s)| + |OpenTables(s)|
  }

  /** Nothing came alive. */
  predicate Fewer(s: State, c: State) {
    LiveRequests(c) <= LiveRequests(s) && OpenDatasets(c) <= OpenDatasets(s) && OpenTables(c) <= OpenTables(s)
  }

  lemma FewerIsLess(s: State, c: State)
    requires Fewer(s, c)
    ensures Live(c) <= Live(s)
    ensures LiveRequests(c) != LiveRequests(s) || OpenDatasets(c) != OpenDatasets(s) || OpenTables(c) != OpenTables(s) ==> Live(c) < Live(s)
  {
    SubsetIsSmaller(LiveRequests(c), LiveRequests(s));
    SubsetIsSmaller(OpenDatasets(c), OpenDatasets(s));
    SubsetIsSmaller(OpenTables(c), OpenTables(s));
  }

  /** The requests `picked` out of `todo` have been cancelled, the others not yet. */
  function CancelledSome(s: State, picked: set<nat>): State {
    s.(requests := map r | r in s.requests :: if r in picked then Cancelled(s.requests[r]) else s.requests[r],
       owners := map op | op in s.owners ::
         if s.owners[op].OfRequest? && s.owners[op].request in picked && s.owners[op].request in s.requests
            && s.requests[s.owners[op].request].op == Some(op)
         then CancelledOp else s.owners[op])
  }

  lemma CancelNoMore(s: State, picked: set<nat>, r: nat)
    requires Handles(s) && r in s.active && s.requests[r].cancelled
    ensures CancelledSome(s, picked + {r}) == CancelledSome(s, picked)
  {
    var c, after := CancelledSome(s, picked), CancelledSome(s, picked + {r});
    assert HandleOk(s, r);
    assert Cancelled(s.requests[r]) == s.requests[r];
    assert after.requests == c.requests;
    assert after.owners == c.owners;
  }

  lemma CancelOneMore(s: State, picked: set<nat>, r: nat)
    requires Handles(s) && picked <= s.active && r in s.active && r !in picked
    requires s.requests[r].op.Some? ==> s.owners[s.requests[r].op.value] == OfRequest(r)
    ensures r in CancelledSome(s, picked).requests && CancelledSome(s, picked).requests[r] == s.requests[r]
    ensures CancelledSome(s, picked + {r})
         == if s.requests[r].cancelled then CancelledSome(s, picked) else CancelAlone(CancelledSome(s, picked), r)
  {
    if s.requests[r].cancelled {
      CancelNoMore(s, picked, r);
    } else {
      assert HandleOk(s, r);
      hide Handles, HandleOk;
      assert s.requests[r].op.Some? ==> s.requests[r].op.value in s.owners;
      CancelledTogether(s, picked, {r});
      CancelJustOne(CancelledSome(s, picked), r);
    }
  }

  lemma CancelJustOne(s: State, r: nat)
    requires r in s.requests
    requires s.requests[r].op.Some? ==> s.requests[r].op.value in s.owners && s.owners[s.requests[r].op.value] == OfRequest(r)
    ensures CancelledSome(s, {r}) == CancelAlone(s, r)
  {
    var c, alone := CancelledSome(s, {r}), CancelAlone(s, r);
    assert c.requests == alone.requests;
    assert c.owners == alone.owners;
  }

  lemma CancelledSomeHandles(s: State, picked: set<nat>)
    requires Handles(s) && picked <= s.active
    ensures Handles(CancelledSome(s, picked)) && Fewer(s, CancelledSome(s, picked))
  {
    var c := CancelledSome(s, picked);
    forall r | r in c.active ensures HandleOk(c, r) {
      assert HandleOk(s, r);
    }
    forall d | d in c.datasets ensures ScanOk(c, d) {
      assert ScanOk(s, d);
    }
  }

  // ---------------------------------------------------------------- closing a table, closing a dataset, in stages

  function OnTables(s: State, ts: set<nat>): set<nat> {
    set r | r in s.active && r in s.requests && s.requests[r].kind != OpenKind
            && s.requests[r].table.Some? && s.requests[r].table.value in ts
  }

  function InDataset(s: State, d: nat): set<nat> {
    set r | r in s.active && r in s.requests && s.requests[r].dataset == Some(d)
  }

  function MarkTables(s: State, ts: set<nat>): State {
    s.(tables := map t | t in s.tables :: if t in ts then s.tables[t].(closed := true) else s.tables[t],
       closedTables := s.closedTables + ts)
  }

  /** The tables `ts` and their requests are gone. */
  function TablesGone(s: State, ts: set<nat>): State {
    MarkTables(CancelledSome(s, OnTables(s, ts)), ts)
  }

  lemma CloseTableIsStage(s: State, t: nat)
    requires Handles(s) && IsOpenTable(s, t)
    ensures CloseTable(s, t) == TablesGone(s, {t})
  {
    var c, g := CloseTable(s, t), TablesGone(s, {t});
    assert forall r :: r in OnTables(s, {t}) <==> OnTable(s, t, r);
    assert c.requests == g.requests;
    assert c.owners == g.owners;
    assert c.tables == g.tables;
  }

  lemma OnTablesLater(s: State, ts: set<nat>, t: nat)
    requires s.active <= s.requests.Keys
    ensures OnTables(TablesGone(s, ts), {t}) == OnTables(s, {t})
    ensures OnTables(s, ts + {t}) == OnTables(s, ts) + OnTables(s, {t})
  {
    var g := TablesGone(s, ts);
    forall r | r in s.active ensures r in OnTables(g, {t}) <==> r in OnTables(s, {t}) {
    }
  }

  lemma CancelledTogether(s: State, p: set<nat>, q: set<nat>)
    ensures CancelledSome(CancelledSome(s, p), q) == CancelledSome(s, p + q)
  {
    var c := CancelledSome(s, p);
    var a, b := CancelledSome(c, q), CancelledSome(s, p + q);
    assert a.requests == b.requests;
    assert a.owners == b.owners;
  }

  lemma OneTableMore(s: State, ts: set<nat>, t: nat)
    requires Handles(s) && t !in ts && IsOpenTable(s, t)
    ensures TablesGone(TablesGone(s, ts), {t}) == TablesGone(s, ts + {t})
  {
    OnTablesLater(s, ts, t);
    CancelledTogether(s, OnTables(s, ts), OnTables(s, {t}));
    var a, b := TablesGone(TablesGone(s, ts), {t}), TablesGone(s, ts + {t});
    var p, q := OnTables(s, ts), OnTables(s, {t});
    assert a.tables == b.tables;
    assert a.closedTables == b.closedTables;
    hide Handles, OnTables;
    assert a.requests == CancelledSome(CancelledSome(s, p), q).requests;
    assert a.owners == CancelledSome(CancelledSome(s, p), q).owners;
  }

  lemma MarkTablesHandles(s: State, ts: set<nat>)
    requires Handles(s) && ts <= s.tables.Keys
    ensures Handles(MarkTables(s, ts)) && Fewer(s, MarkTables(s, ts))
  {
    var c := MarkTables(s, ts);
    forall r | r in c.active ensures HandleOk(c, r) {
      assert HandleOk(s, r);
    }
    forall d | d in c.datasets ensures ScanOk(c, d) {
      assert ScanOk(s, d);
    }
  }

  lemma TablesGoneHandles(s: State, ts: set<nat>)
    requires Handles(s) && ts <= s.tables.Keys
    ensures Handles(TablesGone(s, ts)) && Fewer(s, TablesGone(s, ts))
  {
    CancelledSomeHandles(s, OnTables(s, ts));
    MarkTablesHandles(CancelledSome(s, OnTables(s, ts)), ts);
  }

  /** The first stage of closing a dataset: it is marked, and its scan handle is cancelled. */
  function ScanGone(s: State, d: nat): State
    requires d in s.datasets
  {
    var op := s.datasets[d].scanOp;
    var marked := s.(datasets := s.datasets[d := Dataset(None, true)]);
    if op.None? then marked
    else
      CancelOp(marked.(requests := map r | r in s.requests ::
                         if r in s.active && s.requests[r].kind == OpenKind && s.requests[r].dataset == Some(d) && s.requests[r].op == op
                         then s.requests[r].(op := None) else s.requests[r]), op.value)
  }

  lemma ScanGoneHandle(s: State, d: nat, r: nat)
    requires Handles(s) && IsOpen(s, d) && r in s.active
    ensures r in ScanGone(s, d).requests && HandleOk(ScanGone(s, d), r)
  {
    assert HandleOk(s, r) && ScanOk(s, d);
  }

  lemma ScanGoneScan(s: State, d: nat, e: nat)
    requires Handles(s) && IsOpen(s, d) && e in s.datasets
    ensures e in ScanGone(s, d).datasets && ScanOk(ScanGone(s, d), e)
  {
    assert ScanOk(s, d) && ScanOk(s, e);
  }

  lemma ScanGoneIsFewer(s: State, d: nat)
    requires Handles(s) && IsOpen(s, d)
    ensures Fewer(s, ScanGone(s, d)) && Live(ScanGone(s, d)) < Live(s) && !IsOpen(ScanGone(s, d), d)
  {
    var g := ScanGone(s, d);
    hide Handles, HandleOk, ScanOk, Live;
    assert d in OpenDatasets(s) && d !in OpenDatasets(g);
    FewerIsLess(s, g);
  }

  lemma ScanGoneHandles(s: State, d: nat)
    requires Handles(s) && IsOpen(s, d)
    ensures var g := ScanGone(s, d);
            Handles(g) && Fewer(s, g) && Live(g) < Live(s) && g.repeated == s.repeated && !IsOpen(g, d)
  {
    var g := ScanGone(s, d);
    ScanGoneIsFewer(s, d);
    assert ScanOk(s, d);
    hide HandleOk, Fewer, Live;
    forall r | r in g.active ensures HandleOk(g, r) {
      ScanGoneHandle(s, d, r);
    }
    forall e | e in g.datasets ensures ScanOk(g, e) {
      ScanGoneScan(s, d, e);
    }
  }

  /** The last stage. */
  function Released(s: State, d: nat): State {
    s.(holders := s.holders - {d}, slotsInUse := if d in s.holders then s.slotsInUse - 1 else s.slotsInUse,
       closedSources := s.closedSources + {d}, repeated := s.repeated || d in s.closedSources)
  }

  function Stages(s: State, d: nat, ts: set<nat>): State
    requires d in s.datasets
  {
    var g := TablesGone(ScanGone(s, d), ts);
    Released(CancelledSome(g, InDataset(g, d)), d)
  }

  ghost predicate AllOpenTables(s: State, d: nat, ts: set<nat>) {
    forall t :: t in ts <==> IsOpenTable(s, t) && s.tables[t].dataset == d
  }

  /** What the stages after the first make of a request. */
  lemma StagedRequest(s: State, d: nat, ts: set<nat>, r: nat)
    requires d in s.datasets && r in s.requests && r in ScanGone(s, d).requests && ScanGone(s, d).active == s.active
    ensures r in Stages(s, d, ts).requests
    ensures var q := ScanGone(s, d).requests[r];
            Stages(s, d, ts).requests[r]
            == if r in s.active && (q.dataset == Some(d) || (q.kind != OpenKind && q.table.Some? && q.table.value in ts)) then Cancelled(q) else q
  {
    hide ScanGone;
  }

  lemma ScanGoneRequest(s: State, d: nat, r: nat)
    requires d in s.datasets && r in s.requests
    ensures ScanGone(s, d).active == s.active && r in ScanGone(s, d).requests
    ensures var q := s.requests[r];
            ScanGone(s, d).requests[r] == q || (r in s.active && q.dataset == Some(d) && ScanGone(s, d).requests[r] == q.(op := None))
  {
  }

  lemma StagesRequest(s: State, d: nat, ts: set<nat>, r: nat)
    requires Handles(s) && IsOpen(s, d) && AllOpenTables(s, d, ts) && r in s.requests
    ensures r in Stages(s, d, ts).requests && Stages(s, d, ts).requests[r] == CloseDataset(s, d).requests[r]
  {
    ScanGoneRequest(s, d, r);
    StagedRequest(s, d, ts, r);
    hide ScanGone, Stages;
    if r in s.active {
      assert HandleOk(s, r);
    }
  }

  /** What the stages after the first make of a handle. */
  lemma StagedOwner(s: State, d: nat, ts: set<nat>, op: nat)
    requires d in s.datasets && ScanGone(s, d).active == s.active <= ScanGone(s, d).requests.Keys && op in ScanGone(s, d).owners
    ensures op in Stages(s, d, ts).owners
    ensures var g, o := ScanGone(s, d), ScanGone(s, d).owners[op];
            Stages(s, d, ts).owners[op]
            == if o.OfRequest? && o.request in s.active && g.requests[o.request].op == Some(op)
                  && (g.requests[o.request].dataset == Some(d)
                      || (g.requests[o.request].kind != OpenKind && g.requests[o.request].table.Some? && g.requests[o.request].table.value in ts))
               then CancelledOp else o
  {
    hide ScanGone;
  }

  lemma ScanGoneOwner(s: State, d: nat, op: nat)
    requires Handles(s) && IsOpen(s, d) && op in s.owners
    ensures op in ScanGone(s, d).owners
    ensures ScanGone(s, d).owners[op] == if s.datasets[d].scanOp == Some(op) then CancelledOp else s.owners[op]
  {
    assert ScanOk(s, d);
  }

  lemma StagesOwner(s: State, d: nat, ts: set<nat>, op: nat)
    requires Handles(s) && IsOpen(s, d) && AllOpenTables(s, d, ts) && op in s.owners
    ensures op in Stages(s, d, ts).owners && Stages(s, d, ts).owners[op] == CloseDataset(s, d).owners[op]
  {
    assert ScanOk(s, d) && ScanGone(s, d).active == s.active <= ScanGone(s, d).requests.Keys;
    ScanGoneOwner(s, d, op);
    StagedOwner(s, d, ts, op);
    var o := s.owners[op];
    if o.OfRequest? && o.request in s.active {
      assert HandleOk(s, o.request);
      ScanGoneRequest(s, d, o.request);
    }
    hide ScanGone, Stages, Handles;
  }

  lemma StagedTables(s: State, d: nat, ts: set<nat>)
    requires d in s.datasets
    ensures Stages(s, d, ts).tables == MarkTables(s, ts).tables && Stages(s, d, ts).closedTables == s.closedTables + ts
  {
    assert ScanGone(s, d).tables == s.tables && ScanGone(s, d).closedTables == s.closedTables;
    hide ScanGone, OnTables, InDataset;
  }

  lemma StagesTables(s: State, d: nat, ts: set<nat>)
    requires Handles(s) && IsOpen(s, d) && AllOpenTables(s, d, ts)
    ensures Stages(s, d, ts).tables == CloseDataset(s, d).tables
    ensures Stages(s, d, ts).closedTables == CloseDataset(s, d).closedTables
  {
    StagedTables(s, d, ts);
    hide Stages, Handles;
    forall t | t in s.tables ensures MarkTables(s, ts).tables[t] == CloseDataset(s, d).tables[t] {
    }
  }

  lemma StagesRest(s: State, d: nat, ts: set<nat>)
    requires Handles(s) && IsOpen(s, d) && AllOpenTables(s, d, ts)
    ensures var a, b := Stages(s, d, ts), CloseDataset(s, d);
            a.(requests := b.requests, owners := b.owners, tables := b.tables, closedTables := b.closedTables) == b
  {
    assert ScanOk(s, d);
  }

  lemma StagesKeys(s: State, d: nat, ts: set<nat>)
    requires Handles(s) && IsOpen(s, d)
    ensures Stages(s, d, ts).requests.Keys == s.requests.Keys && Stages(s, d, ts).owners.Keys == s.owners.Keys
  {
    assert ScanOk(s, d);
  }

  lemma CloseDatasetKeys(s: State, d: nat)
    requires d in s.datasets
    ensures CloseDataset(s, d).requests.Keys == s.requests.Keys && CloseDataset(s, d).owners.Keys == s.owners.Keys
  {
  }

  /** The stages together are what closing a dataset has to do. */
  lemma StagesCloseDataset(s: State, d: nat, ts: set<nat>)
    requires Handles(s) && IsOpen(s, d) && AllOpenTables(s, d, ts)
    ensures Stages(s, d, ts) == CloseDataset(s, d)
  {
    hide Stages, CloseDataset, ScanGone, TablesGone, CancelledSome, Released, InDataset, OnTables, AllOpenTables, Handles;
    StagesRest(s, d, ts);
    StagesKeys(s, d, ts);
    StagesTables(s, d, ts);
    assert CloseDataset(s, d).requests.Keys == s.requests.Keys && CloseDataset(s, d).owners.Keys == s.owners.Keys by {
      CloseDatasetKeys(s, d);
    }
    forall r | r in s.requests ensures Stages(s, d, ts).requests[r] == CloseDataset(s, d).requests[r] {
      StagesRequest(s, d, ts, r);
    }
    forall op | op in s.owners ensures Stages(s, d, ts).owners[op] == CloseDataset(s, d).owners[op] {
      StagesOwner(s, d, ts, op);
    }
    assert Stages(s, d, ts).requests == CloseDataset(s, d).requests;
    assert Stages(s, d, ts).owners == CloseDataset(s, d).owners;
  }

  // ---------------------------------------------------------------- the handlers

  /** The open as `cancelActive` leaves it: a handle that the dataset's scan holds too is left to the dataset. */
  function OpenCancelled(s: State, r: nat): State
    requires r in s.requests
  {
    if s.requests[r].op.Some? && r in s.datasets && s.datasets[r].scanOp == s.requests[r].op
    then s.(requests := s.requests[r := Cancelled(s.requests[r])]) else CancelAlone(s, r)
  }

  ghost predicate OpenWithDataset(s: State, r: nat) {
    && Handles(s) && r in s.requests && r in s.active && !s.requests[r].cancelled && s.requests[r].kind == OpenKind
    && s.requests[r].dataset == Some(r) && IsOpen(s, r)
  }

  lemma OpenCancelledRequests(s: State, r: nat)
    requires OpenWithDataset(s, r)
    ensures var c := OpenCancelled(s, r); r in c.datasets && CloseDataset(c, r).requests == CloseDataset(s, r).requests
  {
    hide Handles;
    var c := OpenCancelled(s, r);
    assert c.requests.Keys == s.requests.Keys;
    forall p | p in s.requests ensures CloseDataset(c, r).requests[p] == CloseDataset(s, r).requests[p] {
    }
  }

  lemma OpenCancelledRest(s: State, r: nat)
    requires OpenWithDataset(s, r)
    ensures var c := OpenCancelled(s, r);
            && r in c.datasets && c.repeated == s.repeated
            && CloseDataset(c, r).(requests := CloseDataset(s, r).requests, owners := CloseDataset(s, r).owners) == CloseDataset(s, r)
  {
    assert HandleOk(s, r);
  }

  /** Cancelling an open first and closing its dataset afterwards comes to closing the dataset. */
  lemma CancelThenClose(s: State, r: nat)
    requires OpenWithDataset(s, r)
    ensures var c := OpenCancelled(s, r);
            Handles(c) && IsOpen(c, r) && Live(c) < Live(s) && CloseDataset(c, r) == CloseDataset(s, r)
  {
    hide CloseDataset;
    OpenCancelledRequests(s, r);
    OpenCancelledOwners(s, r);
    OpenCancelledRest(s, r);
    OpenCancelledHandles(s, r);
  }

  lemma OpenCancelledHandles(s: State, r: nat)
    requires OpenWithDataset(s, r)
    ensures var c := OpenCancelled(s, r); Handles(c) && IsOpen(c, r) && Live(c) < Live(s)
  {
    var c := OpenCancelled(s, r);
    assert HandleOk(s, r);
    CancelHandles(s, r, s.requests[r].op.Some? && s.datasets[r].scanOp == s.requests[r].op);
    assert r in LiveRequests(s) && r !in LiveRequests(c);
    FewerIsLess(s, c);
  }

  lemma CancelHandles(s: State, r: nat, shared: bool)
    requires Handles(s) && r in s.active && !s.requests[r].cancelled
    requires shared ==> s.requests[r].op.Some? && s.requests[r].kind == OpenKind && s.requests[r].dataset == Some(r)
    requires !shared && s.requests[r].op.Some? ==> s.owners[s.requests[r].op.value] == OfRequest(r)
    ensures var c := if shared then s.(requests := s.requests[r := Cancelled(s.requests[r])]) else CancelAlone(s, r);
            Handles(c) && Fewer(s, c) && c.repeated == s.repeated
  {
    var c := if shared then s.(requests := s.requests[r := Cancelled(s.requests[r])]) else CancelAlone(s, r);
    assert HandleOk(s, r);
    forall p | p in c.active ensures HandleOk(c, p) {
      assert HandleOk(s, p);
    }
    forall d | d in c.datasets ensures ScanOk(c, d) {
      assert ScanOk(s, d);
    }
  }

  lemma OpenCancelledOwners(s: State, r: nat)
    requires OpenWithDataset(s, r)
    ensures var c := OpenCancelled(s, r); r in c.datasets && CloseDataset(c, r).owners == CloseDataset(s, r).owners
  {
    var c := OpenCancelled(s, r);
    assert HandleOk(s, r) && ScanOk(s, r);
    assert c.owners.Keys == s.owners.Keys;
    forall op | op in s.owners ensures CloseDataset(c, r).owners[op] == CloseDataset(s, r).owners[op] {
      if s.owners[op].OfRequest? && s.owners[op].request in s.active {
        assert HandleOk(s, s.owners[op].request);
      }
    }
  }

  /** Where `closeTableState` stands once it has marked the table and cancelled some of its requests. */
  function TableClosing(s: State, t: nat, done: set<nat>): State
    requires t in s.tables
  {
    CancelledSome(s.(tables := s.tables[t := s.tables[t].(closed := true)]), done)
  }

  lemma TableClosingHandles(s: State, t: nat, done: set<nat>)
    requires Handles(s) && IsOpenTable(s, t) && done <= s.active
    ensures var c := TableClosing(s, t, done); Handles(c) && Fewer(s, c) && Live(c) < Live(s)
  {
    var m := s.(tables := s.tables[t := s.tables[t].(closed := true)]);
    forall r | r in m.active ensures HandleOk(m, r) {
      assert HandleOk(s, r);
    }
    forall d | d in m.datasets ensures ScanOk(m, d) {
      assert ScanOk(s, d);
    }
    assert t in OpenTables(s) && t !in OpenTables(m);
    FewerIsLess(s, m);
    CancelledSomeHandles(m, done);
    FewerIsLess(m, CancelledSome(m, done));
  }

  lemma TableClosingEnds(s: State, t: nat)
    requires Handles(s) && IsOpenTable(s, t)
    ensures var c := TableClosing(s, t, OnTables(s, {t}));
            c.(closedTables := c.closedTables + {t}, repeated := c.repeated || t in c.closedTables) == CloseTable(s, t)
  {
    var c := TableClosing(s, t, OnTables(s, {t}));
    assert forall r :: r in OnTables(s, {t}) <==> OnTable(s, t, r);
    assert c.requests == CloseTable(s, t).requests;
    assert c.owners == CloseTable(s, t).owners;
  }

  /** One more request of the table is cancelled. */
  lemma TableClosingStep(s: State, t: nat, done: set<nat>, r: nat)
    requires Handles(s) && IsOpenTable(s, t) && done <= s.active && r in OnTables(s, {t}) && r !in done
    ensures var c := TableClosing(s, t, done);
            r in c.requests && r in c.active && CancelRequest(c, r) == TableClosing(s, t, done + {r})
  {
    hide Live, Fewer;
    TableClosingHandles(s, t, {});
    var m := s.(tables := s.tables[t := s.tables[t].(closed := true)]);
    assert TableClosing(s, t, {}) == m by {
      assert TableClosing(s, t, {}).requests == m.requests && TableClosing(s, t, {}).owners == m.owners;
    }
    assert HandleOk(m, r);
    CancelOneMore(m, done, r);
  }

  lemma TableClosingStart(s: State, t: nat)
    requires t in s.tables
    ensures TableClosing(s, t, {}) == s.(tables := s.tables[t := s.tables[t].(closed := true)])
  {
    var m := s.(tables := s.tables[t := s.tables[t].(closed := true)]);
    assert TableClosing(s, t, {}).requests == m.requests && TableClosing(s, t, {}).owners == m.owners;
  }

  lemma CancelledNone(s: State)
    ensures CancelledSome(s, {}) == s
  {
    assert CancelledSome(s, {}).requests == s.requests && CancelledSome(s, {}).owners == s.owners;
  }

  /** One more request of a closed dataset is cancelled. */
  lemma CancelStep(g: State, d: nat, done: set<nat>, r: nat)
    requires Handles(g) && !IsOpen(g, d) && done <= InDataset(g, d) && r in InDataset(g, d) && r !in done
    ensures var c := CancelledSome(g, done);
            && Handles(c) && Live(c) <= Live(g) && r in c.active && r in c.requests
            && CancelRequest(c, r) == CancelledSome(g, done + {r})
  {
    CancelledSomeHandles(g, done);
    FewerIsLess(g, CancelledSome(g, done));
    hide Live, Fewer;
    assert HandleOk(g, r);
    CancelOneMore(g, done, r);
  }

  lemma NoTablesGone(s: State)
    ensures TablesGone(s, {}) == s
  {
    var c := TablesGone(s, {});
    assert c.requests == s.requests && c.owners == s.owners && c.tables == s.tables && c.closedTables == s.closedTables;
  }

  /** One more table is closed. */
  lemma TableStep(g: State, done: set<nat>, t: nat)
    requires Handles(g) && done <= g.tables.Keys && t !in done && IsOpenTable(g, t)
    ensures var c := TablesGone(g, done);
            && Handles(c) && Live(c) <= Live(g) && IsOpenTable(c, t)
            && CloseTable(c, t) == TablesGone(g, done + {t})
  {
    TablesGoneHandles(g, done);
    FewerIsLess(g, TablesGone(g, done));
    assert IsOpenTable(TablesGone(g, done), t);
    hide Live, Fewer, TablesGone, CloseTable;
    CloseTableIsStage(TablesGone(g, done), t);
    OneTableMore(g, done, t);
  }

  lemma TablesGoneEnd(g: State, ts: set<nat>, d: nat)
    requires Handles(g) && ts <= g.tables.Keys
    ensures var c := TablesGone(g, ts); Handles(c) && Live(c) <= Live(g) && IsOpen(c, d) == IsOpen(g, d)
  {
    TablesGoneHandles(g, ts);
    FewerIsLess(g, TablesGone(g, ts));
  }

  lemma ScanGoneTables(s: State, d: nat)
    requires d in s.datasets
    ensures ScanGone(s, d).tables == s.tables
  {
  }

  lemma OnTablesActive(s: State, ts: set<nat>)
    ensures OnTables(s, ts) <= s.active
  {
  }

  lemma HandleOf(s: State, r: nat)
    requires Handles(s) && r in s.active
    ensures r in s.requests && HandleOk(s, r)
  {
  }

  lemma CancelledKind(s: State, r: nat)
    requires r in s.requests
    ensures OpenCancelled(s, r).datasets == s.datasets == CancelAlone(s, r).datasets
    ensures var c := OpenCancelled(s, r); r in c.requests && c.requests[r] == Cancelled(s.requests[r])
    ensures var c := CancelAlone(s, r); r in c.requests && c.requests[r] == Cancelled(s.requests[r])
  {
  }

  lemma FailOpenHandles(s: State, r: nat)
    requires Inv(s) && IsActive(s, r) && s.requests[r].kind == OpenKind
    ensures var op := s.requests[r].op;
            op.Some? ==> op.value in s.owners && (s.owners[op.value] == OfRequest(r) <==> !(r in s.datasets && s.datasets[r].scanOp == op))
    ensures var h := HandleDropped(s, r);
            && r in h.requests && Handles(h.(active := h.active - {r})) && (h.requests[r].slot ==> r in h.holders)
  {
    RequestOf(s, r);
    IsPublished(s, r);
    HandleDroppedKeeps(s, r);
    var h := HandleDropped(s, r);
    hide HandleDropped;
    assert h.requests[r].slot ==> r in h.holders by { InvSlots(h); }
    assert Handles(h) by { InvHandles(h); }
    hide Inv;
    forall p | p in h.active - {r} ensures HandleOk(h.(active := h.active - {r}), p) {
      assert HandleOk(h, p);
    }
    forall d | d in h.datasets ensures ScanOk(h.(active := h.active - {r}), d) {
      assert ScanOk(h, d);
    }
  }

  lemma NewRequest(s: State, e: Event)
    requires Enabled(s, e) && e.StartOpen?
    ensures e.request !in s.requests
  {
  }

  lemma MessagesAlwaysArrive(s: State, n: nat)
    ensures Enabled(s, CancelMessage(n)) && Enabled(s, CloseSourceMessage(n))
  {
  }

  /** Cancelling settles the request and leaves no fewer others cancelled. */
  lemma CancelledNow(s: State, r: nat)
    requires Inv(s) && r in s.active
    ensures var c := Next(s, CancelMessage(r));
            && Inv(c) && c.active == s.active
            && (forall p :: p in s.active && p in s.requests && s.requests[p].cancelled ==> p in c.requests && c.requests[p].cancelled)
            && r in c.requests && c.requests[r].cancelled
  {
    assert IsActive(s, r) by { RequestOf(s, r); }
    CancelRequestKeeps(s, r);
    hide Inv;
    CancelKeepsCancelled(s, r);
  }

  lemma CancelKeepsCancelled(s: State, r: nat)
    requires r in s.requests
    ensures var c := CancelRequest(s, r);
            c.active == s.active && forall p :: p in s.requests && s.requests[p].cancelled ==> p in c.requests && c.requests[p].cancelled
  {
  }

  lemma ClosedNow(s: State, d: nat)
    requires Inv(s)
    ensures var c := Next(s, CloseSourceMessage(d));
            && Inv(c) && c.active == s.active && c.datasets.Keys == s.datasets.Keys
            && (forall e :: e in s.datasets && s.datasets[e].closed ==> c.datasets[e].closed)
            && (d in s.datasets ==> c.datasets[d].closed)
            && (forall p :: p in s.requests && s.requests[p].cancelled ==> p in c.requests && c.requests[p].cancelled)
  {
    hide Inv, CloseDataset, CancelRequest, CloseTable, IsActive;
    StepKeeps(s, CloseSourceMessage(d));
    if IsOpen(s, d) {
      CloseKeepsClosed(s, d);
    }
  }

  lemma CloseKeepsClosed(s: State, d: nat)
    requires d in s.datasets
    ensures var c := CloseDataset(s, d);
            && c.active == s.active && c.datasets.Keys == s.datasets.Keys && c.datasets[d].closed
            && (forall e :: e in s.datasets && s.datasets[e].closed ==> c.datasets[e].closed)
            && (forall p :: p in s.requests && s.requests[p].cancelled ==> p in c.requests && c.requests[p].cancelled)
  {
  }

  lemma NoTablesWithoutDatasets(s: State)
    requires Inv(s) && forall d :: d in s.datasets ==> s.datasets[d].closed
    ensures forall t :: t in s.tables ==> s.tables[t].closed
  {
    forall t | t in s.tables ensures s.tables[t].closed {
      assert TableOk(s, t);
    }
  }

  lemma {:induction false} RunOneMore(s: State, es: seq<Event>, e: Event)
    requires Follows(s, es) && Enabled(Run(s, es), e)
    ensures Follows(s, es + [e]) && Run(s, es + [e]) == Next(Run(s, es), e)
    decreases |es|
  {
    hide Enabled, Next;
    if es == [] {
      assert ([] + [e])[1..] == [];
    } else {
      RunOneMore(Next(s, es[0]), es[1..], e);
      assert (es + [e])[1..] == es[1..] + [e];
    }
  }
}
