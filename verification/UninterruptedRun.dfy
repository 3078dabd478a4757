/**
 Crash convergence, stated against real runs: whatever target an import leaves that was crashed and
 started again, some single run that is never interrupted leaves exactly that target. And what a
 checkpoint found at the start must be for the promise to hold.
 */
module UninterruptedRun {
  import opened Basics
  import opened XmlId
  import opened LoadProtocol
  import opened LoadFallback
  import opened LoadWorker
  import opened FallbackFacts
  import opened WorkerFacts
  import opened TargetStore
  import opened FallbackRefinement
  import opened HistoryFacts
  import opened StoreFacts
  import opened RowIsolation
  import opened SharedStore
  import opened PassEffect
  import opened WireValues
  import W = Writes
  import opened PassTwo
  import opened CrashRecovery

  // ----- Runs put together -----

  lemma NoEvents(job: Job, w: World)
    requires job.Valid()
    ensures Run(job, w, [], w)
  {
  }

  lemma {:induction false} RunAppend(job: Job, w: World, a: seq<Event>, v: World, b: seq<Event>, u: World)
    requires job.Valid() && Run(job, w, a, v) && Run(job, v, b, u)
    ensures Run(job, w, a + b, u)
    decreases |a|
  {
    hide Enabled, Next;
    if a == [] {
      assert a + b == b;
    } else {
      assert (a + b)[1..] == a[1..] + b;
      RunAppend(job, Next(job, w, a[0]), a[1..], v, b, u);
    }
  }

  lemma RunStep(job: Job, w: World, a: seq<Event>, v: World, e: Event)
    requires job.Valid() && Run(job, w, a, v) && Enabled(job, v, e)
    ensures Run(job, w, a + [e], Next(job, v, e))
  {
    hide Enabled, Next;
    assert [e][1..] == [];
    RunAppend(job, w, a, v, [e], Next(job, v, e));
  }

  /** One start, no crash. */
  ghost predicate Uninterrupted(events: seq<Event>) {
    && events != [] && events[0].Begin?
    && forall i :: 0 < i < |events| ==> !events[i].Crash? && !events[i].Begin?
  }

  // ----- From a saved id map to the end: one writer that is always answered -----

  function OneEach(rows: seq<W.Cell<Vals>>): (ops: seq<W.Op<Vals>>)
    ensures |ops| == |rows|
  {
    seq(|rows|, i requires 0 <= i < |rows| => W.Op([rows[i].id], rows[i].vals))
  }

  lemma {:induction false} OneEachCells(rows: seq<W.Cell<Vals>>)
    ensures W.Cells(OneEach(rows)) == rows
  {
    if rows != [] {
      OneEachCells(rows[1..]);
      assert OneEach(rows)[1..] == OneEach(rows[1..]);
      assert W.CellsOf(OneEach(rows)[0]) == [rows[0]];
    }
  }

  lemma OneEachPerforms(rows: seq<W.Cell<Vals>>)
    ensures W.Performs([OneEach(rows)], rows)
  {
    OneEachCells(rows);
    assert [OneEach(rows)][1..] == [];
  }

  lemma {:induction false} FirstRowFirst(store: W.Store<Value>, row: W.Cell<Vals>, rest: seq<W.Cell<Vals>>)
    ensures W.ApplyRows(store, [row] + rest) == W.ApplyRows(store[row.id := W.Get(store, row.id) + row.vals], rest)
  {
    var all := [row] + rest;
    if rest == [] {
      assert all[..0] == [];
    } else {
      assert all[..|all| - 1] == [row] + rest[..|rest| - 1];
      FirstRowFirst(store, row, rest[..|rest| - 1]);
    }
  }

  /** A lone writer with `rows` still to write, one RPC each, that has failed at nothing. */
  ghost predicate LoneWriter(w: World, rows: seq<W.Cell<Vals>>) {
    && w.phase.Writing? && |w.phase.pool.workers| == 1 && w.phase.pool.workers[0].failed == []
    && w.phase.pool.workers[0].queue == OneEach(rows) && w.phase.pool.store == w.target.links
  }

  const ANSWERED := Write(W.Event(0, W.Done))

  lemma WriteOne(job: Job, w: World, rows: seq<W.Cell<Vals>>)
    requires job.Valid() && LoneWriter(w, rows) && rows != []
    ensures Enabled(job, w, ANSWERED)
    ensures var v := Next(job, w, ANSWERED);
      && LoneWriter(v, rows[1..]) && v.target.db == w.target.db && v.checkpoint == w.checkpoint
      && v.target.links == w.target.links[rows[0].id := W.Get(w.target.links, rows[0].id) + rows[0].vals]
  {
    hide AllPathsAgree, Importable, Isolating;
    assert OneEach(rows)[1..] == OneEach(rows[1..]);
    var store, op := w.target.links, OneEach(rows)[0];
    assert op.ids[..0] == [];
    assert W.WriteIds(store, op.ids[..0], op.vals) == store;
    assert op.ids == [rows[0].id];
  }

  lemma {:induction false} WritesRun(job: Job, w: World, rows: seq<W.Cell<Vals>>) returns (events: seq<Event>, v: World)
    requires job.Valid() && LoneWriter(w, rows)
    ensures Run(job, w, events, v) && LoneWriter(v, [])
    ensures v.target == Target(w.target.db, W.ApplyRows(w.target.links, rows))
    ensures forall i :: 0 <= i < |events| ==> events[i] == ANSWERED
    decreases |rows|
  {
    hide AllPathsAgree, Importable, Isolating, Enabled, Next;
    if rows == [] {
      events, v := [], w;
    } else {
      WriteOne(job, w, rows);
      var rest;
      rest, v := WritesRun(job, Next(job, w, ANSWERED), rows[1..]);
      events := [ANSWERED] + rest;
      assert events[1..] == rest;
      FirstRowFirst(w.target.links, rows[0], rows[1..]);
      assert [rows[0]] + rows[1..] == rows;
    }
  }

  /** A run that has its id map can complete, and writes the relations of that map. */
  lemma Completion(job: Job, start: World, before: seq<Event>, w: World) returns (events: seq<Event>, u: World)
    requires job.Valid() && Run(job, start, before, w) && w.phase.Pass1Done?
    ensures Run(job, start, events, u) && u.phase.Completed? && u.target.db == w.target.db
    ensures u.target.links == W.ApplyRows(w.target.links, Relations(job, w.phase.idMap, Ids(w.target.db)))
    ensures Uninterrupted(before) ==> Uninterrupted(events)
  {
    hide Run, AllPathsAgree, Importable, Isolating, Relations, W.Performs, W.ApplyRows;
    var rows := Relations(job, w.phase.idMap, Ids(w.target.db));
    RunStep(job, start, before, w, Save(true));
    var a := Next(job, w, Save(true));
    OneEachPerforms(rows);
    RunStep(job, start, before + [Save(true)], a, Plan([OneEach(rows)]));
    var c := Next(job, a, Plan([OneEach(rows)]));
    var writes, v := WritesRun(job, c, rows);
    RunAppend(job, start, before + [Save(true)] + [Plan([OneEach(rows)])], c, writes, v);
    Settled(v);
    RunStep(job, start, before + [Save(true)] + [Plan([OneEach(rows)])] + writes, v, End(true));
    events := before + [Save(true)] + [Plan([OneEach(rows)])] + writes + [End(true)];
    u := Next(job, v, End(true));
  }

  lemma Settled(v: World)
    requires LoneWriter(v, [])
    ensures W.Finished(v.phase.pool) && W.NothingFailed(v.phase.pool)
  {
  }

  // ----- A crew that works in turn, one row each -----

  lemma ShiftedIsRowwise(b: Backend, server: Server, h: History)
    requires Rowwise(b, server)
    ensures Rowwise(b, Shifted(server, h))
  {
    hide RowwiseReply;
    forall h': History, request: Request ensures RowwiseReply(b, request, Shifted(server, h)(h', request)) {
      assert RowwiseReply(b, request, server(h + h', request));
    }
  }

  /** The server of a run that begins with the store `db`. */
  function Served(job: Job, db: Db): Server
    requires db.Valid()
  {
    ServerOf(job.On(db))
  }

  lemma ServedIsRowwise(job: Job, db: Db)
    requires job.Valid() && db.Valid()
    ensures Rowwise(job.backend, Served(job, db)) && AnswersProgress(Served(job, db)) && job.cfg.Valid()
    ensures job.On(db).Valid() && Isolating(job.On(db))
  {
    hide AllPathsAgree, Importable, Isolating, ServerOf, AnswersProgress;
    JobFacts(job);
    OnIsValid(job, db, Crew([], []));
    StoreIsRowwise(job.On(db));
    RowwiseIsHonest(job.On(db), Served(job, db));
    SameRowwise(job, db, Served(job, db));
  }

  lemma SameRowwise(job: Job, db: Db, server: Server)
    requires Rowwise(job.On(db), server)
    ensures Rowwise(job.backend, server)
  {
    hide Confirms, Isolates;
    forall h: History, request: Request ensures RowwiseReply(job.backend, request, server(h, request)) {
      assert RowwiseReply(job.On(db), request, server(h, request));
      assert AllGood(job.On(db), request) == AllGood(job.backend, request);
    }
  }

  lemma InTurnFits(job: Job, db: Db, batches: seq<seq<Row>>)
    requires job.Valid() && db.Valid() && multiset(Flatten(batches)) == multiset(job.rows)
    ensures job.cfg.Valid() && AnswersProgress(Served(job, db))
    ensures Fit(job, CrewInTurn(Served(job, db), job.cfg, batches))
  {
    hide AllPathsAgree, Importable, Isolating, ServerOf, Rowwise, AnswersProgress, InTurn;
    ServedIsRowwise(job, db);
    var server, crew := Served(job, db), CrewInTurn(Served(job, db), job.cfg, batches);
    CrewOf(server, job.cfg, batches);
    CrewInTurnIsValid(server, job.cfg, batches);
    forall i | 0 <= i < |crew.views| ensures Rowwise(job.backend, crew.views[i]) {
      ShiftedIsRowwise(job.backend, server, Whole(InTurn(server, job.cfg, batches, i)));
    }
  }

  predicate Below(order: seq<nat>, n: nat) {
    forall i :: 0 <= i < |order| ==> order[i] < n
  }

  /** The rows in the order of `order`, a batch each. */
  function OnePerBatch(rows: seq<Row>, order: seq<nat>): (batches: seq<seq<Row>>)
    requires Below(order, |rows|)
    ensures |batches| == |order| && forall i :: 0 <= i < |order| ==> batches[i] == [rows[order[i]]]
  {
    seq(|order|, i requires 0 <= i < |order| => [rows[order[i]]])
  }

  function Arranged(rows: seq<Row>, order: seq<nat>): (r: seq<Row>)
    requires Below(order, |rows|)
    ensures |r| == |order|
  {
    seq(|order|, i requires 0 <= i < |order| => rows[order[i]])
  }

  lemma {:induction false} OnePerBatchFlatten(rows: seq<Row>, order: seq<nat>)
    requires Below(order, |rows|)
    ensures Flatten(OnePerBatch(rows, order)) == Arranged(rows, order)
  {
    if order != [] {
      OnePerBatchFlatten(rows, order[1..]);
      assert OnePerBatch(rows, order)[1..] == OnePerBatch(rows, order[1..]);
    }
  }

  predicate Lists(order: seq<nat>, k: nat) {
    exists i :: 0 <= i < |order| && order[i] == k
  }

  /** Each number below n once. */
  ghost predicate Ordering(order: seq<nat>, n: nat) {
    NoDuplicates(order) && Below(order, n) && forall k: nat :: k < n ==> Lists(order, k)
  }

  lemma ArrangedAround(rows: seq<Row>, before: seq<nat>, n: nat, after: seq<nat>)
    requires n < |rows| && Below(before, n) && Below(after, n)
    ensures Below(before + [n] + after, |rows|) && Below(before + after, n)
    ensures multiset(Arranged(rows, before + [n] + after))
            == multiset{rows[n]} + multiset(Arranged(rows[..n], before + after))
  {
    var order, fewer := before + [n] + after, before + after;
    assert Arranged(rows, order) == Arranged(rows, before) + [rows[n]] + Arranged(rows, after);
    assert Arranged(rows[..n], fewer) == Arranged(rows, before) + Arranged(rows, after);
    Extracted(Arranged(rows, before), rows[n], Arranged(rows, after));
  }

  lemma {:induction false} ArrangedBag(rows: seq<Row>, order: seq<nat>)
    requires Ordering(order, |rows|)
    ensures multiset(Arranged(rows, order)) == multiset(rows)
  {
    hide Arranged, NoDuplicates;
    if rows == [] {
      if order != [] {
        FirstBelow(order, 0);
        assert false;
      }
      assert |Arranged(rows, order)| == 0;
    } else {
      var n := |rows| - 1;
      assert Lists(order, n);
      var p :| 0 <= p < |order| && order[p] == n;
      var before, after := order[..p], order[p + 1..];
      FewerNumbers(order, n + 1, p);
      assert order == before + [n] + after;
      ArrangedAround(rows, before, n, after);
      ArrangedBag(rows[..n], before + after);
      LastRow(rows);
    }
  }

  lemma FirstBelow(order: seq<nat>, n: nat)
    requires order != [] && Below(order, n)
    ensures n > 0
  {
    assert order[0] < n;
  }

  lemma LastRow(rows: seq<Row>)
    requires rows != []
    ensures multiset(rows) == multiset{rows[|rows| - 1]} + multiset(rows[..|rows| - 1])
  {
    assert rows == rows[..|rows| - 1] + [rows[|rows| - 1]];
  }

  lemma FewerNumbers(order: seq<nat>, n: nat, p: nat)
    requires n > 0 && Ordering(order, n) && p < |order| && order[p] == n - 1
    ensures Ordering(order[..p] + order[p + 1..], n - 1)
    ensures Below(order[..p], n - 1) && Below(order[p + 1..], n - 1)
  {
    var fewer := order[..p] + order[p + 1..];
    forall i | 0 <= i < |order| && i != p ensures order[i] < n - 1 {
      assert order[i] != order[p];
    }
    forall k: nat | k < n - 1 ensures Lists(fewer, k) {
      assert Lists(order, k);
      var i :| 0 <= i < |order| && order[i] == k;
      assert fewer[if i < p then i else i - 1] == k;
    }
  }

  // ----- What one row's worker does to the store -----

  lemma NothingFromBadRow(b: Backend, cfg: Config, row: Row, db: Db, request: Request)
    requires AllPathsAgree(cfg) && cfg.Valid() && !Malformed(cfg, row) && !Accepted(b, cfg, row) && db.Valid()
    requires FromBatch(cfg, [row], request)
    ensures Apply(b, db, request) == db
  {
    hide AllPathsAgree, Carries, SingleHeader, SingleLine, Malformed;
    if request.lines != [] {
      assert CarriesSome(cfg, [row], request, 0);
      CarriedLine(cfg, request, 0, row);
      assert !b.good(request.header, request.lines[0]);
    }
  }

  lemma {:induction false} BadRowChangesNothing(b: Backend, cfg: Config, row: Row, h0: History, h: History)
    requires AllPathsAgree(cfg) && cfg.Valid() && !Malformed(cfg, row) && !Accepted(b, cfg, row) && b.start.Valid()
    requires AllFrom(cfg, [row], h)
    ensures DbAfter(b, h0 + h) == DbAfter(b, h0)
  {
    hide AllPathsAgree, FromBatch, Apply, Malformed, Accepted;
    if h == [] {
      assert h0 + h == h0;
    } else {
      var init, last := h[..|h| - 1], h[|h| - 1];
      BadRowChangesNothing(b, cfg, row, h0, init);
      assert h0 + h == h0 + init + [last];
      OneMore(b, h0 + init, last);
      NothingFromBadRow(b, cfg, row, DbAfter(b, h0 + init), last.request);
    }
  }

  /** A good row is loaded by its worker's first call, and that is the only one. */
  lemma GoodRowLoads(b: Backend, view: Server, cfg: Config, row: Row)
    requires Rowwise(b, view) && AnswersProgress(view) && AllPathsAgree(cfg) && cfg.Valid() && !Malformed(cfg, row)
    requires Accepted(b, cfg, row)
    ensures var hist := Execute(view, cfg, [row], false, []).out.hist;
      |hist| == 1 && hist[0].request == Request(SingleHeader(cfg), [SingleLine(cfg, row)])
  {
    hide AllPathsAgree, WorkerLine, WorkerHeader, SingleLine, SingleHeader, TooShort, AnswersProgress, Credits, Acks,
         Missing;
    WorkerLineAgrees(cfg, row);
    var request := WorkerRequest(cfg, [row]);
    assert request.lines[0] == WorkerLine(cfg, row);
    assert request.lines == [SingleLine(cfg, row)];
    assert AllGood(b, request);
    assert RowwiseReply(b, request, view([], request));
    NoRowIsShort(cfg, [row], view([], request).ids);
    SettledAtOnce(view, cfg, [row]);
  }

  lemma RowEffect(b: Backend, cfg: Config, row: Row, h0: History)
    requires Isolating(b) && AllPathsAgree(cfg) && cfg.Valid() && !Malformed(cfg, row)
    requires AnswersProgress(Shifted(ServerOf(b), h0))
    ensures var hist := Execute(Shifted(ServerOf(b), h0), cfg, [row], false, []).out.hist;
      DbAfter(b, h0 + hist) == LoadRow(b, cfg, DbAfter(b, h0), row)
  {
    hide AllPathsAgree, SingleLine, SingleHeader, AnswersProgress, Execute, Upsert, FromBatch, Malformed, Isolates,
         ServerOf, Rowwise, DbAfter;
    var view := Shifted(ServerOf(b), h0);
    var hist := Execute(view, cfg, [row], false, []).out.hist;
    if Accepted(b, cfg, row) {
      StoreIsRowwise(b);
      ShiftedIsRowwise(b, ServerOf(b), h0);
      GoodRowLoads(b, view, cfg, row);
      assert hist == [hist[0]];
      OneMore(b, h0, hist[0]);
      UpsertOne(DbAfter(b, h0), SingleHeader(cfg), [SingleLine(cfg, row)]);
    } else {
      BatchGenuine(view, cfg, [row], false, []);
      BadRowChangesNothing(b, cfg, row, h0, hist);
    }
  }

  /** The first n workers in turn, one row each, load those rows. */
  lemma {:induction false} InTurnEffect(job: Job, db: Db, order: seq<nat>, n: nat)
    requires job.Valid() && db.Valid() && Below(order, |job.rows|) && n <= |order|
    requires job.cfg.Valid() && AnswersProgress(Served(job, db)) && RowNumbers(job.rows, order[..n])
    ensures DbAfter(job.On(db), Whole(InTurn(Served(job, db), job.cfg, OnePerBatch(job.rows, order), n)))
            == Loads(job, db, order[..n])
  {
    hide AllPathsAgree, Importable, Isolating, ServerOf, Rowwise, AnswersProgress, InTurn, WorkerOutcome, Execute,
         Whole, Labels, CrewInTurn, Loads, DbAfter, LoadRow;
    var server, batches, b := Served(job, db), OnePerBatch(job.rows, order), job.On(db);
    ServedIsRowwise(job, db);
    CrewInTurnIsValid(server, job.cfg, batches);
    InTurnStep(server, job.cfg, batches, n);
    if n == 0 {
      NoLoads(job, db);
      assert order[..0] == [];
      NoCalls(b);
    } else {
      var k := order[n - 1];
      InTurnEffect(job, db, order, n - 1);
      var before, h := InTurn(server, job.cfg, batches, n - 1),
          WorkerOutcome(job.cfg, CrewInTurn(server, job.cfg, batches), n - 1).hist;
      LoadsExtend(job, db, order[..n - 1], k);
      assert order[..n - 1] + [k] == order[..n];
      WholeLabels(before, h, n - 1);
      RowEffect(b, job.cfg, job.rows[k], Whole(before));
      SameLoad(job, db, DbAfter(b, Whole(before)), k);
    }
  }

  lemma NoCalls(b: Backend)
    requires b.start.Valid()
    ensures DbAfter(b, Whole([])) == b.start
  {
  }

  lemma SameLoad(job: Job, base: Db, db: Db, k: nat)
    requires job.Valid() && job.cfg.Valid() && k < |job.rows| && !Malformed(job.cfg, job.rows[k]) && db.Valid()
    ensures LoadRow(job.On(base), job.cfg, db, job.rows[k]) == LoadRow(job.backend, job.cfg, db, job.rows[k])
  {
    hide AllPathsAgree, Importable, Isolating;
    assert Accepted(job.On(base), job.cfg, job.rows[k]) == Accepted(job.backend, job.cfg, job.rows[k]);
  }

  // ----- The events of a pass -----

  function CallEvents(trace: Trace): (events: seq<Event>)
    ensures |events| == |trace|
  {
    seq(|trace|, n requires 0 <= n < |trace| => Exchanged(trace[n]))
  }

  lemma {:induction false} OwnPrefix(trace: Trace, m: nat, i: nat)
    requires m <= |trace|
    ensures Own(trace[..m], i) <= Own(trace, i)
  {
    assert trace == trace[..m] + trace[m..];
    OwnAppend(trace[..m], trace[m..], i);
  }

  lemma ObeysSoFar(cfg: Config, crew: Crew, trace: Trace, m: nat)
    requires cfg.Valid() && crew.Valid() && Ended(cfg, crew, trace) && m <= |trace|
    ensures Obeys(cfg, crew, trace[..m])
  {
    hide WorkerOutcome, Own, AnswersProgress;
    forall i | 0 <= i < |crew.batches| ensures Own(trace[..m], i) <= WorkerOutcome(cfg, crew, i).hist {
      OwnPrefix(trace, m, i);
    }
  }

  /** Pass 1 after the first m calls of a trace. */
  ghost function Midway(job: Job, w: World, crew: Crew, trace: Trace): World
    requires w.target.db.Valid()
  {
    World(Target(DbAfter(job.On(w.target.db), Whole(trace)), w.target.links), w.checkpoint,
        Loading(crew, trace, w.target.db))
  }

  lemma {:induction false} CallsRun(job: Job, w: World, crew: Crew, trace: Trace, m: nat)
    requires job.Valid() && job.cfg.Valid() && w.target.db.Valid() && Fit(job, crew) && crew.Valid() && m <= |trace|
    requires ServedBy(Served(job, w.target.db), trace) && Ended(job.cfg, crew, trace)
    ensures Run(job, Midway(job, w, crew, []), CallEvents(trace[..m]), Midway(job, w, crew, trace[..m]))
  {
    hide AllPathsAgree, Importable, Isolating, Fit, Ended, Run, ServerOf, DbAfter, Apply, Obeys, Whole;
    var start := Midway(job, w, crew, []);
    if m == 0 {
      assert trace[..0] == [];
      NoEvents(job, start);
      assert CallEvents([]) == [];
    } else {
      var before, call := trace[..m - 1], trace[m - 1];
      CallsRun(job, w, crew, trace, m - 1);
      ObeysSoFar(job.cfg, crew, trace, m);
      assert trace[..m] == before + [call];
      CallIsNext(job, w, crew, trace, m - 1);
      RunStep(job, start, CallEvents(before), Midway(job, w, crew, before), Exchanged(call));
      assert CallEvents(trace[..m]) == CallEvents(before) + [Exchanged(call)];
    }
  }

  lemma CallIsNext(job: Job, w: World, crew: Crew, trace: Trace, m: nat)
    requires job.Valid() && job.cfg.Valid() && w.target.db.Valid() && crew.Valid() && m < |trace|
    requires ServedBy(Served(job, w.target.db), trace) && Obeys(job.cfg, crew, trace[..m] + [trace[m]])
    ensures Enabled(job, Midway(job, w, crew, trace[..m]), Exchanged(trace[m]))
    ensures Next(job, Midway(job, w, crew, trace[..m]), Exchanged(trace[m]))
            == Midway(job, w, crew, trace[..m] + [trace[m]])
  {
    hide AllPathsAgree, Importable, Isolating, ServerOf, DbAfter, Apply, Obeys, Whole;
    var b, before, call := job.On(w.target.db), trace[..m], trace[m];
    WholeSoFar(trace, m);
    OneMore(b, Whole(before), call.exchange);
    OwnExtend(before, call, 0);
    SameApply(job, w.target.db, DbAfter(b, Whole(before)), call.exchange.request);
  }

  lemma WholeSoFar(trace: Trace, m: nat)
    requires m <= |trace|
    ensures Whole(trace)[..m] == Whole(trace[..m])
  {
  }

  /** The id map of the first n workers, merged in order. */
  lemma {:induction false} MergedMap(cfg: Config, crew: Crew, n: nat) returns (idMap: map<string, int>)
    requires cfg.Valid() && crew.Valid() && n <= |crew.batches|
    ensures forall key :: key in idMap ==> exists i: nat :: Contributes(cfg, crew, i, key, idMap[key])
    ensures forall i, key :: 0 <= i < n && key in WorkerOutcome(cfg, crew, i).idMap ==> key in idMap
  {
    hide WorkerOutcome, AnswersProgress;
    if n == 0 {
      idMap := map[];
    } else {
      var before := MergedMap(cfg, crew, n - 1);
      var last := WorkerOutcome(cfg, crew, n - 1).idMap;
      idMap := before + last;
      forall key | key in idMap ensures exists i: nat :: Contributes(cfg, crew, i, key, idMap[key]) {
        if key in last {
          assert Contributes(cfg, crew, n - 1, key, idMap[key]);
        } else {
          assert idMap[key] == before[key];
        }
      }
    }
  }

  /** A run without interruption whose Pass 1 loads the rows in a given order. */
  lemma UninterruptedIn(job: Job, s: Target, order: seq<nat>) returns (events: seq<Event>, w: World)
    requires job.Valid() && s.Valid() && Ordering(order, |job.rows|) && RowNumbers(job.rows, order)
    ensures Uninterrupted(events) && Run(job, Before(s, None), events, w) && w.phase.Completed?
    ensures w.target.db == Loads(job, s.db, order)
  {
    hide AllPathsAgree, Importable, Isolating, Fit, Ended, Run, ServerOf, DbAfter, Whole, Rowwise, AnswersProgress,
         InTurn, CrewInTurn, ServedBy, Merges, Loads, NoDuplicates;
    var server, batches := Served(job, s.db), OnePerBatch(job.rows, order);
    OnePerBatchFlatten(job.rows, order);
    ArrangedBag(job.rows, order);
    InTurnFits(job, s.db, batches);
    InTurnEnds(server, job.cfg, batches);
    var crew, trace := CrewInTurn(server, job.cfg, batches), InTurn(server, job.cfg, batches, |batches|);
    var start, begun := Before(s, None), World(s, None, Loading(crew, [], s.db));
    NoEvents(job, start);
    RunStep(job, start, [], start, Begin(false, crew));
    NoCalls(job.On(s.db));
    assert Midway(job, begun, crew, []) == begun;
    CallsRun(job, begun, crew, trace, |trace|);
    assert trace[..|trace|] == trace;
    var v := Midway(job, begun, crew, trace);
    var before := [] + [Begin(false, crew)] + CallEvents(trace);
    RunAppend(job, start, [] + [Begin(false, crew)], begun, CallEvents(trace), v);
    assert order[..|order|] == order;
    InTurnEffect(job, s.db, order, |order|);
    CrewOf(server, job.cfg, batches);
    var idMap := MergedMap(job.cfg, crew, |crew.batches|);
    assert Merges(job.cfg, crew, idMap) by {
      MergedAll(job.cfg, crew, idMap);
    }
    RunStep(job, start, before, v, EndPass1(idMap));
    events, w := Completion(job, start, before + [EndPass1(idMap)], Next(job, v, EndPass1(idMap)));
  }

  lemma MergedAll(cfg: Config, crew: Crew, idMap: map<string, int>)
    requires cfg.Valid() && crew.Valid()
    requires forall key :: key in idMap ==> exists i: nat :: Contributes(cfg, crew, i, key, idMap[key])
    requires forall i, key :: 0 <= i < |crew.batches| && key in WorkerOutcome(cfg, crew, i).idMap ==> key in idMap
    ensures Merges(cfg, crew, idMap)
  {
    hide WorkerOutcome, AnswersProgress;
  }

  // ----- An order for the rows that gives the same ids -----

  /** The numbers of ks at their first occurrences. */
  function Firsts(ks: seq<nat>): seq<nat> {
    if ks == [] then []
    else
      var init, last := Firsts(ks[..|ks| - 1]), ks[|ks| - 1];
      if last in ks[..|ks| - 1] then init else init + [last]
  }

  lemma {:induction false} FirstsFacts(ks: seq<nat>, n: nat)
    ensures forall k :: k in Firsts(ks) <==> k in ks
    ensures NoDuplicates(Firsts(ks)) && (Below(ks, n) ==> Below(Firsts(ks), n))
  {
    if ks != [] {
      var init, last := ks[..|ks| - 1], ks[|ks| - 1];
      FirstsFacts(init, n);
      assert ks == init + [last];
    }
  }

  /** The numbers below n that are not in `seen`. */
  function Rest(n: nat, seen: seq<nat>): (rest: seq<nat>)
    ensures Below(rest, n) && NoDuplicates(rest)
    ensures forall k: nat :: k in rest <==> k < n && k !in seen
  {
    if n == 0 then [] else if n - 1 in seen then Rest(n - 1, seen) else Rest(n - 1, seen) + [n - 1]
  }

  lemma FirstsAndRest(ks: seq<nat>, n: nat)
    requires Below(ks, n)
    ensures Ordering(Firsts(ks) + Rest(n, Firsts(ks)), n)
  {
    var firsts, rest := Firsts(ks), Rest(n, Firsts(ks));
    FirstsFacts(ks, n);
    var order := firsts + rest;
    forall i, j | 0 <= i < j < |order| ensures order[i] != order[j] {
      if i < |firsts| <= j {
        assert order[i] in firsts && order[j] in rest;
      }
    }
    forall k: nat | k < n ensures Lists(order, k) {
      assert k in firsts || k in rest;
      assert k in order;
    }
  }

  lemma LoadKnown(job: Job, db: Db, k: nat)
    requires job.Valid() && db.Valid() && k < |job.rows| && job.cfg.Valid() && !Malformed(job.cfg, job.rows[k])
    ensures var db' := LoadRow(job.backend, job.cfg, db, job.rows[k]);
      && (Accepted(job.backend, job.cfg, job.rows[k]) ==> Key(job.cfg, job.rows[k]) in db'.named)
      && (forall key :: key in db.named ==> key in db'.named)
      && (Key(job.cfg, job.rows[k]) in db.named ==> Ids(db') == Ids(db) && db'.next == db.next)
  {
    hide AllPathsAgree, Isolating, SingleHeader, SingleLine, ToXmlid, Accepted, Malformed, LineKey;
    PathsPart(job.cfg);
    LineHasKey(job.cfg, job.rows[k]);
    KeyedMember(job.cfg, job.rows, job.rows[k]);
  }

  lemma LoadAlike(job: Job, db: Db, db': Db, k: nat)
    requires job.Valid() && db.Valid() && db'.Valid() && Ids(db) == Ids(db') && db.next == db'.next
    requires k < |job.rows| && job.cfg.Valid() && !Malformed(job.cfg, job.rows[k])
    ensures var l, l' := LoadRow(job.backend, job.cfg, db, job.rows[k]),
            LoadRow(job.backend, job.cfg, db', job.rows[k]);
      Ids(l) == Ids(l') && l.next == l'.next
  {
    hide AllPathsAgree, Isolating, SingleHeader, SingleLine, ToXmlid, Accepted, Malformed, LineKey;
    PathsPart(job.cfg);
    LineHasKey(job.cfg, job.rows[k]);
    KeyedMember(job.cfg, job.rows, job.rows[k]);
    assert db.named.Keys == Ids(db).Keys && db'.named.Keys == Ids(db').Keys;
    var key, line := Key(job.cfg, job.rows[k]), SingleLine(job.cfg, job.rows[k]);
    assert key in db.named ==> Ids(db)[key] == Ids(db')[key];
    IdsOfUpdate(db, key, Record(IdFor(db, key), line));
    IdsOfUpdate(db', key, Record(IdFor(db', key), line));
  }

  lemma IdsOfUpdate(db: Db, key: string, r: Record)
    ensures Ids(db.(named := db.named[key := r])) == Ids(db)[key := r.id]
  {
  }

  lemma {:induction false} KnownAfter(job: Job, db: Db, ks: seq<nat>, k: nat)
    requires job.Valid() && db.Valid() && RowNumbers(job.rows, ks) && k in ks && job.cfg.Valid()
    requires Below(ks, |job.rows|)
    ensures k < |job.rows| && !Malformed(job.cfg, job.rows[k])
    ensures Accepted(job.backend, job.cfg, job.rows[k]) ==> Key(job.cfg, job.rows[k]) in Loads(job, db, ks).named
  {
    hide AllPathsAgree, Importable, Isolating, Loads, LoadRow, ToXmlid, Accepted;
    JobFacts(job);
    var init, last := ks[..|ks| - 1], ks[|ks| - 1];
    LoadsExtend(job, db, init, last);
    assert init + [last] == ks;
    LoadKnown(job, Loads(job, db, init), last);
    if last != k {
      KnownAfter(job, db, init, k);
    }
  }

  /** Loading a row again gives out no id, so first occurrences are what counts. */
  lemma {:induction false} FirstsLoadAlike(job: Job, db: Db, ks: seq<nat>)
    requires job.Valid() && db.Valid() && RowNumbers(job.rows, ks) && Below(ks, |job.rows|)
    ensures RowNumbers(job.rows, Firsts(ks))
    ensures Ids(Loads(job, db, Firsts(ks))) == Ids(Loads(job, db, ks))
    ensures Loads(job, db, Firsts(ks)).next == Loads(job, db, ks).next
  {
    hide AllPathsAgree, Importable, Isolating, Loads, Ids, ToXmlid, Accepted;
    JobFacts(job);
    FirstsFacts(ks, |job.rows|);
    if ks != [] {
      var init, last := ks[..|ks| - 1], ks[|ks| - 1];
      FirstsLoadAlike(job, db, init);
      LoadsExtend(job, db, init, last);
      assert init + [last] == ks;
      if last in init {
        KnownAfter(job, db, init, last);
        LoadKnown(job, Loads(job, db, init), last);
      } else {
        LoadsExtend(job, db, Firsts(init), last);
        LoadAlike(job, Loads(job, db, Firsts(init)), Loads(job, db, init), last);
      }
    }
  }

  lemma {:induction false} LoadsAppend(job: Job, db: Db, a: seq<nat>, b: seq<nat>)
    requires job.Valid() && db.Valid() && RowNumbers(job.rows, a) && RowNumbers(job.rows, b)
    ensures RowNumbers(job.rows, a + b) && Loads(job, db, a).Valid()
    ensures Loads(job, db, a + b) == Loads(job, Loads(job, db, a), b)
  {
    hide AllPathsAgree, Importable, Isolating, Loads;
    JobFacts(job);
    LoadsAreValid(job, db, a);
    if b == [] {
      assert a + b == a;
      NoLoads(job, Loads(job, db, a));
    } else {
      var init, last := b[..|b| - 1], b[|b| - 1];
      LoadsAppend(job, db, a, init);
      LoadsExtend(job, db, a + init, last);
      LoadsExtend(job, Loads(job, db, a), init, last);
      assert a + init + [last] == a + b && init + [last] == b;
    }
  }

  lemma LoadsAreValid(job: Job, db: Db, ks: seq<nat>)
    requires job.Valid() && db.Valid() && RowNumbers(job.rows, ks)
    ensures Loads(job, db, ks).Valid()
  {
  }

  /** Any completed store has the ids of loading every row once, in some order. */
  lemma SomeOrder(job: Job, s: Db, db: Db) returns (order: seq<nat>)
    requires job.Valid() && s.Valid() && Reached(job, s, db) && Ready(job, db)
    ensures Ordering(order, |job.rows|) && RowNumbers(job.rows, order)
    ensures Ids(Loads(job, s, order)) == Ids(db)
  {
    hide AllPathsAgree, Importable, Isolating, Loads, Ready, Holds, Accepted, Ordering;
    JobFacts(job);
    var ks :| LoadedBy(job, s, db, ks);
    var n := |job.rows|;
    var firsts := Firsts(ks);
    var rest := Rest(n, firsts);
    FirstsFacts(ks, n);
    FirstsAndRest(ks, n);
    FirstsLoadAlike(job, s, ks);
    order := firsts + rest;
    LoadsAppend(job, s, firsts, rest);
    ReadyIsKnown(job, db);
    SameIdsKnown(job, db, Loads(job, s, firsts));
    LoadsKeep(job, Loads(job, s, firsts), rest);
  }

  lemma SameIdsKnown(job: Job, db: Db, db': Db)
    requires job.Valid() && AllKnown(job, db) && Ids(db) == Ids(db')
    ensures AllKnown(job, db')
  {
    hide AllPathsAgree, Importable, Isolating, Accepted, ToXmlid;
    assert db.named.Keys == Ids(db).Keys && db'.named.Keys == Ids(db').Keys;
  }

  /**
   Crash an import at any step and start it again any number of times: if a run completes, the target is
   exactly one that a single uninterrupted run leaves.
   */
  lemma CrashesLeaveNoTrace(job: Job, s: Target, checkpoint: Option<Checkpoint>, events: seq<Event>, w: World)
    returns (events': seq<Event>, w': World)
    requires job.Valid() && s.Valid() && CheckpointInv(job, s, checkpoint)
    requires Run(job, Before(s, checkpoint), events, w) && w.phase.Completed?
    ensures Uninterrupted(events') && Run(job, Before(s, None), events', w') && w'.phase.Completed?
    ensures w'.target == w.target
  {
    hide Run, AllPathsAgree, Importable, Isolating, Reached, Ready, Loads, Ordering, FinalRelations, W.ApplyRows,
         Uninterrupted, Ids, AllKnown;
    CrashConvergence(job, s, checkpoint, events, w);
    var order := SomeOrder(job, s.db, w.target.db);
    events', w' := UninterruptedIn(job, s, order);
    CrashConvergence(job, s, None, events', w');
    ImportedIsUnique(job, s, w'.target, w.target);
  }

  // ----- What the checkpoint must be -----

  /** Every completed run leaves the imported target. */
  ghost predicate Converges(job: Job, s: Target, checkpoint: Option<Checkpoint>)
    requires job.Valid() && s.Valid()
  {
    forall events, w :: Run(job, Before(s, checkpoint), events, w) && w.phase.Completed? ==> Imported(job, s, w.target)
  }

  /** Resuming a checkpoint of this hash skips Pass 1 and writes the relations of its id map. */
  lemma ResumedRun(job: Job, s: Target, c: Checkpoint) returns (events: seq<Event>, w: World)
    requires job.Valid() && s.Valid() && c.fileHash == job.fileHash && c.pass1Complete
    ensures Run(job, Before(s, Some(c)), events, w) && w.phase.Completed? && w.target.db == s.db
    ensures w.target.links == W.ApplyRows(s.links, Relations(job, c.idMap, Ids(s.db)))
  {
    hide Run, AllPathsAgree, Importable, Isolating, Fit, Relations, W.ApplyRows, CrewInTurn, InTurn, AnswersProgress,
         ServerOf, Ids;
    FlattenOne(job.rows);
    InTurnFits(job, s.db, [job.rows]);
    var crew, start := CrewInTurn(Served(job, s.db), job.cfg, [job.rows]), Before(s, Some(c));
    NoEvents(job, start);
    RunStep(job, start, [], start, Begin(true, crew));
    events, w := Completion(job, start, [] + [Begin(true, crew)], Next(job, start, Begin(true, crew)));
  }

  /**
   The guard is exact. A complete checkpoint under the file's own hash lets every completed run converge
   if and only if the store already holds every accepted row and the saved id map is theirs; with another
   hash, as the guard requires of other content, it always does. The premise leaves aside only an id map
   that is wrong without any effect on what is written.
   */
  lemma ConvergesIffCheckpointIsSound(job: Job, s: Target, c: Checkpoint)
    requires job.Valid() && s.Valid()
    requires Ready(job, s.db) && c.idMap != IdMapOf(job, Ids(s.db)) ==>
               W.ApplyRows(s.links, Relations(job, c.idMap, Ids(s.db)))
                   != W.ApplyRows(s.links, FinalRelations(job, Ids(s.db)))
    ensures Converges(job, s, Some(c)) <==> CheckpointInv(job, s, Some(c))
  {
    hide Run, AllPathsAgree, Importable, Isolating, Ready, Reached, Relations, W.ApplyRows, IdMapOf, Ids;
    if CheckpointInv(job, s, Some(c)) {
      forall events, w | Run(job, Before(s, Some(c)), events, w) && w.phase.Completed?
          ensures Imported(job, s, w.target) {
        CrashConvergence(job, s, Some(c), events, w);
      }
    } else {
      var events, w := ResumedRun(job, s, c);
      assert !Imported(job, s, w.target);
    }
  }

  /** The hash reads a file's size and its first and last megabyte: on a collision with other content, rows are lost. */
  lemma HashCollisionLosesRows(job: Job, s: Target, c: Checkpoint) returns (events: seq<Event>, w: World)
    requires job.Valid() && s.Valid() && c.fileHash == job.fileHash && c.pass1Complete && !Ready(job, s.db)
    ensures Run(job, Before(s, Some(c)), events, w) && w.phase.Completed?
    ensures !Ready(job, w.target.db) && !Imported(job, s, w.target)
  {
    hide Run, AllPathsAgree, Importable, Isolating, Ready, Reached, Relations, W.ApplyRows, IdMapOf, Ids;
    events, w := ResumedRun(job, s, c);
  }
}
