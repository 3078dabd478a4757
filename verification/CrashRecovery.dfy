/**
 A standard-mode import that may crash at any step and be started again any number of times: the
 checkpoint logic of `import_data`, Pass 1 by a crew of workers making the calls their code makes, and
 Pass 2 with its pool of writers, on one target store. The server has no faults, decides each row on its
 own and refuses in a way that isolates bad rows.
 */
module CrashRecovery {
  import opened Basics
  import opened XmlId
  import opened LoadProtocol
  import opened LoadFallback
  import opened FallbackFacts
  import opened Accounting
  import opened TargetStore
  import opened FallbackRefinement
  import opened HistoryFacts
  import opened StoreFacts
  import opened RowIsolation
  import opened SharedStore
  import opened PassEffect
  import opened WireValues
  import W = Writes
  import opened PassTwo
  import opened PreparedWrites

  /** One import: `lookup` is what the server's external-id table answers when it holds the given ids. */
  datatype Job = Job(cfg: Config, rows: seq<Row>, backend: Backend, columns: seq<Deferred>, proxy: bool,
                     lookup: (map<string, int>, string) -> Option<int>, fileHash: string)
  {
    ghost predicate Valid() {
      AllPathsAgree(cfg) && Importable(cfg, rows) && Isolating(backend)
    }

    /** The server when a run of Pass 1 begins. */
    function On(db: Db): Backend {
      backend.(start := db)
    }
  }

  /** The target model: what Pass 1 loads, and the fields Pass 2 writes. */
  datatype Target = Target(db: Db, links: W.Store<Value>) {
    ghost predicate Valid() {
      db.Valid() && UniqueIds(db)
    }
  }

  ghost predicate UniqueIds(db: Db) {
    forall a, b :: a in db.named && b in db.named && a != b ==> db.named[a].id != db.named[b].id
  }

  function Ids(db: Db): map<string, int> {
    map key | key in db.named :: db.named[key].id
  }

  datatype Checkpoint = Checkpoint(fileHash: string, idMap: map<string, int>, pass1Complete: bool)

  /** Where the process is; Stopped is no process at all. `base` is the store when Pass 1 began. */
  datatype Phase =
    | Stopped
    | Loading(crew: Crew, trace: Trace, base: Db)
    | Pass1Done(idMap: map<string, int>)
    | Saved(idMap: map<string, int>)
    | Writing(plan: seq<seq<W.Op<Vals>>>, pool: W.Pool<Value>)
    | Completed

  datatype World = World(target: Target, checkpoint: Option<Checkpoint>, phase: Phase)

  /** `Save(false)` and `End(false)` are checkpointing switched off, or failing to write or delete the file. */
  datatype Event =
    | Crash
    | Begin(resume: bool, crew: Crew)
    | Exchanged(call: Call)
    | EndPass1(idMap: map<string, int>)
    | Save(saved: bool)
    | Plan(plan: seq<seq<W.Op<Vals>>>)
    | Write(attempt: W.Event)
    | End(deleted: bool)

  ghost predicate Good(job: Job, row: Row)
    requires job.Valid()
  {
    IsGoodRow(job.backend, job.cfg, job.rows, row)
  }

  ghost predicate GoodKey(job: Job, key: string)
    requires job.Valid()
  {
    exists row :: Good(job, row) && Key(job.cfg, row) == key
  }

  /** The ids of the rows the server accepted. */
  ghost function IdMapOf(job: Job, ids: map<string, int>): map<string, int>
    requires job.Valid()
  {
    map key | key in ids && GoodKey(job, key) :: ids[key]
  }

  function LinksFrom(job: Job, idMap: map<string, int>, ids: map<string, int>): Links {
    Links(idMap, job.proxy, value => job.lookup(ids, value))
  }

  /** The rows of Pass 2, as the server sees them. */
  ghost function Relations(job: Job, idMap: map<string, int>, ids: map<string, int>): seq<W.Cell<Vals>>
    requires job.Valid()
  {
    ImportableIsValid(job.cfg, job.rows);
    WireRows(Prepared(job.cfg, LinksFrom(job, idMap, ids), job.columns, job.rows))
  }

  /** A crew for this job: its batches are the job's rows, its workers see the job's server. */
  ghost predicate Fit(job: Job, crew: Crew) {
    SeesRowwise(job.backend, crew) && crew.Valid() && multiset(Flatten(crew.batches)) == multiset(job.rows)
  }

  ghost predicate Enabled(job: Job, w: World, e: Event)
    requires job.Valid()
  {
    match e
    case Crash => true
    case Begin(_, crew) => (w.phase.Stopped? || w.phase.Completed?) && Fit(job, crew)
    case Exchanged(call) =>
      && w.phase.Loading? && w.phase.base.Valid() && w.phase.crew.Valid() && job.cfg.Valid() && w.target.db.Valid()
      && Obeys(job.cfg, w.phase.crew, w.phase.trace + [call])
      && call.exchange.reply == ServerOf(job.On(w.phase.base))(Whole(w.phase.trace), call.exchange.request)
    case EndPass1(idMap) =>
      && w.phase.Loading? && w.phase.crew.Valid() && job.cfg.Valid()
      && Ended(job.cfg, w.phase.crew, w.phase.trace) && Merges(job.cfg, w.phase.crew, idMap)
    case Save(_) => w.phase.Pass1Done?
    case Plan(plan) => w.phase.Saved? && W.Performs(plan, Relations(job, w.phase.idMap, Ids(w.target.db)))
    case Write(attempt) => w.phase.Writing? && W.Enabled(w.phase.pool, attempt)
    case End(_) => w.phase.Writing? && W.Finished(w.phase.pool)
  }

  ghost function Next(job: Job, w: World, e: Event): World
    requires job.Valid() && Enabled(job, w, e)
  {
    match e
    case Crash => w.(phase := Stopped)
    case Begin(resume, crew) => Start(job, w, resume, crew)
    case Exchanged(call) =>
      World(w.target.(db := Apply(job.backend, w.target.db, call.exchange.request)), w.checkpoint,
            w.phase.(trace := w.phase.trace + [call]))
    case EndPass1(idMap) => w.(phase := Pass1Done(idMap))
    case Save(saved) =>
      var checkpoint := if saved then Some(Checkpoint(job.fileHash, w.phase.idMap, true)) else w.checkpoint;
      World(w.target, checkpoint, Saved(w.phase.idMap))
    case Plan(plan) => w.(phase := Writing(plan, W.Started(plan, w.target.links)))
    case Write(attempt) =>
      var pool := W.Next(w.phase.pool, attempt);
      World(w.target.(links := pool.store), w.checkpoint, Writing(w.phase.plan, pool))
    case End(deleted) =>
      if W.NothingFailed(w.phase.pool) then World(w.target, if deleted then None else w.checkpoint, Completed)
      else w.(phase := Stopped)
  }

  /** `load_checkpoint` and the choice made from it: a checkpoint of another file content is deleted. */
  function Start(job: Job, w: World, resume: bool, crew: Crew): World {
    var afresh := Loading(crew, [], w.target.db);
    if !resume || w.checkpoint.None? then w.(phase := afresh)
    else if w.checkpoint.value.fileHash != job.fileHash then World(w.target, None, afresh)
    else if w.checkpoint.value.pass1Complete then w.(phase := Pass1Done(w.checkpoint.value.idMap))
    else w.(phase := afresh)
  }

  ghost predicate Run(job: Job, w: World, events: seq<Event>, w': World)
    requires job.Valid()
    decreases |events|
  {
    if events == [] then w == w'
    else Enabled(job, w, events[0]) && Run(job, Next(job, w, events[0]), events[1..], w')
  }

  // ----- What holds at every step -----

  /** Every accepted row is in the store: Pass 1 has been completed at some time. */
  ghost predicate Ready(job: Job, db: Db)
    requires job.Valid()
  {
    forall row :: Good(job, row) ==> Holds(job.cfg, db, row)
  }

  ghost predicate AllKnown(job: Job, db: Db)
    requires job.Valid()
  {
    forall row :: Good(job, row) ==> Key(job.cfg, row) in db.named
  }

  /** The rows numbered `ks`, loaded one by one. */
  ghost function Loads(job: Job, db: Db, ks: seq<nat>): Db
    requires job.Valid() && db.Valid() && RowNumbers(job.rows, ks)
  {
    ImportableIsValid(job.cfg, job.rows);
    LoadAll(job.backend, job.cfg, job.rows, db, ks)
  }

  ghost predicate LoadedBy(job: Job, s: Db, db: Db, ks: seq<nat>)
    requires job.Valid() && s.Valid()
  {
    RowNumbers(job.rows, ks) && Loads(job, s, ks) == db
  }

  /** The store is that of loading some rows one by one. */
  ghost predicate Reached(job: Job, s: Db, db: Db)
    requires job.Valid() && s.Valid()
  {
    exists ks :: LoadedBy(job, s, db, ks)
  }

  /** What Pass 2 writes once every accepted row is known. */
  ghost function FinalRelations(job: Job, ids: map<string, int>): seq<W.Cell<Vals>>
    requires job.Valid()
  {
    Relations(job, IdMapOf(job, ids), ids)
  }

  ghost predicate LinksInv(job: Job, s: Target, t: Target)
    requires job.Valid()
  {
    if AllKnown(job, t.db) then W.StoreInv(FinalRelations(job, Ids(t.db)), s.links, t.links)
    else t.links == s.links
  }

  ghost predicate TargetInv(job: Job, s: Target, t: Target)
    requires job.Valid() && s.Valid()
  {
    t.Valid() && Reached(job, s.db, t.db) && LinksInv(job, s, t)
  }

  ghost predicate CheckpointInv(job: Job, target: Target, checkpoint: Option<Checkpoint>)
    requires job.Valid()
  {
    checkpoint.Some? && checkpoint.value.fileHash == job.fileHash && checkpoint.value.pass1Complete ==>
      Ready(job, target.db) && checkpoint.value.idMap == IdMapOf(job, Ids(target.db))
  }

  ghost predicate LoadingInv(job: Job, db: Db, crew: Crew, trace: Trace, base: Db)
    requires job.Valid()
  {
    && job.cfg.Valid() && base.Valid() && Fit(job, crew) && Obeys(job.cfg, crew, trace)
    && ServedBy(ServerOf(job.On(base)), trace) && DbAfter(job.On(base), Whole(trace)) == db
  }

  ghost predicate PhaseInv(job: Job, s: Target, w: World)
    requires job.Valid()
  {
    match w.phase
    case Stopped => true
    case Loading(crew, trace, base) => LoadingInv(job, w.target.db, crew, trace, base)
    case Pass1Done(idMap) => Ready(job, w.target.db) && idMap == IdMapOf(job, Ids(w.target.db))
    case Saved(idMap) => Ready(job, w.target.db) && idMap == IdMapOf(job, Ids(w.target.db))
    case Writing(plan, pool) =>
      && Ready(job, w.target.db) && pool.store == w.target.links
      && W.Performs(plan, FinalRelations(job, Ids(w.target.db)))
      && W.PoolInv(plan, FinalRelations(job, Ids(w.target.db)), s.links, pool)
    case Completed =>
      Ready(job, w.target.db) && w.target.links == W.ApplyRows(s.links, FinalRelations(job, Ids(w.target.db)))
  }

  ghost predicate Inv(job: Job, s: Target, w: World)
    requires job.Valid() && s.Valid()
  {
    TargetInv(job, s, w.target) && CheckpointInv(job, w.target, w.checkpoint) && PhaseInv(job, s, w)
  }

  lemma JobFacts(job: Job)
    requires job.Valid()
    ensures job.cfg.Valid() && AllWellFormed(job.cfg, job.rows) && WellKeyed(job.cfg, job.rows)
    ensures forall row: Row :: !Malformed(job.cfg, row) ==> job.cfg.uid < |row.cells|
  {
    hide ToXmlid;
  }

  lemma FinalRelationsDistinct(job: Job, db: Db)
    requires job.Valid() && UniqueIds(db)
    ensures W.DistinctIds(FinalRelations(job, Ids(db)))
  {
    hide GoodKey, RowNumbers;
    JobFacts(job);
    var ids := Ids(db);
    var idMap := IdMapOf(job, ids);
    assert Injective(idMap);
    PreparedIsSound(job.cfg, LinksFrom(job, idMap, ids), job.columns, job.rows);
    WireRowsDistinct(Prepared(job.cfg, LinksFrom(job, idMap, ids), job.columns, job.rows));
  }

  // ----- Row upserts and the store -----

  lemma UpsertKeepsUnique(db: Db, header: seq<string>, line: Row)
    requires db.Valid() && UniqueIds(db)
    ensures UniqueIds(Upsert(db, header, line))
  {
    hide LineKey;
  }

  lemma {:induction false} LoadsKeepUnique(job: Job, db: Db, ks: seq<nat>)
    requires job.Valid() && db.Valid() && UniqueIds(db) && RowNumbers(job.rows, ks)
    ensures UniqueIds(Loads(job, db, ks))
  {
    hide Upsert, SingleHeader, SingleLine, UniqueIds, Accepted;
    JobFacts(job);
    if ks != [] {
      LoadsKeepUnique(job, db, ks[..|ks| - 1]);
      UpsertKeepsUnique(Loads(job, db, ks[..|ks| - 1]), SingleHeader(job.cfg),
          SingleLine(job.cfg, job.rows[ks[|ks| - 1]]));
    }
  }

  lemma LoadsExtend(job: Job, db: Db, ks: seq<nat>, k: nat)
    requires job.Valid() && db.Valid() && RowNumbers(job.rows, ks) && k < |job.rows|
    ensures RowNumbers(job.rows, ks + [k]) && Loads(job, db, ks).Valid()
    ensures job.cfg.Valid() && !Malformed(job.cfg, job.rows[k])
    ensures Loads(job, db, ks + [k]) == LoadRow(job.backend, job.cfg, Loads(job, db, ks), job.rows[k])
  {
    JobFacts(job);
    LoadAllExtends(job.backend, job.cfg, job.rows, db, ks, k);
  }

  /** Loading rows keeps the store clean and everything it held. */
  lemma {:induction false} LoadsGrow(job: Job, db: Db, ks: seq<nat>)
    requires job.Valid() && db.Valid() && RowNumbers(job.rows, ks) && job.cfg.Valid()
    ensures Grown(job.backend, job.cfg, job.rows, db, db, Loads(job, db, ks))
  {
    hide Grown, Loads, LoadRow, AllPathsAgree, Importable, Isolating, Clean;
    if ks == [] {
      NoLoads(job, db);
    } else {
      var init, k := ks[..|ks| - 1], ks[|ks| - 1];
      LoadsGrow(job, db, init);
      LoadsExtend(job, db, init, k);
      assert init + [k] == ks;
      LoadGrows(job, db, Loads(job, db, init), k);
      GrownTwice(job.backend, job.cfg, job.rows, db, db, Loads(job, db, init), Loads(job, db, ks));
    }
  }

  lemma NoLoads(job: Job, db: Db)
    requires job.Valid() && db.Valid() && job.cfg.Valid()
    ensures Loads(job, db, []) == db && Grown(job.backend, job.cfg, job.rows, db, db, db)
  {
    hide Holds, FromGoodRow;
    assert forall key :: SameAt(db, db, key);
  }

  lemma LoadGrows(job: Job, start: Db, db: Db, k: nat)
    requires job.Valid() && db.Valid() && k < |job.rows| && job.cfg.Valid() && !Malformed(job.cfg, job.rows[k])
    requires Grown(job.backend, job.cfg, job.rows, start, start, db)
    ensures Grown(job.backend, job.cfg, job.rows, start, db, LoadRow(job.backend, job.cfg, db, job.rows[k]))
  {
    hide Clean, AllPathsAgree, Importable, Isolating, Upsert, SingleHeader, SingleLine, Holds, Malformed;
    PathsPart(job.cfg);
    if Accepted(job.backend, job.cfg, job.rows[k]) {
      UpsertGrows(job.backend, job.cfg, job.rows, start, db, job.rows[k]);
    }
  }

  /** Once every accepted row is known, loading gives out no new id; what is in place stays in place. */
  lemma LoadsKeep(job: Job, db: Db, ks: seq<nat>)
    requires job.Valid() && db.Valid() && RowNumbers(job.rows, ks)
    ensures Ready(job, db) ==> Ready(job, Loads(job, db, ks))
    ensures AllKnown(job, db) ==> Ids(Loads(job, db, ks)) == Ids(db) && AllKnown(job, Loads(job, db, ks))
  {
    hide Loads, Holds, AllPathsAgree, Importable, Isolating, Accepted, ToXmlid, Malformed;
    JobFacts(job);
    var db' := Loads(job, db, ks);
    LoadsGrow(job, db, ks);
    if AllKnown(job, db) {
      forall key ensures key in db'.named <==> key in db.named {
        assert SameAt(db, db', key) || FromGoodRow(job.backend, job.cfg, job.rows, db', key);
        if key in db'.named && !SameAt(db, db', key) {
          var row :| IsGoodRow(job.backend, job.cfg, job.rows, row) && Key(job.cfg, row) == key
              && Holds(job.cfg, db', row);
          assert Good(job, row);
        }
      }
    }
  }

  lemma ReadyIsKnown(job: Job, db: Db)
    requires job.Valid() && Ready(job, db)
    ensures AllKnown(job, db)
  {
    hide ToXmlid, SingleLine;
  }

  /** A request of the job's rows: the store after it is reached by loading some more rows. */
  lemma RequestLoads(job: Job, db: Db, request: Request) returns (ks: seq<nat>)
    requires job.Valid() && db.Valid() && job.cfg.Valid() && FromBatch(job.cfg, job.rows, request)
    ensures RowNumbers(job.rows, ks) && Loads(job, db, ks) == Apply(job.backend, db, request)
  {
    hide LoadAll, AllPathsAgree, Importable, Isolating, FromBatch, Apply;
    JobFacts(job);
    NoLoads(job, db);
    ks := RequestAsLoads(job.backend, job.cfg, job.rows, db, [], request);
  }

  lemma ReachedMore(job: Job, s: Db, db: Db, request: Request)
    requires job.Valid() && s.Valid() && db.Valid() && Reached(job, s, db) && job.cfg.Valid()
    requires FromBatch(job.cfg, job.rows, request)
    ensures Reached(job, s, Apply(job.backend, db, request))
  {
    hide LoadAll, AllPathsAgree, Importable, Isolating, FromBatch, Apply;
    JobFacts(job);
    var ks :| LoadedBy(job, s, db, ks);
    var more := RequestAsLoads(job.backend, job.cfg, job.rows, s, ks, request);
    assert LoadedBy(job, s, Apply(job.backend, db, request), more);
  }

  // ----- A call of Pass 1 -----

  lemma SameRows(a: seq<Row>, b: seq<Row>, row: Row)
    requires multiset(a) == multiset(b)
    ensures row in a <==> row in b
  {
    assert row in a <==> row in multiset(a);
    assert row in b <==> row in multiset(b);
  }

  lemma CallIsFromRows(job: Job, crew: Crew, trace: Trace, call: Call)
    requires job.Valid() && job.cfg.Valid() && Fit(job, crew) && Obeys(job.cfg, crew, trace + [call])
    ensures FromBatch(job.cfg, job.rows, call.exchange.request)
  {
    hide WorkerOutcome, Carries, Own, AllPathsAgree, Importable, Isolating, SeesRowwise, AnswersProgress;
    var longer := trace + [call];
    assert longer[|trace|] == call;
    var k := OwnHas(longer, |trace|);
    WorkerRequestsOwnRows(job.cfg, crew, call.worker, k);
    var data, request := Flatten(crew.batches), call.exchange.request;
    forall j | 0 <= j < |request.lines| ensures CarriesSome(job.cfg, job.rows, request, j) {
      assert CarriesSome(job.cfg, data, request, j);
      var row :| row in data && Carries(job.cfg, request, j, row);
      SameRows(data, job.rows, row);
    }
  }

  lemma ServedOneMore(server: Server, trace: Trace, call: Call)
    requires ServedBy(server, trace) && call.exchange.reply == server(Whole(trace), call.exchange.request)
    ensures ServedBy(server, trace + [call]) && Whole(trace + [call]) == Whole(trace) + [call.exchange]
  {
    var longer := trace + [call];
    assert Whole(longer) == Whole(trace) + [call.exchange];
    forall n | 0 <= n < |longer|
      ensures longer[n].exchange.reply == server(Whole(longer)[..n], longer[n].exchange.request)
    {
      if n < |trace| {
        assert Whole(longer)[..n] == Whole(trace)[..n];
      } else {
        assert Whole(longer)[..n] == Whole(trace);
      }
    }
  }

  lemma SameApply(job: Job, base: Db, db: Db, request: Request)
    requires db.Valid()
    ensures Apply(job.On(base), db, request) == Apply(job.backend, db, request)
  {
    assert AllGood(job.On(base), request) == AllGood(job.backend, request);
  }

  lemma CallKeepsLoading(job: Job, w: World, call: Call)
    requires job.Valid() && w.target.db.Valid() && w.phase.Loading?
    requires LoadingInv(job, w.target.db, w.phase.crew, w.phase.trace, w.phase.base)
    requires Enabled(job, w, Exchanged(call))
    ensures LoadingInv(job, Apply(job.backend, w.target.db, call.exchange.request),
                       w.phase.crew, w.phase.trace + [call], w.phase.base)
  {
    hide Fit, Obeys, AllPathsAgree, Importable, Isolating, ServerOf, Apply, ServedBy, DbAfter, Whole;
    var b := job.On(w.phase.base);
    ServedOneMore(ServerOf(b), w.phase.trace, call);
    OneMore(b, Whole(w.phase.trace), call.exchange);
    SameApply(job, w.phase.base, w.target.db, call.exchange.request);
  }

  /** The links stay right whatever Pass 1 does to the store. */
  lemma LoadsKeepLinks(job: Job, s: Target, t: Target, ks: seq<nat>)
    requires job.Valid() && t.db.Valid() && RowNumbers(job.rows, ks) && LinksInv(job, s, t)
    ensures LinksInv(job, s, t.(db := Loads(job, t.db, ks)))
  {
    hide Loads, AllKnown, FinalRelations, Ids;
    LoadsKeep(job, t.db, ks);
    if !AllKnown(job, t.db) && AllKnown(job, Loads(job, t.db, ks)) {
      NothingWritten(FinalRelations(job, Ids(Loads(job, t.db, ks))), s.links);
    }
  }

  lemma NothingWritten(rows: seq<W.Cell<Vals>>, start: W.Store<Value>)
    ensures W.StoreInv(rows, start, start)
  {
  }

  lemma CallKeeps(job: Job, s: Target, w: World, call: Call)
    requires job.Valid() && s.Valid() && Inv(job, s, w) && Enabled(job, w, Exchanged(call))
    ensures Inv(job, s, Next(job, w, Exchanged(call)))
  {
    hide Loads, LoadingInv, LinksInv, Ready, AllKnown, UniqueIds, Reached, Fit, Obeys, ServerOf, Apply, AllPathsAgree,
         Importable, Isolating, IdMapOf, Ids, Whole;
    var request, db := call.exchange.request, w.target.db;
    FitCrew(job, w);
    CallIsFromRows(job, w.phase.crew, w.phase.trace, call);
    CallKeepsLoading(job, w, call);
    var ks := RequestLoads(job, db, request);
    ReachedMore(job, s.db, db, request);
    LoadsKeepLinks(job, s, w.target, ks);
    LoadsKeepUnique(job, db, ks);
    LoadsKeep(job, db, ks);
    if Ready(job, db) {
      ReadyIsKnown(job, db);
    }
  }

  lemma FitCrew(job: Job, w: World)
    requires job.Valid() && w.phase.Loading? && LoadingInv(job, w.target.db, w.phase.crew, w.phase.trace, w.phase.base)
    ensures Fit(job, w.phase.crew)
  {
  }

  // ----- The end of Pass 1 -----

  lemma PermutedImportable(cfg: Config, a: seq<Row>, b: seq<Row>)
    requires Importable(cfg, a) && multiset(a) == multiset(b)
    ensures Importable(cfg, b)
  {
    hide Malformed, Keyed, ToXmlid;
    forall i | 0 <= i < |b| ensures b[i] in a {
      SameRows(a, b, b[i]);
    }
    forall i, j | 0 <= i < j < |b|
      ensures cfg.uid < |b[i].cells| && cfg.uid < |b[j].cells| && Key(cfg, b[i]) != Key(cfg, b[j])
    {
      KeyedMember(cfg, a, b[i]);
      KeyedMember(cfg, a, b[j]);
      if Key(cfg, b[i]) == Key(cfg, b[j]) {
        SameKeySameRow(cfg, a, b[i], b[j]);
        CountsTwice(b, i, j);
        OnceEach(cfg, a, b[i]);
        assert false;
      }
    }
  }

  lemma OnIsValid(job: Job, base: Db, crew: Crew)
    requires job.Valid() && base.Valid() && SeesRowwise(job.backend, crew)
    ensures job.On(base).Valid() && Isolating(job.On(base)) && SeesRowwise(job.On(base), crew)
  {
    hide AllPathsAgree, Importable, Isolates, Confirms;
    var b, c := job.backend, job.On(base);
    assert forall request :: AllGood(c, request) == AllGood(b, request);
    forall h, request ensures NoIds(c.refuse(h, request)) {
      assert NoIds(b.refuse(h, request));
    }
    forall i | 0 <= i < |crew.views| ensures Rowwise(c, crew.views[i]) {
      assert Rowwise(b, crew.views[i]);
      forall h: History, request: Request ensures RowwiseReply(c, request, crew.views[i](h, request)) {
        assert RowwiseReply(b, request, crew.views[i](h, request));
      }
    }
  }

  /** When every worker has ended, every accepted row is in place and the id map is theirs. */
  lemma PassLoads(job: Job, db: Db, crew: Crew, trace: Trace, base: Db, idMap: map<string, int>)
    requires job.Valid() && LoadingInv(job, db, crew, trace, base) && Ended(job.cfg, crew, trace)
    requires Merges(job.cfg, crew, idMap)
    ensures Ready(job, db) && idMap == IdMapOf(job, Ids(db))
  {
    hide AllPathsAgree, Importable, Isolating, SeesRowwise, Obeys, ServedBy, Ended, Merges, ServerOf, DbAfter, Whole,
         Holds, Accepted, Malformed, ToXmlid;
    JobFacts(job);
    OnIsValid(job, base, crew);
    PermutedImportable(job.cfg, job.rows, Flatten(crew.batches));
    CrewLoads(job.On(base), job.cfg, crew, trace, idMap);
    FromLoaded(job, db, Flatten(crew.batches), base, idMap);
  }

  lemma FromLoaded(job: Job, db: Db, data: seq<Row>, base: Db, idMap: map<string, int>)
    requires job.Valid() && job.cfg.Valid() && multiset(data) == multiset(job.rows)
    requires PassEffect.Loaded(job.On(base), job.cfg, data, db, idMap)
    ensures Ready(job, db) && idMap == IdMapOf(job, Ids(db))
  {
    hide AllPathsAgree, Importable, Isolating, Holds, ToXmlid, SingleHeader, SingleLine;
    JobFacts(job);
    forall row ensures IsGoodRow(job.On(base), job.cfg, data, row) == Good(job, row) {
      SameRows(data, job.rows, row);
    }
  }

  // ----- Pass 2 -----

  lemma LinksNow(job: Job, s: Target, t: Target)
    requires job.Valid() && Ready(job, t.db) && W.StoreInv(FinalRelations(job, Ids(t.db)), s.links, t.links)
    ensures LinksInv(job, s, t)
  {
    hide FinalRelations, W.StoreInv, Ready, AllKnown;
    ReadyIsKnown(job, t.db);
  }

  lemma PoolStore(plan: seq<seq<W.Op<Vals>>>, rows: seq<W.Cell<Vals>>, start: W.Store<Value>, pool: W.Pool<Value>)
    requires W.PoolInv(plan, rows, start, pool)
    ensures W.StoreInv(rows, start, pool.store)
  {
  }

  lemma WriteKeeps(job: Job, s: Target, w: World, attempt: W.Event)
    requires job.Valid() && s.Valid() && Inv(job, s, w) && Enabled(job, w, Write(attempt))
    ensures Inv(job, s, Next(job, w, Write(attempt)))
  {
    hide FinalRelations, IdMapOf, W.Next, W.Performs, Reached, UniqueIds, Ready, LinksInv, W.PoolInv, W.Enabled,
         W.StoreInv, AllPathsAgree, Importable, Isolating;
    var rows, w' := FinalRelations(job, Ids(w.target.db)), Next(job, w, Write(attempt));
    FinalRelationsDistinct(job, w.target.db);
    W.NextKeeps(w.phase.plan, rows, s.links, w.phase.pool, attempt);
    PoolStore(w.phase.plan, rows, s.links, w'.phase.pool);
    LinksNow(job, s, w'.target);
  }

  lemma EndKeeps(job: Job, s: Target, w: World, deleted: bool)
    requires job.Valid() && s.Valid() && Inv(job, s, w) && Enabled(job, w, End(deleted))
    ensures Inv(job, s, Next(job, w, End(deleted)))
  {
    hide FinalRelations, Ready, Reached, UniqueIds, LinksInv, W.Performs, IdMapOf, W.ApplyRows, W.Finished,
         W.NothingFailed, W.PoolInv, AllPathsAgree, Importable, Isolating;
    if W.NothingFailed(w.phase.pool) {
      FinalRelationsDistinct(job, w.target.db);
      W.PoolConverges(w.phase.plan, FinalRelations(job, Ids(w.target.db)), s.links, w.phase.pool);
    }
  }

  lemma PlanKeeps(job: Job, s: Target, w: World, plan: seq<seq<W.Op<Vals>>>)
    requires job.Valid() && s.Valid() && Inv(job, s, w) && Enabled(job, w, Plan(plan))
    ensures Inv(job, s, Next(job, w, Plan(plan)))
  {
    hide Reached, UniqueIds, W.Performs, IdMapOf, W.StoreInv, Ready, AllKnown, W.PoolInv, AllPathsAgree, Importable,
         Isolating, Relations;
    var rows := FinalRelations(job, Ids(w.target.db));
    ReadyIsKnown(job, w.target.db);
    assert W.StoreInv(rows, s.links, w.target.links);
    PoolBegins(plan, rows, s.links, w.target.links);
  }

  lemma PoolBegins(plan: seq<seq<W.Op<Vals>>>, rows: seq<W.Cell<Vals>>, start: W.Store<Value>, store: W.Store<Value>)
    requires W.StoreInv(rows, start, store)
    ensures W.PoolInv(plan, rows, start, W.Started(plan, store))
  {
    W.StartedInv(plan, rows, store);
    forall i | 0 <= i < |plan| ensures W.AllHold(start, store, W.Started(plan, store).workers[i].done) {
    }
  }

  lemma EndPass1Keeps(job: Job, s: Target, w: World, idMap: map<string, int>)
    requires job.Valid() && s.Valid() && Inv(job, s, w) && Enabled(job, w, EndPass1(idMap))
    ensures Inv(job, s, Next(job, w, EndPass1(idMap)))
  {
    hide LoadingInv, Ready, Reached, UniqueIds, LinksInv, IdMapOf, Ids, Ended, Merges, AllPathsAgree, Importable,
         Isolating;
    PassLoads(job, w.target.db, w.phase.crew, w.phase.trace, w.phase.base, idMap);
  }

  /** A pass that has made no call yet. */
  lemma PassBegins(job: Job, db: Db, crew: Crew)
    requires job.Valid() && db.Valid() && Fit(job, crew)
    ensures LoadingInv(job, db, crew, [], db)
  {
    hide WorkerOutcome, AllPathsAgree, Importable, Isolating, SeesRowwise, AnswersProgress, ServerOf;
    JobFacts(job);
    assert Whole([]) == [];
  }

  lemma BookkeepingKeeps(job: Job, s: Target, w: World, e: Event)
    requires job.Valid() && s.Valid() && Inv(job, s, w) && Enabled(job, w, e)
    requires e.Crash? || e.Begin? || e.Save?
    ensures Inv(job, s, Next(job, w, e))
  {
    hide Reached, UniqueIds, LinksInv, IdMapOf, Ids, Ready, LoadingInv, Fit, AllPathsAgree, Importable, Isolating;
    if e.Begin? {
      PassBegins(job, w.target.db, e.crew);
    }
  }

  lemma NextKeeps(job: Job, s: Target, w: World, e: Event)
    requires job.Valid() && s.Valid() && Inv(job, s, w) && Enabled(job, w, e)
    ensures Inv(job, s, Next(job, w, e))
  {
    hide Inv, Enabled, Next;
    match e
    case Exchanged(call) => CallKeeps(job, s, w, call);
    case EndPass1(idMap) => EndPass1Keeps(job, s, w, idMap);
    case Plan(plan) => PlanKeeps(job, s, w, plan);
    case Write(attempt) => WriteKeeps(job, s, w, attempt);
    case End(deleted) => EndKeeps(job, s, w, deleted);
    case _ => BookkeepingKeeps(job, s, w, e);
  }

  lemma {:induction false} RunKeeps(job: Job, s: Target, w: World, events: seq<Event>, w': World)
    requires job.Valid() && s.Valid() && Inv(job, s, w) && Run(job, w, events, w')
    ensures Inv(job, s, w')
    decreases |events|
  {
    hide Inv, Enabled, Next;
    if events != [] {
      NextKeeps(job, s, w, events[0]);
      RunKeeps(job, s, Next(job, w, events[0]), events[1..], w');
    }
  }

  // ----- The promise -----

  /** No process yet. */
  function Before(s: Target, checkpoint: Option<Checkpoint>): World {
    World(s, checkpoint, Stopped)
  }

  lemma StartInv(job: Job, s: Target, checkpoint: Option<Checkpoint>)
    requires job.Valid() && s.Valid() && CheckpointInv(job, s, checkpoint)
    ensures Inv(job, s, Before(s, checkpoint))
  {
    hide FinalRelations, AllKnown, Ready, Loads, AllPathsAgree, Importable, Isolating, IdMapOf, Ids, UniqueIds;
    JobFacts(job);
    NoLoads(job, s.db);
    assert LoadedBy(job, s.db, s.db, []);
    NothingWritten(FinalRelations(job, Ids(s.db)), s.links);
  }

  /**
   The one target an import of `job` into `s` can end with, given which free ids the new records took:
   the store of loading the job's rows, every accepted row in place, their relations written one by one,
   everything else untouched.
   */
  ghost predicate Imported(job: Job, s: Target, t: Target)
    requires job.Valid() && s.Valid()
  {
    && Reached(job, s.db, t.db) && Ready(job, t.db)
    && t.links == W.ApplyRows(s.links, FinalRelations(job, Ids(t.db)))
  }

  /**
   Crash at any step and start again any number of times, resuming or not, with or without checkpoints:
   a run that completes leaves the imported target. A checkpoint found at the start must be one this
   import could have left: of other content, unfinished, or sound for the store.
   */
  lemma CrashConvergence(job: Job, s: Target, checkpoint: Option<Checkpoint>, events: seq<Event>, w: World)
    requires job.Valid() && s.Valid() && CheckpointInv(job, s, checkpoint)
    requires Run(job, Before(s, checkpoint), events, w) && w.phase.Completed?
    ensures Imported(job, s, w.target)
  {
    hide Run, Reached, Ready, FinalRelations, LinksInv, CheckpointInv;
    StartInv(job, s, checkpoint);
    RunKeeps(job, s, Before(s, checkpoint), events, w);
  }

  /** Numbers of records and of ids given out move together. */
  lemma {:induction false} LoadsCount(job: Job, db: Db, ks: seq<nat>)
    requires job.Valid() && db.Valid() && RowNumbers(job.rows, ks)
    ensures var db' := Loads(job, db, ks);
      && db'.next - db.next == |db'.named| - |db.named| && db'.unnamed == db.unnamed
    ensures |Loads(job, db, ks).named| >= |db.named|
  {
    hide Loads, AllPathsAgree, Importable, Isolating;
    JobFacts(job);
    if ks == [] {
      NoLoads(job, db);
    } else {
      var init, k := ks[..|ks| - 1], ks[|ks| - 1];
      LoadsCount(job, db, init);
      LoadsExtend(job, db, init, k);
      assert init + [k] == ks;
      LoadCounts(job, Loads(job, db, init), k);
    }
  }

  lemma LoadCounts(job: Job, db: Db, k: nat)
    requires job.Valid() && db.Valid() && k < |job.rows| && job.cfg.Valid() && !Malformed(job.cfg, job.rows[k])
    ensures var db' := LoadRow(job.backend, job.cfg, db, job.rows[k]);
      db'.next - db.next == |db'.named| - |db.named| && db'.unnamed == db.unnamed && |db'.named| >= |db.named|
  {
    hide AllPathsAgree, Isolating, SingleHeader, SingleLine, ToXmlid, Accepted, Malformed, LineKey;
    PathsPart(job.cfg);
    LineHasKey(job.cfg, job.rows[k]);
    KeyedMember(job.cfg, job.rows, job.rows[k]);
    var key, line := Key(job.cfg, job.rows[k]), SingleLine(job.cfg, job.rows[k]);
    EntryCounts(db.named, key, Record(IdFor(db, key), line));
  }

  lemma EntryCounts(m: map<string, Record>, key: string, r: Record)
    ensures |m[key := r]| == if key in m then |m| else |m| + 1
  {
    assert m[key := r].Keys == m.Keys + {key};
    assert |m[key := r]| == |m[key := r].Keys| && |m| == |m.Keys|;
    if key in m {
      assert m.Keys + {key} == m.Keys;
    }
  }

  /** Two completed imports can differ in nothing but the ids given to new records. */
  lemma ImportedIsUnique(job: Job, s: Target, t: Target, t': Target)
    requires job.Valid() && s.Valid() && Imported(job, s, t) && Imported(job, s, t')
    requires Ids(t.db) == Ids(t'.db) || AllKnown(job, s.db)
    ensures t == t'
  {
    hide Loads, Holds, AllKnown, Ready, FinalRelations, W.ApplyRows, AllPathsAgree, Importable, Isolating, Clean,
         UniqueIds, Ids;
    JobFacts(job);
    var ks :| LoadedBy(job, s.db, t.db, ks);
    var ks' :| LoadedBy(job, s.db, t'.db, ks');
    LoadsGrow(job, s.db, ks);
    LoadsGrow(job, s.db, ks');
    LoadsCount(job, s.db, ks);
    LoadsCount(job, s.db, ks');
    LoadsKeep(job, s.db, ks);
    LoadsKeep(job, s.db, ks');
    SameStore(job, s.db, t.db, t'.db);
  }

  lemma SameStore(job: Job, s: Db, db: Db, db': Db)
    requires job.Valid() && job.cfg.Valid() && Ready(job, db) && Ready(job, db') && Ids(db) == Ids(db')
    requires Clean(job.backend, job.cfg, job.rows, s, db) && Clean(job.backend, job.cfg, job.rows, s, db')
    requires db.next - s.next == |db.named| - |s.named| && db'.next - s.next == |db'.named| - |s.named|
    ensures db == db'
  {
    hide AllPathsAgree, Importable, Isolating, Accepted, ToXmlid, SingleLine, Malformed;
    JobFacts(job);
    assert db.named.Keys == Ids(db).Keys && db'.named.Keys == Ids(db').Keys;
    forall key | key in db.named ensures db.named[key] == db'.named[key] {
      assert Ids(db)[key] == Ids(db')[key];
      SameRecord(job, s, db, db', key);
    }
    assert db.named == db'.named;
  }

  lemma SameRecord(job: Job, s: Db, db: Db, db': Db, key: string)
    requires job.Valid() && job.cfg.Valid() && Ready(job, db) && Ready(job, db') && key in db.named && key in db'.named
    requires Clean(job.backend, job.cfg, job.rows, s, db) && Clean(job.backend, job.cfg, job.rows, s, db')
    requires db.named[key].id == db'.named[key].id
    ensures db.named[key] == db'.named[key]
  {
    hide AllPathsAgree, Importable, Isolating, Accepted, ToXmlid, SingleLine, Malformed;
    JobFacts(job);
    assert SameAt(s, db, key) || FromGoodRow(job.backend, job.cfg, job.rows, db, key);
    assert SameAt(s, db', key) || FromGoodRow(job.backend, job.cfg, job.rows, db', key);
    if row :| Good(job, row) && Key(job.cfg, row) == key {
      assert Holds(job.cfg, db, row) && Holds(job.cfg, db', row);
    }
  }

  /** After an import that completed and deleted its checkpoint, the next one loads the rows again, resuming or not. */
  lemma CompletedStartsOver(job: Job, w: World, resume: bool, crew: Crew)
    requires job.Valid() && Enabled(job, w, End(true)) && W.NothingFailed(w.phase.pool)
    requires Fit(job, crew)
    ensures var done := Next(job, w, End(true));
      && done.phase.Completed? && done.target == w.target && Enabled(job, done, Begin(resume, crew))
      && Next(job, done, Begin(resume, crew)) == done.(phase := Loading(crew, [], w.target.db))
  {
    hide Fit, AllPathsAgree, Importable, Isolating;
  }

  /** The steps of an attempt at Pass 2, up to and including a crash. */
  predicate InPassTwo(e: Event) {
    e.Plan? || e.Write? || e.Crash?
  }

  lemma {:induction false} CheckpointStays(job: Job, w: World, events: seq<Event>, w': World)
    requires job.Valid() && Run(job, w, events, w') && forall i :: 0 <= i < |events| ==> InPassTwo(events[i])
    ensures w'.checkpoint == w.checkpoint
    decreases |events|
  {
    hide AllPathsAgree, Importable, Isolating, Fit;
    if events != [] {
      CheckpointStays(job, Next(job, w, events[0]), events[1..], w');
    }
  }

  /**
   Once Pass 1 is saved, a crash anywhere in Pass 2 costs no load: a resumed start goes on with the saved
   id map and leaves the store as the crash left it.
   */
  lemma ResumeSkipsPassOne(job: Job, w: World, events: seq<Event>, w': World, crew: Crew)
    requires job.Valid() && w.phase.Pass1Done? && Fit(job, crew)
    requires Run(job, Next(job, w, Save(true)), events, w') && w'.phase.Stopped?
    requires forall i :: 0 <= i < |events| ==> InPassTwo(events[i])
    ensures Enabled(job, w', Begin(true, crew))
    ensures var again := Next(job, w', Begin(true, crew));
      again.phase == Pass1Done(w.phase.idMap) && again.target == w'.target && again.checkpoint == w'.checkpoint
  {
    hide AllPathsAgree, Importable, Isolating, Fit, Run;
    CheckpointStays(job, Next(job, w, Save(true)), events, w');
  }
}
