/**
 Lost replies. A call may fail on the client's side after the server committed it. However the faults
 fall, Pass 1 followed by one fault-free single-record pass over the failed rows ends with exactly the
 good rows upserted and exactly the bad rows failed.
 */
module AmbiguousFaults {
  import opened Basics
  import opened XmlId
  import opened LoadProtocol
  import opened LoadFallback
  import opened LoadWorker
  import opened FallbackFacts
  import opened WorkerFacts
  import opened Accounting
  import opened TargetStore
  import opened FallbackRefinement
  import opened HistoryFacts
  import opened StoreFacts
  import opened SharedStore

  /** What happens to the n-th call: the reply arrives, or the client sees an error of any kind. */
  datatype Fate = Delivered | Lost(committed: bool, kind: ErrorKind)

  type Fates = nat -> Fate

  predicate Commits(fates: Fates, n: nat) {
    fates(n).Delivered? || fates(n).committed
  }

  function StoreAfter(b: Backend, fates: Fates, h: History): (db: Db)
    requires b.start.Valid()
    ensures db.Valid()
  {
    if h == [] then b.start
    else
      var before, n := StoreAfter(b, fates, h[..|h| - 1]), |h| - 1;
      if Commits(fates, n) then Apply(b, before, h[n].request) else before
  }

  function FaultyServe(b: Backend, fates: Fates, h: History, request: Request): Reply
    requires b.start.Valid()
  {
    match fates(|h|)
    case Lost(_, kind) => Raised(kind)
    case Delivered =>
      if AllGood(b, request) then
        Answer(UpsertIds(StoreAfter(b, fates, h), request.header, request.lines, |request.lines|), None, false)
      else b.refuse(h, request)
  }

  function FaultyServer(b: Backend, fates: Fates): Server
    requires b.start.Valid()
  {
    (h: History, request: Request) => FaultyServe(b, fates, h, request)
  }

  lemma FaultyIsHonest(b: Backend, fates: Fates)
    requires b.Valid()
    ensures AnswersProgress(FaultyServer(b, fates)) && AnswersWithoutHoles(FaultyServer(b, fates))
  {
    forall h: History, request: Request
      ensures var reply := FaultyServer(b, fates)(h, request);
        ReplyProgresses(reply, |request.lines|) && ReplyHasNoHole(reply, |request.lines|)
    {
      var reply := FaultyServe(b, fates, h, request);
      assert NoIds(b.refuse(h, request));
      if reply.Answer? && reply.ids != [] {
        assert Acked(reply.ids, 0);
      }
    }
  }

  /** The row was in a request that the server committed. */
  ghost predicate Committed(b: Backend, fates: Fates, cfg: Config, h: History, row: Row)
    requires cfg.Valid()
  {
    exists n, j :: 0 <= n < |h| && Commits(fates, n) && AllGood(b, h[n].request) && Carries(cfg, h[n].request, j, row)
  }

  ghost predicate AllFromBatch(cfg: Config, batch: seq<Row>, h: History)
    requires cfg.Valid()
  {
    forall n :: 0 <= n < |h| ==> FromBatch(cfg, batch, h[n].request)
  }

  /** The store after any history is clean, and holds every committed row. */
  lemma {:induction false} StoreStaysClean(b: Backend, fates: Fates, cfg: Config, batch: seq<Row>, h: History)
    requires b.start.Valid() && AllPathsAgree(cfg) && Importable(cfg, batch) && AllFromBatch(cfg, batch, h)
    ensures Clean(b, cfg, batch, b.start, StoreAfter(b, fates, h))
    ensures forall row :: row in batch && !Malformed(cfg, row) && Committed(b, fates, cfg, h, row) ==>
              Holds(cfg, StoreAfter(b, fates, h), row)
  {
    if h == [] {
    } else {
      hide Clean, Holds, Malformed, Carries, AllPathsAgree, Importable, FromBatch, AllGood, UpsertLines;
      var init, last := h[..|h| - 1], h[|h| - 1];
      StoreStaysClean(b, fates, cfg, batch, init);
      var before, db := StoreAfter(b, fates, init), StoreAfter(b, fates, h);
      if Commits(fates, |h| - 1) && AllGood(b, last.request) {
        LinesGrow(b, cfg, batch, b.start, before, last.request, |last.request.lines|);
      }
      forall row | row in batch && !Malformed(cfg, row) && Committed(b, fates, cfg, h, row)
        ensures Holds(cfg, db, row)
      {
        var n, j :| 0 <= n < |h| && Commits(fates, n) && AllGood(b, h[n].request) && Carries(cfg, h[n].request, j, row);
        if n < |h| - 1 {
          assert init[n] == h[n];
          assert Committed(b, fates, cfg, init, row);
        } else {
          CarriesInRange(cfg, last.request, j, row);
        }
      }
    }
  }

  lemma CarriesInRange(cfg: Config, request: Request, j: nat, row: Row)
    requires cfg.Valid() && Carries(cfg, request, j, row)
    ensures j < |request.lines|
  {
  }

  // ----- Acknowledged rows were committed and are good -----

  lemma AckedIsCommitted(b: Backend, fates: Fates, cfg: Config, batch: seq<Row>, h: History, a: Ack)
    requires b.Valid() && AllPathsAgree(cfg) && cfg.Valid() && !Malformed(cfg, a.row)
    requires Genuine(FaultyServer(b, fates), cfg, batch, [], h) && Evident(cfg, h, a)
    ensures Committed(b, fates, cfg, h, a.row) && Accepted(b, cfg, a.row)
  {
    hide AllPathsAgree, SingleHeader, SingleLine, Carries, Malformed, FromBatch, UpsertIds;
    var request := h[a.call].request;
    assert h[a.call].reply == FaultyServer(b, fates)(h[..a.call], request);
    assert NoIds(b.refuse(h[..a.call], request));
    assert Commits(fates, a.call) && AllGood(b, request);
    CarriedLine(cfg, request, a.pos, a.row);
    assert b.good(request.header, request.lines[a.pos]);
  }

  // ----- The theorem -----

  /** The server without faults, starting from a given store. */
  function Recovered(b: Backend, db: Db): Backend {
    b.(start := db)
  }

  lemma HandledWithin(batch: seq<Row>, o: Outcome, row: Row)
    requires Handled(o) == multiset(batch)
    ensures row in o.failed ==> row in batch
    ensures row in AckedRows(o.acks) ==> row in batch
    ensures multiset(o.failed)[row] + AckedRows(o.acks)[row] == multiset(batch)[row]
  {
    assert row in o.failed ==> row in multiset(o.failed);
    assert row in multiset(batch) <==> row in batch;
  }

  lemma {:induction false} AckedRowsOrigin(acks: seq<Ack>, row: Row) returns (i: nat)
    requires row in AckedRows(acks)
    ensures i < |acks| && acks[i].row == row
  {
    i := |acks| - 1;
    if acks[i].row != row {
      i := AckedRowsOrigin(acks[..i], row);
    }
  }

  lemma FirstPass(b: Backend, fates: Fates, cfg: Config, batch: seq<Row>, o: Outcome)
    requires b.Valid() && AllPathsAgree(cfg) && Importable(cfg, batch)
    requires Handled(o) == multiset(batch) && Justified(cfg, o)
    requires Genuine(FaultyServer(b, fates), cfg, batch, [], o.hist)
    ensures Clean(b, cfg, batch, b.start, StoreAfter(b, fates, o.hist))
    ensures Within(o.failed, batch) && AllWellFormed(cfg, o.failed)
    ensures forall row :: row in batch && !Malformed(cfg, row) && row !in o.failed ==>
              Holds(cfg, StoreAfter(b, fates, o.hist), row)
    ensures forall row :: row in AckedRows(o.acks) ==> row in batch && !Malformed(cfg, row) && Accepted(b, cfg, row)
  {
    hide Clean, Holds, Malformed, Evident, AllPathsAgree, DistinctKeys, AllKeyed, FromBatch, StoreAfter, FaultyServer,
         Committed, Accepted, Handled;
    StoreStaysClean(b, fates, cfg, batch, o.hist);
    forall row | row in AckedRows(o.acks)
      ensures row in batch && !Malformed(cfg, row) && Accepted(b, cfg, row) && Committed(b, fates, cfg, o.hist, row)
    {
      HandledWithin(batch, o, row);
      WidthMember(cfg, batch, row);
      var i := AckedRowsOrigin(o.acks, row);
      AckedIsCommitted(b, fates, cfg, batch, o.hist, o.acks[i]);
    }
    forall row | row in batch && !Malformed(cfg, row) && row !in o.failed
      ensures row in AckedRows(o.acks)
    {
      HandledWithin(batch, o, row);
      assert multiset(batch)[row] > 0;
    }
    forall i | 0 <= i < |o.failed| ensures o.failed[i] in batch && !Malformed(cfg, o.failed[i]) {
      HandledWithin(batch, o, o.failed[i]);
      WidthMember(cfg, batch, o.failed[i]);
    }
  }

  lemma SameRefused(b: Backend, cfg: Config, batch: seq<Row>, o: Outcome)
    requires cfg.Valid() && AllWellFormed(cfg, batch) && AllWellFormed(cfg, o.failed)
    requires Handled(o) == multiset(batch)
    requires forall row :: row in AckedRows(o.acks) ==> row in batch && !Malformed(cfg, row) && Accepted(b, cfg, row)
    ensures multiset(Refused(b, cfg, o.failed)) == multiset(Refused(b, cfg, batch))
  {
    hide Malformed, Accepted, Refused, Handled;
    forall row ensures multiset(Refused(b, cfg, o.failed))[row] == multiset(Refused(b, cfg, batch))[row] {
      RefusedWithin(b, cfg, o.failed, row);
      RefusedWithin(b, cfg, batch, row);
      if !Malformed(cfg, row) {
        RefusedCounts(b, cfg, o.failed, row);
        RefusedCounts(b, cfg, batch, row);
        HandledWithin(batch, o, row);
      }
    }
  }

  lemma {:induction false} RefusedWithin(b: Backend, cfg: Config, rows: seq<Row>, row: Row)
    requires cfg.Valid() && AllWellFormed(cfg, rows)
    ensures row in multiset(Refused(b, cfg, rows)) ==> !Malformed(cfg, row)
  {
    if rows != [] {
      RefusedWithin(b, cfg, rows[..|rows| - 1], row);
    }
  }

  /** Pass 1 over a connection: the worker on one batch after the other. */
  function RunBatches(server: Server, cfg: Config, batches: seq<seq<Row>>): (o: Outcome)
    requires cfg.Valid() && AnswersProgress(server)
  {
    if batches == [] then Untouched([])
    else
      var before := RunBatches(server, cfg, batches[..|batches| - 1]);
      before.Then(Execute(server, cfg, batches[|batches| - 1], false, before.hist).out)
  }

  lemma {:induction false} RunBatchesFacts(server: Server, cfg: Config, batches: seq<seq<Row>>, all: seq<Row>)
    requires cfg.Valid() && AnswersProgress(server) && AnswersWithoutHoles(server)
    requires forall i :: 0 <= i < |batches| ==> Within(batches[i], all) && NoneTooShort(cfg, batches[i])
    ensures var o := RunBatches(server, cfg, batches);
      Handled(o) == multiset(Flatten(batches)) && Justified(cfg, o) && Genuine(server, cfg, all, [], o.hist)
  {
    hide Execute, Work, Handled, Justified, Genuine, Within, NoneTooShort, AnswersProgress, AnswersWithoutHoles;
    if batches == [] {
      AllFailed([], []);
      NothingJustified(cfg, [], []);
      Unchanged(server, cfg, all, []);
      assert Untouched([]) == Outcome([], map[], [], []);
    } else {
      var n := |batches| - 1;
      RunBatchesFacts(server, cfg, batches[..n], all);
      var before := RunBatches(server, cfg, batches[..n]);
      var last := Execute(server, cfg, batches[n], false, before.hist).out;
      BatchHandledFrom(server, cfg, batches[n], before.hist);
      BatchJustified(server, cfg, batches[n], false, before.hist);
      BatchGenuineAmong(server, cfg, batches[n], all, before.hist);
      ThenHandles(before, last);
      ThenJustified(cfg, before, last);
      Chained(server, cfg, all, [], before.hist, last.hist);
      assert batches == batches[..n] + [batches[n]];
      FlattenAppend(batches[..n], [batches[n]]);
      FlattenOne(batches[n]);
    }
  }

  lemma BatchHandledFrom(server: Server, cfg: Config, batch: seq<Row>, h: History)
    requires cfg.Valid() && AnswersProgress(server) && AnswersWithoutHoles(server) && NoneTooShort(cfg, batch)
    ensures Handled(Execute(server, cfg, batch, false, h).out) == multiset(batch)
  {
    hide Work, Handled;
    WorkSettles(server, cfg, batch, |batch|, 0, h);
  }

  lemma BatchGenuineAmong(server: Server, cfg: Config, batch: seq<Row>, all: seq<Row>, h: History)
    requires cfg.Valid() && AnswersProgress(server) && Within(batch, all)
    ensures Genuine(server, cfg, all, h, Execute(server, cfg, batch, false, h).out.hist)
  {
    hide Work, Genuine;
    WorkGenuine(server, cfg, batch, all, |batch|, 0, h);
  }

  lemma BatchesWithin(cfg: Config, batches: seq<seq<Row>>, i: nat)
    requires AllPathsAgree(cfg) && Importable(cfg, Flatten(batches)) && i < |batches|
    ensures Within(batches[i], Flatten(batches)) && NoneTooShort(cfg, batches[i])
  {
    hide AllPathsAgree, TooShort;
    forall j | 0 <= j < |batches[i]|
      ensures batches[i][j] in Flatten(batches) && !TooShort(cfg, batches[i][j])
    {
      PartOfFlatten(batches, i, batches[i][j]);
      WorkerLineAgrees(cfg, batches[i][j]);
    }
  }

  /**
   Whichever calls lost their reply, and whether or not the server had committed them: after Pass 1 and
   one fault-free single-record pass over its failed rows, every good row is in the store under its id,
   nothing else has changed, no known record changed its database id, and the rows still failed are
   exactly the bad ones.
   */
  lemma LostRepliesAreHarmless(b: Backend, fates: Fates, cfg: Config, batches: seq<seq<Row>>)
    requires b.Valid() && AllPathsAgree(cfg) && Importable(cfg, Flatten(batches))
    ensures AnswersProgress(FaultyServer(b, fates))
    ensures var data := Flatten(batches);
      var first := RunBatches(FaultyServer(b, fates), cfg, batches);
      var retry := Recovered(b, StoreAfter(b, fates, first.hist));
      var second := Singles(ServerOf(retry), cfg, first.failed, []);
      var final := DbAfter(retry, second.hist);
      && (forall row :: row in data && !Malformed(cfg, row) && Accepted(b, cfg, row) ==> Holds(cfg, final, row))
      && Clean(b, cfg, data, b.start, final)
      && multiset(second.failed) == multiset(Refused(b, cfg, data))
  {
    hide Within, NoneTooShort, Handled, Justified, Genuine, AllPathsAgree, FallbackPathsAgree;
    FaultyIsHonest(b, fates);
    forall i | 0 <= i < |batches| ensures Within(batches[i], Flatten(batches)) && NoneTooShort(cfg, batches[i]) {
      BatchesWithin(cfg, batches, i);
    }
    RunBatchesFacts(FaultyServer(b, fates), cfg, batches, Flatten(batches));
    PathsPart(cfg);
    SecondPass(b, fates, cfg, Flatten(batches), RunBatches(FaultyServer(b, fates), cfg, batches));
  }

  /**
   The same for workers running at once: whatever the interleaving of their calls on the one server, and
   whichever of these lost their reply. Each worker's view of the server is its own; only the store and
   the order of the trace are shared.
   */
  lemma ThreadedLostRepliesAreHarmless(b: Backend, fates: Fates, cfg: Config, crew: Crew, trace: Trace)
    requires b.Valid() && AllPathsAgree(cfg) && Importable(cfg, Flatten(crew.batches))
    requires crew.Valid() && forall i :: 0 <= i < |crew.views| ==> AnswersWithoutHoles(crew.views[i])
    requires ServedBy(FaultyServer(b, fates), trace) && Ended(cfg, crew, trace)
    ensures var data, first := Flatten(crew.batches), Joined(cfg, crew, trace, |crew.batches|);
      var retry := Recovered(b, StoreAfter(b, fates, Whole(trace)));
      var second := Singles(ServerOf(retry), cfg, first.failed, []);
      var final := DbAfter(retry, second.hist);
      && (forall row :: row in data && !Malformed(cfg, row) && Accepted(b, cfg, row) ==> Holds(cfg, final, row))
      && Clean(b, cfg, data, b.start, final)
      && multiset(second.failed) == multiset(Refused(b, cfg, data))
  {
    hide Within, NoneTooShort, Handled, Justified, Genuine, AllPathsAgree, FallbackPathsAgree, WorkerOutcome, Own,
         AnswersWithoutHoles, AnswersProgress;
    forall i | 0 <= i < |crew.batches|
      ensures Handled(WorkerOutcome(cfg, crew, i)) == multiset(crew.batches[i])
    {
      BatchesWithin(cfg, crew.batches, i);
      WorkerSettles(cfg, crew, i);
    }
    JoinedFacts(cfg, crew, trace, |crew.batches|);
    assert crew.batches[..|crew.batches|] == crew.batches;
    TraceIsGenuine(FaultyServer(b, fates), cfg, crew, trace);
    PathsPart(cfg);
    SecondPass(b, fates, cfg, Flatten(crew.batches), Joined(cfg, crew, trace, |crew.batches|));
  }

  lemma WorkerSettles(cfg: Config, crew: Crew, i: nat)
    requires cfg.Valid() && crew.Valid() && i < |crew.batches|
    requires AnswersWithoutHoles(crew.views[i]) && NoneTooShort(cfg, crew.batches[i])
    ensures Handled(WorkerOutcome(cfg, crew, i)) == multiset(crew.batches[i])
  {
    hide Handled, Execute;
    BatchHandledFrom(crew.views[i], cfg, crew.batches[i], []);
  }

  lemma SecondPass(b: Backend, fates: Fates, cfg: Config, batch: seq<Row>, first: Outcome)
    requires b.Valid() && AllPathsAgree(cfg) && FallbackPathsAgree(cfg) && Importable(cfg, batch)
    requires Handled(first) == multiset(batch) && Justified(cfg, first)
    requires Genuine(FaultyServer(b, fates), cfg, batch, [], first.hist)
    ensures var retry := Recovered(b, StoreAfter(b, fates, first.hist));
      var second := Singles(ServerOf(retry), cfg, first.failed, []);
      var final := DbAfter(retry, second.hist);
      && (forall row :: row in batch && !Malformed(cfg, row) && Accepted(b, cfg, row) ==> Holds(cfg, final, row))
      && Clean(b, cfg, batch, b.start, final)
      && multiset(second.failed) == multiset(Refused(b, cfg, batch))
  {
    hide Clean, Holds, Malformed, AllPathsAgree, FallbackPathsAgree, DistinctKeys, AllKeyed, Accepted, Refused,
         StoreAfter,
         FaultyServer, Singles, OneByOne, ServerOf, Handled, Justified, Genuine;
    FirstPass(b, fates, cfg, batch, first);
    var db := StoreAfter(b, fates, first.hist);
    var retry := Recovered(b, db);
    assert DbAfter(retry, []) == db;
    SinglesMatch(retry, cfg, first.failed, []);
    SameGoodness(b, retry, cfg, first.failed, db);
    FailedAreRefused(b, cfg, first.failed, db);
    SinglePassGrows(b, cfg, batch, b.start, first.failed, db);
    SameRefused(b, cfg, batch, first);
    var final := OneByOne(b, cfg, first.failed, db).db;
    forall row | row in batch && !Malformed(cfg, row) && Accepted(b, cfg, row)
      ensures Holds(cfg, final, row)
    {
      if row in first.failed {
        var i :| 0 <= i < |first.failed| && first.failed[i] == row;
      }
    }
  }

  /** Loading one by one depends on what the server accepts, not on its starting store. */
  lemma {:induction false} SameGoodness(b: Backend, b': Backend, cfg: Config, rows: seq<Row>, db: Db)
    requires cfg.Valid() && AllWellFormed(cfg, rows) && db.Valid() && b.good == b'.good
    ensures OneByOne(b', cfg, rows, db) == OneByOne(b, cfg, rows, db)
  {
    if rows != [] {
      hide SingleLine, SingleHeader, Upsert, IdOf, ToXmlid;
      SameGoodness(b, b', cfg, rows[..|rows| - 1], db);
    }
  }
}
