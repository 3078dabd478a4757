/**
 The effect of Pass 1 on the store and the id map it reports, when the server has no faults, decides each
 row on its own and refuses in a way that isolates: any number of workers, any interleaving.
 */
module PassEffect {
  import opened Basics
  import opened XmlId
  import opened LoadProtocol
  import opened LoadFallback
  import opened FallbackFacts
  import opened LoadWorker
  import opened WorkerFacts
  import opened Accounting
  import opened TargetStore
  import opened FallbackRefinement
  import opened HistoryFacts
  import opened StoreFacts
  import opened RowIsolation
  import opened SharedStore
  import opened AmbiguousFaults

  // ----- Database ids stay -----

  ghost predicate IdsStay(db: Db, db': Db) {
    forall key :: key in db.named ==> key in db'.named && db'.named[key].id == db.named[key].id
  }

  lemma UpsertKeepsIds(db: Db, header: seq<string>, line: Row)
    requires db.Valid()
    ensures IdsStay(db, Upsert(db, header, line))
    ensures var key := LineKey(header, line);
      key != "" ==>
        key in Upsert(db, header, line).named && Upsert(db, header, line).named[key].id == IdOf(db, header, line)
  {
    hide LineKey;
  }

  lemma {:induction false} LinesKeepIds(db: Db, header: seq<string>, lines: seq<Row>, m: nat, n: nat)
    requires db.Valid() && m <= n <= |lines|
    ensures IdsStay(UpsertLines(db, header, lines, m), UpsertLines(db, header, lines, n))
  {
    hide Upsert;
    if m < n {
      LinesKeepIds(db, header, lines, m, n - 1);
      UpsertKeepsIds(UpsertLines(db, header, lines, n - 1), header, lines[n - 1]);
    }
  }

  lemma ApplyKeepsIds(b: Backend, db: Db, request: Request)
    requires db.Valid()
    ensures IdsStay(db, Apply(b, db, request))
  {
    hide UpsertLines, AllGood;
    LinesKeepIds(db, request.header, request.lines, 0, |request.lines|);
    assert UpsertLines(db, request.header, request.lines, 0) == db by {
      NoLines(db, request.header, request.lines);
    }
  }

  lemma NoLines(db: Db, header: seq<string>, lines: seq<Row>)
    requires db.Valid()
    ensures UpsertLines(db, header, lines, 0) == db
  {
  }

  lemma {:induction false} HistoryKeepsIds(b: Backend, h: History, n: nat)
    requires b.start.Valid() && n <= |h|
    ensures IdsStay(DbAfter(b, h[..n]), DbAfter(b, h))
  {
    hide Apply;
    if n == |h| {
      assert h[..n] == h;
    } else {
      var init := h[..|h| - 1];
      HistoryKeepsIds(b, init, n);
      assert init[..n] == h[..n];
      ApplyKeepsIds(b, DbAfter(b, init), h[|h| - 1].request);
    }
  }

  // ----- The fault-free server as one whose replies all arrive -----

  ghost predicate AppliedIn(b: Backend, cfg: Config, h: History, row: Row)
    requires cfg.Valid()
  {
    exists n, j :: 0 <= n < |h| && AllGood(b, h[n].request) && Carries(cfg, h[n].request, j, row)
  }

  ghost predicate AllFrom(cfg: Config, data: seq<Row>, h: History)
    requires cfg.Valid()
  {
    forall n :: 0 <= n < |h| ==> FromBatch(cfg, data, h[n].request)
  }

  /** The store after any history of the data's rows is clean and holds every row applied. */
  lemma {:induction false} StoreHoldsApplied(b: Backend, cfg: Config, data: seq<Row>, h: History)
    requires b.start.Valid() && AllPathsAgree(cfg) && Importable(cfg, data) && AllFrom(cfg, data, h)
    ensures Clean(b, cfg, data, b.start, DbAfter(b, h))
    ensures forall row :: row in data && !Malformed(cfg, row) && AppliedIn(b, cfg, h, row) ==>
            Holds(cfg, DbAfter(b, h), row)
  {
    if h == [] {
    } else {
      hide Clean, Holds, Malformed, Carries, AllPathsAgree, Importable, FromBatch, AllGood, UpsertLines;
      var init, last := h[..|h| - 1], h[|h| - 1];
      StoreHoldsApplied(b, cfg, data, init);
      var before, db := DbAfter(b, init), DbAfter(b, h);
      if AllGood(b, last.request) {
        LinesGrow(b, cfg, data, b.start, before, last.request, |last.request.lines|);
      }
      forall row | row in data && !Malformed(cfg, row) && AppliedIn(b, cfg, h, row) ensures Holds(cfg, db, row) {
        var n, j :| 0 <= n < |h| && AllGood(b, h[n].request) && Carries(cfg, h[n].request, j, row);
        if n < |h| - 1 {
          assert init[n] == h[n];
          assert AppliedIn(b, cfg, init, row);
        } else {
          CarryInRange(cfg, last.request, j, row);
        }
      }
    }
  }

  lemma CarryInRange(cfg: Config, request: Request, j: nat, row: Row)
    requires cfg.Valid() && Carries(cfg, request, j, row)
    ensures j < |request.lines|
  {
  }

  /** The id an upsert gives a line in the middle of a history is in the store at its end. */
  lemma LineIdStays(b: Backend, h: History, n: nat, pos: nat)
    requires b.start.Valid() && n < |h| && AllGood(b, h[n].request) && pos < |h[n].request.lines|
    ensures var request, before := h[n].request, DbAfter(b, h[..n]);
      var key := LineKey(request.header, request.lines[pos]);
      key != "" ==>
        && key in DbAfter(b, h).named
        && DbAfter(b, h).named[key].id == IdOf(UpsertLines(before, request.header, request.lines, pos), request.header,
             request.lines[pos])
  {
    hide UpsertLines, Upsert, IdOf, DbAfter, LineKey, AllGood;
    var request, before := h[n].request, DbAfter(b, h[..n]);
    UpsertKeepsIds(UpsertLines(before, request.header, request.lines, pos), request.header, request.lines[pos]);
    OneLineMore(before, request.header, request.lines, pos);
    LinesKeepIds(before, request.header, request.lines, pos + 1, |request.lines|);
    OneMore(b, h[..n], h[n]);
    assert h[..n] + [h[n]] == h[..n + 1];
    HistoryKeepsIds(b, h, n + 1);
  }

  /** An acknowledged row was in a request that the server applied, and has the id that the upsert gave. */
  lemma AckedLine(b: Backend, cfg: Config, data: seq<Row>, h: History, a: Ack)
    requires b.Valid() && AllPathsAgree(cfg) && cfg.Valid() && !Malformed(cfg, a.row)
    requires Genuine(ServerOf(b), cfg, data, [], h) && Evident(cfg, h, a)
    ensures var request := h[a.call].request;
      && AllGood(b, request) && a.pos < |request.lines|
      && request.header == SingleHeader(cfg) && request.lines[a.pos] == SingleLine(cfg, a.row)
      && a.id == IdOf(UpsertLines(DbAfter(b, h[..a.call]), request.header, request.lines, a.pos), request.header,
           request.lines[a.pos])
      && Accepted(b, cfg, a.row) && AppliedIn(b, cfg, h, a.row)
  {
    hide AllPathsAgree, SingleHeader, SingleLine, Carries, Malformed, FromBatch, UpsertLines, IdOf, DbAfter;
    var request := h[a.call].request;
    assert h[a.call].reply == ServerOf(b)(h[..a.call], request);
    assert NoIds(b.refuse(h[..a.call], request));
    assert AllGood(b, request);
    CarriedLine(cfg, request, a.pos, a.row);
    assert b.good(request.header, request.lines[a.pos]);
  }

  /** The id an answer gives for a row is the id the row keeps in the store. */
  lemma AckedIdIsStored(b: Backend, cfg: Config, data: seq<Row>, h: History, a: Ack)
    requires b.Valid() && AllPathsAgree(cfg) && Importable(cfg, data) && a.row in data
    requires Genuine(ServerOf(b), cfg, data, [], h) && Evident(cfg, h, a)
    ensures !Malformed(cfg, a.row) && Accepted(b, cfg, a.row) && AppliedIn(b, cfg, h, a.row)
    ensures var key, db := Key(cfg, a.row), DbAfter(b, h); key in db.named && db.named[key].id == a.id
  {
    hide AllPathsAgree, SingleHeader, SingleLine, FromBatch, UpsertLines, AllKeyed, DistinctKeys, ToXmlid, IdOf,
         DbAfter, AllGood, Genuine, Accepted;
    WidthMember(cfg, data, a.row);
    PathsPart(cfg);
    AckedLine(b, cfg, data, h, a);
    LineHasKey(cfg, a.row);
    KeyedMember(cfg, data, a.row);
    LineIdStays(b, h, a.call, a.pos);
  }

  lemma OneLineMore(db: Db, header: seq<string>, lines: seq<Row>, n: nat)
    requires db.Valid() && n < |lines|
    ensures UpsertLines(db, header, lines, n + 1) == Upsert(UpsertLines(db, header, lines, n), header, lines[n])
  {
  }

  // ----- Pass 1 -----

  /** The id map is exactly the accepted rows with their ids in the store, and every accepted row is in the store. */
  ghost predicate Loaded(b: Backend, cfg: Config, data: seq<Row>, db: Db, idMap: map<string, int>)
    requires cfg.Valid()
  {
    && (forall row :: IsGoodRow(b, cfg, data, row) ==> Holds(cfg, db, row) && Key(cfg, row) in idMap)
    && (forall key :: key in idMap ==>
          key in db.named && idMap[key] == db.named[key].id
          && exists row :: IsGoodRow(b, cfg, data, row) && Key(cfg, row) == key)
  }

  /** `batch` is what this outcome is about, `data` everything that was sent meanwhile. */
  lemma IsolatedPassLoads(b: Backend, cfg: Config, data: seq<Row>, batch: seq<Row>, o: Outcome)
    requires b.Valid() && AllPathsAgree(cfg) && Importable(cfg, data) && Within(batch, data)
    requires Isolated(b, cfg, batch, o) && Justified(cfg, o) && Genuine(ServerOf(b), cfg, data, [], o.hist)
    ensures Loaded(b, cfg, batch, DbAfter(b, o.hist), o.idMap) && Clean(b, cfg, data, b.start, DbAfter(b, o.hist))
    ensures forall row :: row in o.failed <==> row in batch && BadRow(b, cfg, row)
  {
    hide AllPathsAgree, Accepted, DistinctKeys, AllKeyed, DbAfter, Handled, Evident, FromBatch, Clean, Holds, ToXmlid,
         KeySet, AppliedIn;
    var db := DbAfter(b, o.hist);
    assert AllFrom(cfg, data, o.hist);
    StoreHoldsApplied(b, cfg, data, o.hist);
    forall i | 0 <= i < |o.acks|
      ensures IsGoodRow(b, cfg, batch, o.acks[i].row) && Holds(cfg, db, o.acks[i].row)
      ensures Key(cfg, o.acks[i].row) in db.named && db.named[Key(cfg, o.acks[i].row)].id == o.acks[i].id
    {
      AckHandled(batch, o, i);
      AckedIdIsStored(b, cfg, data, o.hist, o.acks[i]);
    }
    forall row | IsGoodRow(b, cfg, batch, row) ensures Holds(cfg, db, row) && Key(cfg, row) in o.idMap {
      var i := GoodIsAcked(b, cfg, batch, o, row);
      NothingInNoKeys(cfg, Key(cfg, row));
    }
    forall key | key in o.idMap
      ensures key in db.named && o.idMap[key] == db.named[key].id
      ensures exists row :: IsGoodRow(b, cfg, batch, row) && Key(cfg, row) == key
    {
      assert CreditedBy(cfg, o.acks, key, o.idMap[key]);
    }
    forall row ensures row in o.failed <==> row in batch && BadRow(b, cfg, row) {
      FailedIsBad(b, cfg, batch, o, row);
    }
  }

  lemma NothingInNoKeys(cfg: Config, key: string)
    ensures key !in KeySet(cfg, [])
  {
  }

  lemma AckHandled(data: seq<Row>, o: Outcome, i: nat)
    requires Handled(o) == multiset(data) && i < |o.acks|
    ensures o.acks[i].row in data
  {
    AckCounted(o.acks, i);
    assert o.acks[i].row in multiset(data);
  }

  lemma {:induction false} AckCounted(acks: seq<Ack>, i: nat)
    requires i < |acks|
    ensures acks[i].row in AckedRows(acks)
  {
    if i < |acks| - 1 {
      AckCounted(acks[..|acks| - 1], i);
    }
  }

  lemma {:induction false} AckFound(acks: seq<Ack>, row: Row) returns (i: nat)
    requires row in AckedRows(acks)
    ensures i < |acks| && acks[i].row == row
  {
    i := |acks| - 1;
    if acks[i].row != row {
      i := AckFound(acks[..i], row);
    }
  }

  lemma GoodIsAcked(b: Backend, cfg: Config, data: seq<Row>, o: Outcome, row: Row) returns (i: nat)
    requires cfg.Valid() && Handled(o) == multiset(data) && OnlyBad(b, cfg, o.failed) && IsGoodRow(b, cfg, data, row)
    ensures i < |o.acks| && o.acks[i].row == row
  {
    hide AckedRows, Malformed, Accepted;
    assert row in multiset(data);
    assert row in multiset(o.failed) || row in AckedRows(o.acks);
    if row in o.failed {
      assert false;
    }
    i := AckFound(o.acks, row);
  }

  lemma FailedIsBad(b: Backend, cfg: Config, data: seq<Row>, o: Outcome, row: Row)
    requires cfg.Valid() && Handled(o) == multiset(data) && OnlyBad(b, cfg, o.failed)
    requires forall i :: 0 <= i < |o.acks| ==> IsGoodRow(b, cfg, data, o.acks[i].row)
    ensures row in o.failed <==> row in data && BadRow(b, cfg, row)
  {
    hide AckedRows, Malformed, Accepted;
    if row in o.failed {
      var k :| 0 <= k < |o.failed| && o.failed[k] == row;
      assert BadRow(b, cfg, o.failed[k]);
      assert row in multiset(data);
    }
    if row in data && BadRow(b, cfg, row) {
      assert row in multiset(data);
      if row in AckedRows(o.acks) {
        var i := AckFound(o.acks, row);
      }
      assert row in multiset(o.failed);
    }
  }

  // ----- A crew -----

  /** Every worker sees a server that decides as `b` does. */
  ghost predicate SeesRowwise(b: Backend, crew: Crew) {
    |crew.views| == |crew.batches| && forall i :: 0 <= i < |crew.views| ==> Rowwise(b, crew.views[i])
  }

  /** The id map of the pass, merged in any order of completion. */
  ghost predicate Merges(cfg: Config, crew: Crew, idMap: map<string, int>)
    requires cfg.Valid() && crew.Valid()
  {
    && (forall key :: key in idMap ==> exists i: nat :: Contributes(cfg, crew, i, key, idMap[key]))
    && (forall i, key :: 0 <= i < |crew.batches| && key in WorkerOutcome(cfg, crew, i).idMap ==> key in idMap)
  }

  ghost predicate Contributes(cfg: Config, crew: Crew, i: nat, key: string, id: int)
    requires cfg.Valid() && crew.Valid()
  {
    i < |crew.batches| && key in WorkerOutcome(cfg, crew, i).idMap && WorkerOutcome(cfg, crew, i).idMap[key] == id
  }

  lemma SliceOf(batches: seq<seq<Row>>, i: nat) returns (at: nat)
    requires i < |batches|
    ensures at + |batches[i]| <= |Flatten(batches)| && Flatten(batches)[at..at + |batches[i]|] == batches[i]
  {
    FlattenAppend(batches[..i], batches[i..]);
    assert batches[..i] + batches[i..] == batches;
    at := |Flatten(batches[..i])|;
    assert Flatten(batches) == Flatten(batches[..i]) + (batches[i] + Flatten(batches[i..][1..]));
  }

  lemma SliceIsImportable(cfg: Config, data: seq<Row>, at: nat, n: nat)
    requires Importable(cfg, data) && at + n <= |data|
    ensures Importable(cfg, data[at..at + n])
  {
    hide Malformed, ToXmlid;
    var part := data[at..at + n];
    assert forall j :: 0 <= j < n ==> part[j] == data[at + j];
  }

  lemma PartIsImportable(cfg: Config, batches: seq<seq<Row>>, i: nat)
    requires Importable(cfg, Flatten(batches)) && i < |batches|
    ensures Importable(cfg, batches[i])
  {
    hide Importable;
    var at := SliceOf(batches, i);
    SliceIsImportable(cfg, Flatten(batches), at, |batches[i]|);
  }

  /** One worker of the crew, seen in the whole trace. */
  lemma WorkerLoads(b: Backend, cfg: Config, crew: Crew, trace: Trace, i: nat)
    requires b.Valid() && AllPathsAgree(cfg) && Importable(cfg, Flatten(crew.batches)) && SeesRowwise(b, crew)
    requires crew.Valid()
    requires ServedBy(ServerOf(b), trace) && Ended(cfg, crew, trace) && i < |crew.batches|
    ensures var db, o := DbAfter(b, Whole(trace)), WorkerOutcome(cfg, crew, i);
      && Loaded(b, cfg, crew.batches[i], db, o.idMap) && Clean(b, cfg, Flatten(crew.batches), b.start, db)
      && forall row :: row in o.failed <==> row in crew.batches[i] && BadRow(b, cfg, row)
  {
    hide AllPathsAgree, Importable, Execute, Handled, OnlyBad, BadRow, Justified, Genuine, Own, Whole, ServerOf,
         DbAfter, Loaded, Clean, Within, AnswersProgress, Rowwise;
    ImportableIsValid(cfg, Flatten(crew.batches));
    var data, batch, r := Flatten(crew.batches), crew.batches[i], InTrace(cfg, crew, trace, i);
    PartIsImportable(cfg, crew.batches, i);
    BatchIsolates(b, crew.views[i], cfg, batch, []);
    InTraceJustified(cfg, crew, trace, i);
    InTraceCredited(cfg, crew, trace, i);
    assert Isolated(b, cfg, batch, r);
    TraceIsGenuine(ServerOf(b), cfg, crew, trace);
    BatchIsWithin(crew.batches, i);
    IsolatedPassLoads(b, cfg, data, batch, r);
  }

  lemma InTraceCredited(cfg: Config, crew: Crew, trace: Trace, i: nat)
    requires cfg.Valid() && crew.Valid() && i < |crew.batches| && Credited(cfg, WorkerOutcome(cfg, crew, i), [])
    ensures Credited(cfg, InTrace(cfg, crew, trace, i), [])
  {
    hide Execute, Own, Whole, AnswersProgress, ToXmlid, KeySet, Place;
    var o, r := WorkerOutcome(cfg, crew, i), InTrace(cfg, crew, trace, i);
    forall j | 0 <= j < |r.acks| ensures r.acks[j].row == o.acks[j].row {
    }
  }

  /**
   Pass 1 by any number of workers on one store, in any interleaving: every accepted row is in the store
   and in the id map with its stored id, the id map has nothing else, exactly the bad rows fail, and
   nothing else in the store has changed.
   */
  lemma CrewLoads(b: Backend, cfg: Config, crew: Crew, trace: Trace, idMap: map<string, int>)
    requires b.Valid() && AllPathsAgree(cfg) && Importable(cfg, Flatten(crew.batches)) && SeesRowwise(b, crew)
    requires crew.Valid()
    requires ServedBy(ServerOf(b), trace) && Ended(cfg, crew, trace) && Merges(cfg, crew, idMap)
    ensures Loaded(b, cfg, Flatten(crew.batches), DbAfter(b, Whole(trace)), idMap)
    ensures forall row :: (exists i :: 0 <= i < |crew.batches| && row in WorkerOutcome(cfg, crew, i).failed)
                     <==> row in Flatten(crew.batches) && BadRow(b, cfg, row)
  {
    hide AllPathsAgree, Importable, WorkerOutcome, BadRow, Own, Whole, ServerOf, DbAfter, Clean, AnswersProgress,
         Rowwise, Loaded, ServedBy, Ended, Merges;
    var data, db := Flatten(crew.batches), DbAfter(b, Whole(trace));
    ImportableIsValid(cfg, data);
    forall i | 0 <= i < |crew.batches|
      ensures Loaded(b, cfg, crew.batches[i], db, WorkerOutcome(cfg, crew, i).idMap) && Within(crew.batches[i], data)
      ensures forall row :: row in WorkerOutcome(cfg, crew, i).failed <==> row in crew.batches[i] && BadRow(b, cfg, row)
    {
      WorkerLoads(b, cfg, crew, trace, i);
      BatchIsWithin(crew.batches, i);
    }
    PartsLoaded(b, cfg, crew, db, idMap);
    forall row | row in data && BadRow(b, cfg, row)
      ensures exists i :: 0 <= i < |crew.batches| && row in WorkerOutcome(cfg, crew, i).failed
    {
      var i := BatchOf(crew.batches, row);
    }
  }

  lemma PartsLoaded(b: Backend, cfg: Config, crew: Crew, db: Db, idMap: map<string, int>)
    requires cfg.Valid() && crew.Valid() && Merges(cfg, crew, idMap)
    requires forall i :: 0 <= i < |crew.batches| ==>
               Loaded(b, cfg, crew.batches[i], db, WorkerOutcome(cfg, crew, i).idMap)
                   && Within(crew.batches[i], Flatten(crew.batches))
    ensures Loaded(b, cfg, Flatten(crew.batches), db, idMap)
  {
    hide WorkerOutcome, Accepted, AnswersProgress, Holds, ToXmlid, Loaded, Within, Malformed;
    var data := Flatten(crew.batches);
    forall row | IsGoodRow(b, cfg, data, row) ensures HasEntry(cfg, db, idMap, row) {
      var i := BatchOf(crew.batches, row);
      EntryOfPart(b, cfg, crew.batches[i], data, db, WorkerOutcome(cfg, crew, i).idMap, row);
    }
    forall key | key in idMap ensures EntryIsStored(b, cfg, data, db, key, idMap[key]) {
      var i: nat :| Contributes(cfg, crew, i, key, idMap[key]);
      StoredInPart(b, cfg, crew.batches[i], data, db, WorkerOutcome(cfg, crew, i).idMap, key);
    }
    FromEntries(b, cfg, data, db, idMap);
  }

  ghost predicate HasEntry(cfg: Config, db: Db, idMap: map<string, int>, row: Row) {
    cfg.Valid() && !Malformed(cfg, row) && Holds(cfg, db, row) && Key(cfg, row) in idMap
  }

  ghost predicate EntryIsStored(b: Backend, cfg: Config, data: seq<Row>, db: Db, key: string, id: int)
    requires cfg.Valid()
  {
    key in db.named && id == db.named[key].id && exists row :: IsGoodRow(b, cfg, data, row) && Key(cfg, row) == key
  }

  lemma FromEntries(b: Backend, cfg: Config, data: seq<Row>, db: Db, idMap: map<string, int>)
    requires cfg.Valid()
    requires forall row :: IsGoodRow(b, cfg, data, row) ==> HasEntry(cfg, db, idMap, row)
    requires forall key :: key in idMap ==> EntryIsStored(b, cfg, data, db, key, idMap[key])
    ensures Loaded(b, cfg, data, db, idMap)
  {
    hide Accepted, Holds, ToXmlid;
  }

  lemma EntryOfPart(b: Backend, cfg: Config, batch: seq<Row>, data: seq<Row>, db: Db, part: map<string, int>, row: Row)
    requires cfg.Valid() && Loaded(b, cfg, batch, db, part) && row in batch && IsGoodRow(b, cfg, data, row)
    ensures HasEntry(cfg, db, part, row)
  {
    hide Accepted, Holds, ToXmlid;
    assert IsGoodRow(b, cfg, batch, row);
  }

  lemma StoredInPart(b: Backend, cfg: Config, batch: seq<Row>, data: seq<Row>, db: Db, part: map<string, int>,
                     key: string)
    requires cfg.Valid() && Loaded(b, cfg, batch, db, part) && Within(batch, data) && key in part
    ensures EntryIsStored(b, cfg, data, db, key, part[key])
  {
    hide Accepted, Holds, ToXmlid;
    var row :| IsGoodRow(b, cfg, batch, row) && Key(cfg, row) == key;
    assert IsGoodRow(b, cfg, data, row);
  }

  lemma {:induction false} BatchOf(batches: seq<seq<Row>>, row: Row) returns (i: nat)
    requires row in Flatten(batches)
    ensures i < |batches| && row in batches[i]
  {
    if row in batches[0] {
      i := 0;
    } else {
      i := BatchOf(batches[1..], row);
      i := i + 1;
    }
  }

  // ----- One connection, batch after batch -----

  lemma {:induction false} RunBatchesIsolate(b: Backend, server: Server, cfg: Config, batches: seq<seq<Row>>)
    requires Rowwise(b, server) && AnswersProgress(server) && AllPathsAgree(cfg) && cfg.Valid()
    requires forall i :: 0 <= i < |batches| ==> Importable(cfg, batches[i])
    ensures var o := RunBatches(server, cfg, batches); OnlyBad(b, cfg, o.failed) && Credited(cfg, o, [])
  {
    hide Execute, BadRow, Credited, Importable, AllPathsAgree, Rowwise, AnswersProgress, Handled;
    if batches == [] {
      NothingCredited(cfg, [], []);
      assert Untouched([]) == Outcome([], map[], [], []);
    } else {
      var n := |batches| - 1;
      RunBatchesIsolate(b, server, cfg, batches[..n]);
      var before := RunBatches(server, cfg, batches[..n]);
      BatchIsolates(b, server, cfg, batches[n], before.hist);
      var none: seq<Ack> := [];
      ThenCredited(cfg, before, none, Execute(server, cfg, batches[n], false, before.hist).out, none);
      assert none + none == none;
    }
  }

  /** The same for a single connection. */
  lemma RunBatchesLoad(b: Backend, cfg: Config, batches: seq<seq<Row>>)
    requires Isolating(b) && AllPathsAgree(cfg) && Importable(cfg, Flatten(batches))
    ensures AnswersProgress(ServerOf(b))
    ensures var data, o := Flatten(batches), RunBatches(ServerOf(b), cfg, batches);
      && Loaded(b, cfg, data, DbAfter(b, o.hist), o.idMap) && Clean(b, cfg, data, b.start, DbAfter(b, o.hist))
      && forall row :: row in o.failed <==> row in data && BadRow(b, cfg, row)
  {
    hide AllPathsAgree, Importable, RunBatches, Handled, OnlyBad, BadRow, Justified, Genuine, ServerOf, DbAfter, Loaded,
         Clean, NoneTooShort, AnswersProgress, AnswersWithoutHoles, LeftOutStaysOut, Rowwise;
    StoreIsRowwise(b);
    RowwiseIsHonest(b, ServerOf(b));
    var data := Flatten(batches);
    assert cfg.Valid() by { ImportableIsValid(cfg, data); }
    forall i | 0 <= i < |batches|
      ensures Importable(cfg, batches[i]) && Within(batches[i], data) && NoneTooShort(cfg, batches[i])
    {
      PartIsImportable(cfg, batches, i);
      BatchesWithin(cfg, batches, i);
    }
    RunBatchesFacts(ServerOf(b), cfg, batches, data);
    RunBatchesIsolate(b, ServerOf(b), cfg, batches);
    assert Within(data, data);
    IsolatedPassLoads(b, cfg, data, data, RunBatches(ServerOf(b), cfg, batches));
  }

  lemma ImportableIsValid(cfg: Config, data: seq<Row>)
    requires Importable(cfg, data)
    ensures cfg.Valid() && AllWellFormed(cfg, data)
  {
  }

  // ----- Every history is a sequence of row upserts -----

  ghost predicate RowNumbers(data: seq<Row>, ks: seq<nat>) {
    forall i :: 0 <= i < |ks| ==> ks[i] < |data|
  }

  function LoadRow(b: Backend, cfg: Config, db: Db, row: Row): (r: Db)
    requires cfg.Valid() && !Malformed(cfg, row) && db.Valid()
    ensures r.Valid()
  {
    if Accepted(b, cfg, row) then Upsert(db, SingleHeader(cfg), SingleLine(cfg, row)) else db
  }

  ghost function LoadAll(b: Backend, cfg: Config, data: seq<Row>, db: Db, ks: seq<nat>): (r: Db)
    requires cfg.Valid() && AllWellFormed(cfg, data) && RowNumbers(data, ks) && db.Valid()
    ensures r.Valid()
  {
    if ks == [] then db else LoadRow(b, cfg, LoadAll(b, cfg, data, db, ks[..|ks| - 1]), data[ks[|ks| - 1]])
  }

  lemma LoadAllExtends(b: Backend, cfg: Config, data: seq<Row>, db: Db, ks: seq<nat>, k: nat)
    requires cfg.Valid() && AllWellFormed(cfg, data) && RowNumbers(data, ks) && db.Valid() && k < |data|
    ensures RowNumbers(data, ks + [k])
    ensures LoadAll(b, cfg, data, db, ks + [k]) == LoadRow(b, cfg, LoadAll(b, cfg, data, db, ks), data[k])
  {
    assert (ks + [k])[..|ks|] == ks;
  }

  /** Applying one line of a request is loading the row it carries. */
  lemma LineAsLoad(b: Backend, cfg: Config, data: seq<Row>, db: Db, ks: seq<nat>, request: Request, n: nat)
    returns (k: nat)
    requires AllPathsAgree(cfg) && Importable(cfg, data) && RowNumbers(data, ks) && db.Valid()
    requires FromBatch(cfg, data, request) && AllGood(b, request) && n < |request.lines|
    ensures k < |data| && RowNumbers(data, ks + [k])
    ensures LoadAll(b, cfg, data, db, ks + [k])
            == Upsert(LoadAll(b, cfg, data, db, ks), request.header, request.lines[n])
  {
    hide LoadAll, AllPathsAgree, Importable, FromBatch, AllGood, Upsert, SingleHeader, SingleLine, Malformed,
         Accepted, RowNumbers;
    ImportableIsValid(cfg, data);
    var row := CarriedGoodRow(b, cfg, data, request, n);
    k :| 0 <= k < |data| && data[k] == row;
    LoadAllExtends(b, cfg, data, db, ks, k);
  }

  /** A request of the data's rows that the server applies is a sequence of row upserts. */
  lemma {:induction false} LinesAsLoads(b: Backend, cfg: Config, data: seq<Row>, db: Db, ks: seq<nat>, request: Request,
                                        n: nat)
    returns (ks': seq<nat>)
    requires AllPathsAgree(cfg) && Importable(cfg, data) && RowNumbers(data, ks) && db.Valid()
    requires FromBatch(cfg, data, request) && AllGood(b, request) && n <= |request.lines|
    ensures RowNumbers(data, ks')
    ensures LoadAll(b, cfg, data, db, ks')
            == UpsertLines(LoadAll(b, cfg, data, db, ks), request.header, request.lines, n)
  {
    hide LoadAll, AllPathsAgree, FromBatch, AllGood, UpsertLines, Upsert, Importable, RowNumbers, Malformed;
    ImportableIsValid(cfg, data);
    if n == 0 {
      NoLines(LoadAll(b, cfg, data, db, ks), request.header, request.lines);
      ks' := ks;
    } else {
      var init := LinesAsLoads(b, cfg, data, db, ks, request, n - 1);
      var k := LineAsLoad(b, cfg, data, db, init, request, n - 1);
      OneLineMore(LoadAll(b, cfg, data, db, ks), request.header, request.lines, n - 1);
      ks' := init + [k];
    }
  }

  lemma RequestAsLoads(b: Backend, cfg: Config, data: seq<Row>, db: Db, ks: seq<nat>, request: Request)
    returns (ks': seq<nat>)
    requires AllPathsAgree(cfg) && Importable(cfg, data) && RowNumbers(data, ks) && db.Valid()
    requires FromBatch(cfg, data, request)
    ensures RowNumbers(data, ks') && LoadAll(b, cfg, data, db, ks') == Apply(b, LoadAll(b, cfg, data, db, ks), request)
  {
    hide LoadAll, AllPathsAgree, FromBatch, AllGood, UpsertLines;
    if AllGood(b, request) {
      ks' := LinesAsLoads(b, cfg, data, db, ks, request, |request.lines|);
    } else {
      ks' := ks;
    }
  }

  /** Wherever the pass is cut off, the store is that of loading some rows one by one. */
  lemma {:induction false} HistoryAsLoads(b: Backend, cfg: Config, data: seq<Row>, h: History) returns (ks: seq<nat>)
    requires b.start.Valid() && AllPathsAgree(cfg) && Importable(cfg, data) && AllFrom(cfg, data, h)
    ensures RowNumbers(data, ks) && LoadAll(b, cfg, data, b.start, ks) == DbAfter(b, h)
  {
    if h == [] {
      ks := [];
    } else {
      hide LoadAll, AllPathsAgree, Importable, FromBatch, Apply;
      ImportableIsValid(cfg, data);
      var init := HistoryAsLoads(b, cfg, data, h[..|h| - 1]);
      ks := RequestAsLoads(b, cfg, data, b.start, init, h[|h| - 1].request);
    }
  }
}
