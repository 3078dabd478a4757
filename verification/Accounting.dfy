/** From settlement to the counts of the run summary: created + failed against total. */
module Accounting {
  import opened Basics
  import opened XmlId
  import opened LoadProtocol
  import opened LoadFallback
  import opened LoadWorker
  import opened FallbackFacts
  import opened WorkerFacts

  // ----- When an acknowledged row is sure to be in the id map -----

  /** An exchange whose non-empty answer left out the line of this single-line request. */
  ghost predicate LeavesOut(e: Exchange, request: Request) {
    && e.reply.Answer? && e.reply.ids != []
    && |request.lines| == 1 && e.request.header == request.header
    && exists i :: 0 <= i < |e.request.lines| && e.request.lines[i] == request.lines[0] && !Acked(e.reply.ids, i)
  }

  /** A line that this server's last answer left out fails when it is sent alone right after. */
  ghost predicate StaysOut(server: Server, h: History, request: Request) {
    h != [] && h[|h| - 1].reply == server(h[..|h| - 1], h[|h| - 1].request) && LeavesOut(h[|h| - 1], request) ==>
      !SingleLoaded(server(h, request))
  }

  ghost predicate LeftOutStaysOut(server: Server) {
    forall h: History, request: Request :: StaysOut(server, h, request)
  }

  predicate Keyed(cfg: Config, row: Row) {
    cfg.uid < |row.cells| && Key(cfg, row) != ""
  }

  predicate AllKeyed(cfg: Config, rows: seq<Row>) {
    forall i :: 0 <= i < |rows| ==> Keyed(cfg, rows[i])
  }

  /** The sanitised ids of the acknowledged rows. */
  function KeySet(cfg: Config, acks: seq<Ack>): set<string> {
    if acks == [] then {}
    else
      var init, last := KeySet(cfg, acks[..|acks| - 1]), acks[|acks| - 1];
      if cfg.uid < |last.row.cells| then init + {Key(cfg, last.row)} else init
  }

  /**
   The id map against the acknowledgements: each acknowledged row has its entry or was created by a
   single load whose id map was dropped, and entries and dropped loads together are no more than those.
   */
  predicate Credited(cfg: Config, o: Outcome, dropped: seq<Ack>) {
    && (forall i :: 0 <= i < |o.acks| ==>
          cfg.uid < |o.acks[i].row.cells|
              && (Key(cfg, o.acks[i].row) in o.idMap || Key(cfg, o.acks[i].row) in KeySet(cfg, dropped)))
    && |o.idMap| + |dropped| <= |o.acks|
  }

  lemma {:induction false} MapSizes(a: map<string, int>, b: map<string, int>)
    ensures |a + b| <= |a| + |b|
  {
    assert (a + b).Keys == a.Keys + b.Keys;
    assert |a + b| == |(a + b).Keys| && |a.Keys| == |a| && |b.Keys| == |b|;
  }

  lemma {:induction false} KeySetAppend(cfg: Config, a: seq<Ack>, b: seq<Ack>)
    ensures KeySet(cfg, a + b) == KeySet(cfg, a) + KeySet(cfg, b)
  {
    hide Key;
    if b == [] {
      assert a + b == a;
    } else {
      assert (a + b)[..|a + b| - 1] == a + b[..|b| - 1];
      KeySetAppend(cfg, a, b[..|b| - 1]);
    }
  }

  lemma ThenCredited(cfg: Config, a: Outcome, da: seq<Ack>, b: Outcome, db: seq<Ack>)
    requires Credited(cfg, a, da) && Credited(cfg, b, db)
    ensures Credited(cfg, a.Then(b), da + db)
  {
    hide ToXmlid, KeySet;
    KeySetAppend(cfg, da, db);
    MapSizes(a.idMap, b.idMap);
  }

  lemma {:induction false} CreditsAll(cfg: Config, h: History, acks: seq<Ack>, blanksToo: bool)
    requires forall i :: 0 <= i < |acks| ==> cfg.uid < |acks[i].row.cells| && (blanksToo || Keyed(cfg, acks[i].row))
    ensures Credited(cfg, Outcome(h, Credits(cfg, acks, blanksToo), [], acks), [])
  {
    hide ToXmlid;
    if acks != [] {
      CreditsAll(cfg, h, acks[..|acks| - 1], blanksToo);
    }
  }

  /** Failed rows do not matter for the credits. */
  lemma FailuresAside(cfg: Config, o: Outcome, failed: seq<Row>, dropped: seq<Ack>)
    requires Credited(cfg, o, dropped)
    ensures Credited(cfg, o.(failed := failed), dropped)
  {
  }

  lemma {:induction false} SinglesCredit(server: Server, cfg: Config, rows: seq<Row>, h: History)
    requires cfg.Valid()
    ensures Credited(cfg, Singles(server, cfg, rows, h), [])
  {
    if rows == [] {
    } else {
      hide Singles, Credited;
      var init, last := rows[..|rows| - 1], rows[|rows| - 1];
      assert rows == init + [last];
      SinglesCredit(server, cfg, init, h);
      SinglesExtend(server, cfg, init, last, h);
      var a := Singles(server, cfg, init, h);
      SingleCredits(server, cfg, last, a.hist);
      ThenCredited(cfg, a, [], Single(server, cfg, last, a.hist), []);
    }
  }

  lemma SingleCredits(server: Server, cfg: Config, row: Row, h: History)
    requires cfg.Valid()
    ensures Credited(cfg, Single(server, cfg, row, h), [])
  {
    hide ToXmlid, SingleRequest;
  }

  predicate IsLeftOut(rows: seq<Row>, ids: seq<Option<int>>, row: Row) {
    exists i :: 0 <= i < |rows| && rows[i] == row && !Acked(ids, i)
  }

  lemma {:induction false} MissingWasLeftOut(rows: seq<Row>, ids: seq<Option<int>>, n: nat, j: nat)
    requires n <= |rows| && j < |Missing(rows, ids, n)|
    ensures IsLeftOut(rows, ids, Missing(rows, ids, n)[j])
  {
    if j < |Missing(rows, ids, n - 1)| {
      MissingWasLeftOut(rows, ids, n - 1, j);
    } else {
      assert rows[n - 1] == Missing(rows, ids, n)[j];
    }
  }

  /** The single load after a partial answer acknowledges nothing, so dropping its id map loses nothing. */
  lemma LeftOutRowFails(server: Server, cfg: Config, valid: seq<Row>, h: History)
    requires LeftOutStaysOut(server) && FallbackPathsAgree(cfg) && AllWellFormed(cfg, valid)
    requires var reply := server(h, BisectRequest(cfg, valid));
      reply.Answer? && reply.ids != [] && |Missing(valid, reply.ids, |valid|)| == 1
    ensures var reply := server(h, BisectRequest(cfg, valid));
      Singles(server, cfg, Missing(valid, reply.ids, |valid|), h + [Exchange(BisectRequest(cfg, valid), reply)]).acks
          == []
  {
    hide FallbackLine, FallbackHeader, SingleLine, SingleHeader, Missing, ToXmlid;
    var request := BisectRequest(cfg, valid);
    var reply := server(h, request);
    var e := Exchange(request, reply);
    var missing := Missing(valid, reply.ids, |valid|);
    var row := missing[0];
    MissingWasLeftOut(valid, reply.ids, |valid|, 0);
    var i :| 0 <= i < |valid| && valid[i] == row && !Acked(reply.ids, i);
    SameLine(cfg, row);
    var single := SingleRequest(cfg, row);
    assert request.lines[i] == single.lines[0] && LeavesOut(e, single);
    assert (h + [e])[|h + [e]| - 1] == e && (h + [e])[..|h|] == h;
    assert StaysOut(server, h + [e], single);
    assert missing[..0] == [] && Singles(server, cfg, missing[..0], h + [e]) == Untouched(h + [e]);
  }

  lemma BulkCredits(cfg: Config, valid: seq<Row>, reply: Reply, h: History)
    requires FallbackPathsAgree(cfg) && AllWellFormed(cfg, valid) && AllKeyed(cfg, valid) && reply.Answer?
    ensures Credited(cfg, BulkLoaded(cfg, valid, reply, h), [])
  {
    hide BisectRequest, ToXmlid, KeptFrom;
    UidKept(cfg);
    SameKept(cfg, 0);
    CreditsAll(cfg, h + [Exchange(BisectRequest(cfg, valid), reply)], Acks(valid, reply.ids, |h|, |valid|), false);
  }

  lemma {:induction false} MissingKeyed(cfg: Config, rows: seq<Row>, ids: seq<Option<int>>, n: nat)
    requires n <= |rows| && AllKeyed(cfg, rows)
    ensures AllKeyed(cfg, Missing(rows, ids, n))
  {
    hide Keyed;
    if n > 0 {
      MissingKeyed(cfg, rows, ids, n - 1);
    }
  }

  lemma {:induction false} WellFormedKeyed(cfg: Config, rows: seq<Row>)
    requires AllKeyed(cfg, rows)
    ensures AllKeyed(cfg, WellFormed(cfg, rows))
  {
    hide Keyed;
    if rows != [] {
      WellFormedKeyed(cfg, rows[..|rows| - 1]);
    }
  }

  // ----- Loads whose id map is dropped -----

  /** The rows created by the single load after a partial answer that left out one row. */
  function BisectDropped(server: Server, cfg: Config, valid: seq<Row>, h: History): seq<Ack>
    requires cfg.Valid() && AnswersProgress(server) && AllWellFormed(cfg, valid)
    decreases |valid|
  {
    if |valid| <= 1 then []
    else
      var request := BisectRequest(cfg, valid);
      var reply := server(h, request);
      var h' := h + [Exchange(request, reply)];
      if reply.Answer? && reply.ids != [] then
        var missing := Missing(valid, reply.ids, |valid|);
        MissingIsShorter(server, h, request, valid);
        MissingKeepsWidth(cfg, valid, reply.ids, |valid|);
        if missing == [] then []
        else if |missing| == 1 then Singles(server, cfg, missing, h').acks
        else BisectDropped(server, cfg, missing, h')
      else
        var mid := |valid| / 2;
        BisectDropped(server, cfg, valid[..mid], h')
        + BisectDropped(server, cfg, valid[mid..], Bisect(server, cfg, valid[..mid], h').hist)
  }

  function FallbackDropped(server: Server, cfg: Config, rows: seq<Row>, h: History): seq<Ack>
    requires cfg.Valid() && AnswersProgress(server)
  {
    BisectDropped(server, cfg, WellFormed(cfg, rows), h)
  }

  /** The dropped loads of a chunk: those of the fallback it is handed to, if any. */
  function ChunkDropped(server: Server, cfg: Config, current: seq<Row>, valid: seq<Row>, chunk: nat, conflicts: nat,
                        h: History)
    : seq<Ack>
    requires cfg.Valid() && AnswersProgress(server) && chunk >= 1
    requires forall i :: 0 <= i < |valid| ==> !TooShort(cfg, valid[i])
  {
    var request := WorkerRequest(cfg, valid);
    var reply := server(h, request);
    var h' := h + [Exchange(request, reply)];
    var handed := if Verdict(cfg, valid, reply) == None then Missing(valid, reply.ids, |valid|) else current;
    if TryChunk(server, cfg, current, valid, chunk, conflicts, h).done.handed > 0
    then FallbackDropped(server, cfg, handed, h') else []
  }

  function WorkDropped(server: Server, cfg: Config, queue: seq<Row>, chunk: nat, conflicts: nat, h: History): seq<Ack>
    requires cfg.Valid() && AnswersProgress(server) && (queue != [] ==> chunk >= 1)
    decreases |queue|, chunk
  {
    if queue == [] then []
    else
      var current := queue[..Min(chunk, |queue|)];
      var valid := Sendable(cfg, current);
      var s := Iterate(server, cfg, queue, chunk, conflicts, h);
      (if valid == [] then [] else ChunkDropped(server, cfg, current, valid, chunk, conflicts, h))
      + WorkDropped(server, cfg, s.queue, s.chunk, s.conflicts, s.done.out.hist)
  }

  /** What the worker creates on the server without reporting it. */
  function DroppedLoads(server: Server, cfg: Config, batch: seq<Row>, forceCreate: bool, h: History): seq<Ack>
    requires cfg.Valid() && AnswersProgress(server)
  {
    if forceCreate then [] else WorkDropped(server, cfg, batch, |batch|, 0, h)
  }

  /** The rows the worker neither settles nor reports. */
  function ForgottenRows(server: Server, cfg: Config, batch: seq<Row>, forceCreate: bool, h: History): seq<Row>
    requires cfg.Valid() && AnswersProgress(server)
  {
    if forceCreate then [] else WorkForgotten(server, cfg, batch, |batch|, 0, h)
  }

  lemma {:induction false} BisectCredits(server: Server, cfg: Config, valid: seq<Row>, h: History)
    requires AnswersProgress(server) && FallbackPathsAgree(cfg)
    requires AllWellFormed(cfg, valid) && AllKeyed(cfg, valid) && cfg.Valid()
    ensures Credited(cfg, Bisect(server, cfg, valid, h), BisectDropped(server, cfg, valid, h))
    decreases |valid|
  {
    hide BisectRequest, Missing, Singles, AnswersProgress, BulkLoaded, Credited, Keyed, FallbackPathsAgree;
    if |valid| <= 1 {
      SinglesCredit(server, cfg, valid, h);
      return;
    }
    var request := BisectRequest(cfg, valid);
    var reply := server(h, request);
    var h' := h + [Exchange(request, reply)];
    if reply.Answer? && reply.ids != [] {
      var missing := Missing(valid, reply.ids, |valid|);
      var loaded := BulkLoaded(cfg, valid, reply, h);
      BulkCredits(cfg, valid, reply, h);
      MissingIsShorter(server, h, request, valid);
      MissingKeepsWidth(cfg, valid, reply.ids, |valid|);
      MissingKeyed(cfg, valid, reply.ids, |valid|);
      if |missing| == 1 {
        var single := Singles(server, cfg, missing, h');
        SinglesCredit(server, cfg, missing, h');
        MapDropped(cfg, single);
        ThenCredited(cfg, loaded, [], single.(idMap := map[]), single.acks);
        assert [] + single.acks == single.acks;
      } else if |missing| > 1 {
        BisectCredits(server, cfg, missing, h');
        ThenCredited(cfg, loaded, [], Bisect(server, cfg, missing, h'), BisectDropped(server, cfg, missing, h'));
        assert [] + BisectDropped(server, cfg, missing, h') == BisectDropped(server, cfg, missing, h');
      }
    } else {
      var mid := |valid| / 2;
      var left := Bisect(server, cfg, valid[..mid], h');
      BisectCredits(server, cfg, valid[..mid], h');
      BisectCredits(server, cfg, valid[mid..], left.hist);
      ThenCredited(cfg, left, BisectDropped(server, cfg, valid[..mid], h'),
                   Bisect(server, cfg, valid[mid..], left.hist), BisectDropped(server, cfg, valid[mid..], left.hist));
    }
  }

  /** Dropping an id map drops the loads it stood for. */
  lemma MapDropped(cfg: Config, o: Outcome)
    requires Credited(cfg, o, [])
    ensures Credited(cfg, o.(idMap := map[]), o.acks)
  {
    hide ToXmlid, KeySet;
    forall i | 0 <= i < |o.acks| ensures Key(cfg, o.acks[i].row) in KeySet(cfg, o.acks) {
      KeySetHas(cfg, o.acks, i);
    }
  }

  lemma AgreeingIsValid(cfg: Config)
    requires FallbackPathsAgree(cfg)
    ensures cfg.Valid()
  {
  }

  lemma NothingCredited(cfg: Config, h: History, failed: seq<Row>)
    ensures Credited(cfg, Outcome(h, map[], failed, []), [])
  {
  }

  lemma FallbackCreditsAll(server: Server, cfg: Config, rows: seq<Row>, h: History)
    requires AnswersProgress(server) && FallbackPathsAgree(cfg) && AllKeyed(cfg, rows) && cfg.Valid()
    ensures Credited(cfg, Fallback(server, cfg, rows, h), FallbackDropped(server, cfg, rows, h))
  {
    hide Credited, AllKeyed, AnswersProgress, FallbackPathsAgree, Bisect, BisectDropped;
    WellFormedKeyed(cfg, rows);
    var valid := WellFormed(cfg, rows);
    BisectCredits(server, cfg, valid, h);
    NothingCredited(cfg, h, MalformedRows(cfg, rows));
    ThenCredited(cfg, Outcome(h, map[], MalformedRows(cfg, rows), []), [], Bisect(server, cfg, valid, h),
        BisectDropped(server, cfg, valid, h));
    assert [] + BisectDropped(server, cfg, valid, h) == BisectDropped(server, cfg, valid, h);
  }

  lemma AbsorbCredits(server: Server, cfg: Config, valid: seq<Row>, reply: Reply, call: nat, h: History)
    requires AnswersProgress(server) && FallbackPathsAgree(cfg) && cfg.Valid()
    requires AllKeyed(cfg, valid) && Verdict(cfg, valid, reply) == None
    ensures var t, missing := Absorb(server, cfg, valid, reply, call, h), Missing(valid, reply.ids, |valid|);
      Credited(cfg, t.out, if t.handed > 0 then FallbackDropped(server, cfg, missing, h) else [])
  {
    hide Acks, Missing, Credits, Fallback, FallbackDropped, Credited, Keyed, ToXmlid, AnswersProgress,
         FallbackPathsAgree;
    var acks, missing := Acks(valid, reply.ids, call, |valid|), Missing(valid, reply.ids, |valid|);
    var loaded := Outcome(h, Credits(cfg, acks, true), [], acks);
    CreditsAll(cfg, h, acks, true);
    FailuresAside(cfg, loaded, missing, []);
    if |reply.ids| < |valid| && |valid| - |reply.ids| > 1 && !reply.perRow {
      MissingKeyed(cfg, valid, reply.ids, |valid|);
      FallbackCreditsAll(server, cfg, missing, h);
      var dropped := FallbackDropped(server, cfg, missing, h);
      ThenCredited(cfg, loaded, [], Fallback(server, cfg, missing, h), dropped);
      assert [] + dropped == dropped;
      EntriesAgain(cfg, loaded.Then(Fallback(server, cfg, missing, h)), loaded.idMap, dropped);
      SomeMissing(valid, reply.ids, |valid|);
    }
  }

  /** An answer shorter than the chunk misses a row. */
  lemma {:induction false} SomeMissing(rows: seq<Row>, ids: seq<Option<int>>, n: nat)
    requires |ids| < n <= |rows|
    ensures |Missing(rows, ids, n)| > 0
  {
    if n > |ids| + 1 {
      SomeMissing(rows, ids, n - 1);
    }
  }

  lemma EntriesAgain(cfg: Config, o: Outcome, part: map<string, int>, dropped: seq<Ack>)
    requires Credited(cfg, o, dropped) && part.Keys <= o.idMap.Keys
    ensures Credited(cfg, o.(idMap := o.idMap + part), dropped)
  {
    hide ToXmlid, KeySet;
    assert (o.idMap + part).Keys == o.idMap.Keys;
    assert |o.idMap + part| == |(o.idMap + part).Keys| && |o.idMap| == |o.idMap.Keys|;
  }

  lemma TryChunkCredits(server: Server, cfg: Config, current: seq<Row>, valid: seq<Row>, chunk: nat, conflicts: nat,
                        h: History)
    requires AnswersProgress(server) && FallbackPathsAgree(cfg) && cfg.Valid()
    requires AllKeyed(cfg, current) && AllKeyed(cfg, valid) && chunk >= 1 && current != []
    requires forall i :: 0 <= i < |valid| ==> !TooShort(cfg, valid[i])
    ensures Credited(cfg, TryChunk(server, cfg, current, valid, chunk, conflicts, h).done.out,
                     ChunkDropped(server, cfg, current, valid, chunk, conflicts, h))
  {
    hide Absorb, Fallback, FallbackDropped, WorkerRequest, Verdict, Missing, Keyed, TooShort, AnswersProgress,
         FallbackPathsAgree, Credited;
    var request := WorkerRequest(cfg, valid);
    var reply := server(h, request);
    var h' := h + [Exchange(request, reply)];
    NothingCredited(cfg, h', []);
    NothingCredited(cfg, h', valid);
    FallbackCreditsAll(server, cfg, current, h');
    if Verdict(cfg, valid, reply) == None {
      AbsorbCredits(server, cfg, valid, reply, |h|, h');
    }
  }

  lemma {:induction false} SendableKeyed(cfg: Config, rows: seq<Row>)
    requires AllKeyed(cfg, rows)
    ensures AllKeyed(cfg, Sendable(cfg, rows))
  {
    hide Keyed, TooShort;
    if rows != [] {
      SendableKeyed(cfg, rows[..|rows| - 1]);
    }
  }

  lemma IterateCredits(server: Server, cfg: Config, queue: seq<Row>, chunk: nat, conflicts: nat, h: History)
    requires AnswersProgress(server) && FallbackPathsAgree(cfg) && cfg.Valid()
    requires AllKeyed(cfg, queue) && queue != [] && chunk >= 1
    ensures var s, current := Iterate(server, cfg, queue, chunk, conflicts, h), queue[..Min(chunk, |queue|)];
      var valid := Sendable(cfg, current);
      && Credited(cfg, s.done.out,
                  if valid == [] then [] else ChunkDropped(server, cfg, current, valid, chunk, conflicts, h))
      && AllKeyed(cfg, s.queue)
  {
    hide TryChunk, ChunkDropped, Keyed, TooShort, AnswersProgress, FallbackPathsAgree, Credited;
    var current := queue[..Min(chunk, |queue|)];
    var valid := Sendable(cfg, current);
    var rejected := Outcome(h, map[], Dropped(cfg, current), []);
    NothingCredited(cfg, h, Dropped(cfg, current));
    SendableKeyed(cfg, current);
    if valid != [] {
      var dropped := ChunkDropped(server, cfg, current, valid, chunk, conflicts, h);
      TryChunkCredits(server, cfg, current, valid, chunk, conflicts, h);
      ThenCredited(cfg, rejected, [], TryChunk(server, cfg, current, valid, chunk, conflicts, h).done.out, dropped);
      assert [] + dropped == dropped;
    }
  }

  lemma {:induction false} WorkCredits(server: Server, cfg: Config, queue: seq<Row>, chunk: nat, conflicts: nat,
                                       h: History)
    requires AnswersProgress(server) && FallbackPathsAgree(cfg) && cfg.Valid()
    requires AllKeyed(cfg, queue) && (queue != [] ==> chunk >= 1)
    ensures Credited(cfg, Work(server, cfg, queue, chunk, conflicts, h).out,
            WorkDropped(server, cfg, queue, chunk, conflicts, h))
    decreases |queue|, chunk
  {
    hide Iterate, ChunkDropped, Sendable, AnswersProgress, FallbackPathsAgree, Credited, AllKeyed;
    NothingCredited(cfg, h, []);
    if queue != [] {
      var current := queue[..Min(chunk, |queue|)];
      var valid := Sendable(cfg, current);
      var s := Iterate(server, cfg, queue, chunk, conflicts, h);
      IterateCredits(server, cfg, queue, chunk, conflicts, h);
      WorkCredits(server, cfg, s.queue, s.chunk, s.conflicts, s.done.out.hist);
      ThenCredited(cfg, s.done.out,
          if valid == [] then [] else ChunkDropped(server, cfg, current, valid, chunk, conflicts, h),
                   Work(server, cfg, s.queue, s.chunk, s.conflicts, s.done.out.hist).out,
                   WorkDropped(server, cfg, s.queue, s.chunk, s.conflicts, s.done.out.hist));
    }
  }

  /** Every acknowledged row of a batch is in the id map, but for the dropped single loads. */
  lemma BatchCredits(server: Server, cfg: Config, batch: seq<Row>, forceCreate: bool, h: History)
    requires AnswersProgress(server) && FallbackPathsAgree(cfg) && AllKeyed(cfg, batch) && cfg.Valid()
    ensures Credited(cfg, Execute(server, cfg, batch, forceCreate, h).out,
            DroppedLoads(server, cfg, batch, forceCreate, h))
  {
    hide Credited, AllKeyed, Work, WorkDropped, FallbackPathsAgree;
    if forceCreate {
      SinglesCredit(server, cfg, batch, h);
    } else {
      WorkCredits(server, cfg, batch, |batch|, 0, h);
    }
  }

  // ----- When nothing is dropped -----

  lemma {:induction false} BisectDropsNone(server: Server, cfg: Config, valid: seq<Row>, h: History)
    requires AnswersProgress(server) && LeftOutStaysOut(server) && FallbackPathsAgree(cfg) && cfg.Valid()
    requires AllWellFormed(cfg, valid)
    ensures BisectDropped(server, cfg, valid, h) == []
    decreases |valid|
  {
    hide BisectRequest, Missing, Singles, AnswersProgress, LeftOutStaysOut, FallbackPathsAgree, Bisect;
    if |valid| > 1 {
      var request := BisectRequest(cfg, valid);
      var reply := server(h, request);
      var h' := h + [Exchange(request, reply)];
      if reply.Answer? && reply.ids != [] {
        var missing := Missing(valid, reply.ids, |valid|);
        MissingIsShorter(server, h, request, valid);
        MissingKeepsWidth(cfg, valid, reply.ids, |valid|);
        if |missing| == 1 {
          LeftOutRowFails(server, cfg, valid, h);
        } else if |missing| > 1 {
          BisectDropsNone(server, cfg, missing, h');
        }
      } else {
        var mid := |valid| / 2;
        BisectDropsNone(server, cfg, valid[..mid], h');
        BisectDropsNone(server, cfg, valid[mid..], Bisect(server, cfg, valid[..mid], h').hist);
      }
    }
  }

  lemma {:induction false} WorkDropsNone(server: Server, cfg: Config, queue: seq<Row>, chunk: nat, conflicts: nat,
                                         h: History)
    requires AnswersProgress(server) && LeftOutStaysOut(server) && FallbackPathsAgree(cfg) && cfg.Valid()
    requires queue != [] ==> chunk >= 1
    ensures WorkDropped(server, cfg, queue, chunk, conflicts, h) == []
    decreases |queue|, chunk
  {
    hide Iterate, ChunkDropped, Sendable, AnswersProgress, LeftOutStaysOut, FallbackPathsAgree;
    if queue != [] {
      var current := queue[..Min(chunk, |queue|)];
      var s := Iterate(server, cfg, queue, chunk, conflicts, h);
      ChunkDropsNone(server, cfg, current, Sendable(cfg, current), chunk, conflicts, h);
      WorkDropsNone(server, cfg, s.queue, s.chunk, s.conflicts, s.done.out.hist);
    }
  }

  lemma ChunkDropsNone(server: Server, cfg: Config, current: seq<Row>, valid: seq<Row>, chunk: nat, conflicts: nat,
                       h: History)
    requires AnswersProgress(server) && LeftOutStaysOut(server) && FallbackPathsAgree(cfg) && cfg.Valid() && chunk >= 1
    requires forall i :: 0 <= i < |valid| ==> !TooShort(cfg, valid[i])
    ensures ChunkDropped(server, cfg, current, valid, chunk, conflicts, h) == []
  {
    hide TryChunk, BisectDropped, WorkerRequest, Missing, TooShort, AnswersProgress, LeftOutStaysOut,
         FallbackPathsAgree;
    var request := WorkerRequest(cfg, valid);
    var reply := server(h, request);
    var h' := h + [Exchange(request, reply)];
    var handed := if Verdict(cfg, valid, reply) == None then Missing(valid, reply.ids, |valid|) else current;
    BisectDropsNone(server, cfg, WellFormed(cfg, handed), h');
  }

  /** When rows left out of an answer fail alone, no load is dropped. */
  lemma DropsNone(server: Server, cfg: Config, batch: seq<Row>, forceCreate: bool, h: History)
    requires AnswersProgress(server) && LeftOutStaysOut(server) && FallbackPathsAgree(cfg) && cfg.Valid()
    ensures DroppedLoads(server, cfg, batch, forceCreate, h) == []
  {
    hide WorkDropped, LeftOutStaysOut, AnswersProgress, FallbackPathsAgree;
    WorkDropsNone(server, cfg, batch, |batch|, 0, h);
  }

  // ----- Counting -----

  lemma KeySetExtend(cfg: Config, init: seq<Ack>, last: Ack)
    ensures KeySet(cfg, init + [last])
         == if cfg.uid < |last.row.cells| then KeySet(cfg, init) + {Key(cfg, last.row)} else KeySet(cfg, init)
  {
    assert (init + [last])[..|init|] == init;
  }

  lemma {:induction false} KeySetSize(cfg: Config, acks: seq<Ack>)
    ensures |KeySet(cfg, acks)| <= |acks| == |AckedRows(acks)|
  {
    if acks != [] {
      hide ToXmlid;
      KeySetSize(cfg, acks[..|acks| - 1]);
    }
  }

  lemma {:induction false} KeySetHas(cfg: Config, acks: seq<Ack>, i: nat)
    requires i < |acks|
    ensures acks[i].row in AckedRows(acks)
    ensures cfg.uid < |acks[i].row.cells| ==> Key(cfg, acks[i].row) in KeySet(cfg, acks)
  {
    hide ToXmlid;
    if i < |acks| - 1 {
      KeySetHas(cfg, acks[..|acks| - 1], i);
    }
  }

  lemma {:induction false} KeySetOrigin(cfg: Config, acks: seq<Ack>, key: string) returns (row: Row)
    requires key in KeySet(cfg, acks)
    ensures row in AckedRows(acks) && cfg.uid < |row.cells| && Key(cfg, row) == key
  {
    hide ToXmlid;
    row := acks[|acks| - 1].row;
    if cfg.uid >= |row.cells| || Key(cfg, row) != key {
      row := KeySetOrigin(cfg, acks[..|acks| - 1], key);
    }
  }

  /** No two rows share a sanitised id. */
  predicate DistinctKeys(cfg: Config, rows: seq<Row>)
    requires AllKeyed(cfg, rows)
  {
    forall i, j :: 0 <= i < j < |rows| ==> Key(cfg, rows[i]) != Key(cfg, rows[j])
  }

  lemma {:induction false} OnceEach(cfg: Config, rows: seq<Row>, row: Row)
    requires AllKeyed(cfg, rows) && DistinctKeys(cfg, rows)
    ensures multiset(rows)[row] <= 1
  {
    hide ToXmlid;
    if rows != [] {
      var init, last := rows[..|rows| - 1], rows[|rows| - 1];
      assert rows == init + [last];
      OnceEach(cfg, init, row);
      assert last !in init;
    }
  }

  lemma SameKeySameRow(cfg: Config, data: seq<Row>, a: Row, b: Row)
    requires AllKeyed(cfg, data) && DistinctKeys(cfg, data)
    requires a in multiset(data) && b in multiset(data)
    requires cfg.uid < |a.cells| && cfg.uid < |b.cells| && Key(cfg, a) == Key(cfg, b)
    ensures a == b
  {
    hide ToXmlid;
    assert a in data && b in data;
    var i :| 0 <= i < |data| && data[i] == a;
    var j :| 0 <= j < |data| && data[j] == b;
    assert i == j;
  }

  lemma FreshKey(cfg: Config, init: seq<Ack>, last: Ack, data: seq<Row>)
    requires AllKeyed(cfg, data) && DistinctKeys(cfg, data) && cfg.uid < |last.row.cells|
    requires AckedRows(init) + multiset{last.row} <= multiset(data)
    ensures Key(cfg, last.row) !in KeySet(cfg, init)
  {
    hide ToXmlid, KeySet, AckedRows, AllKeyed, DistinctKeys;
    var key := Key(cfg, last.row);
    if key in KeySet(cfg, init) {
      var row := KeySetOrigin(cfg, init, key);
      OnceEach(cfg, data, last.row);
      var bag := AckedRows(init) + multiset{last.row};
      assert row in bag && last.row in bag;
      SameKeySameRow(cfg, data, row, last.row);
      assert false;
    }
  }

  lemma WideEnough(cfg: Config, data: seq<Row>, row: Row)
    requires AllKeyed(cfg, data) && row in multiset(data)
    ensures cfg.uid < |row.cells|
  {
    assert row in data;
  }

  lemma {:induction false} DistinctAcks(cfg: Config, acks: seq<Ack>, data: seq<Row>)
    requires AllKeyed(cfg, data) && DistinctKeys(cfg, data)
    requires AckedRows(acks) <= multiset(data)
    ensures |KeySet(cfg, acks)| == |acks|
  {
    hide ToXmlid, KeySet, AckedRows, AllKeyed, DistinctKeys;
    if acks == [] {
      KeySetSize(cfg, acks);
    } else {
      var init, last := acks[..|acks| - 1], acks[|acks| - 1];
      assert acks == init + [last];
      AckAppended(last, init);
      PartOf(AckedRows(init), last.row, multiset(data));
      DistinctAcks(cfg, init, data);
      WideEnough(cfg, data, last.row);
      FreshKey(cfg, init, last, data);
      KeySetExtend(cfg, init, last);
    }
  }

  lemma PartOf<T>(a: multiset<T>, x: T, b: multiset<T>)
    requires a + multiset{x} <= b
    ensures a <= b && x in b
  {
  }

  lemma CreditedKeys(cfg: Config, acks: seq<Ack>, idMap: map<string, int>)
    requires forall key :: key in idMap ==> CreditedBy(cfg, acks, key, idMap[key])
    ensures idMap.Keys <= KeySet(cfg, acks)
  {
    hide ToXmlid, KeySet;
    forall key | key in idMap.Keys ensures key in KeySet(cfg, acks) {
      var i :| 0 <= i < |acks| && cfg.uid < |acks[i].row.cells| && Key(cfg, acks[i].row) == key;
      KeySetHas(cfg, acks, i);
    }
  }

  lemma {:induction false} Subset<T>(a: set<T>, b: set<T>)
    requires a <= b
    ensures |a| <= |b|
  {
    if a != {} {
      var x :| x in a;
      Subset(a - {x}, b - {x});
    }
  }

  /** For distinct rows, id map entries and dropped loads are exactly the acknowledgements. */
  lemma EntriesAndDrops(cfg: Config, o: Outcome, dropped: seq<Ack>, data: seq<Row>)
    requires AllKeyed(cfg, data) && DistinctKeys(cfg, data) && AckedRows(o.acks) <= multiset(data)
    requires Credited(cfg, o, dropped)
    ensures |o.idMap| + |dropped| == |o.acks|
  {
    hide AllKeyed, DistinctKeys, KeySet, AckedRows, ToXmlid;
    DistinctAcks(cfg, o.acks, data);
    KeySetSize(cfg, dropped);
    forall key | key in KeySet(cfg, o.acks) ensures key in o.idMap.Keys + KeySet(cfg, dropped) {
      var i := KeySetIndex(cfg, o.acks, key);
    }
    Subset(KeySet(cfg, o.acks), o.idMap.Keys + KeySet(cfg, dropped));
    assert |o.idMap.Keys + KeySet(cfg, dropped)| <= |o.idMap.Keys| + |KeySet(cfg, dropped)|;
    assert |o.idMap| == |o.idMap.Keys|;
  }

  lemma {:induction false} KeySetIndex(cfg: Config, acks: seq<Ack>, key: string) returns (i: nat)
    requires key in KeySet(cfg, acks)
    ensures i < |acks| && cfg.uid < |acks[i].row.cells| && Key(cfg, acks[i].row) == key
  {
    hide ToXmlid;
    i := |acks| - 1;
    if cfg.uid >= |acks[i].row.cells| || Key(cfg, acks[i].row) != key {
      i := KeySetIndex(cfg, acks[..i], key);
    }
  }

  /**
   The reconciliation of the run summary, for any server: created + failed never exceeds the total, and
   for rows with distinct non-blank ids what is missing from it is exactly the dropped loads and the
   forgotten rows.
   */
  lemma Reconciles(cfg: Config, data: seq<Row>, o: Outcome, dropped: seq<Ack>, forgotten: seq<Row>)
    requires Handled(o) + multiset(forgotten) == multiset(data)
    requires forall key :: key in o.idMap ==> CreditedBy(cfg, o.acks, key, o.idMap[key])
    ensures |o.idMap| + |o.failed| <= |data|
    ensures AllKeyed(cfg, data) && DistinctKeys(cfg, data) && Credited(cfg, o, dropped) ==>
              |o.idMap| + |o.failed| + |dropped| + |forgotten| == |data|
  {
    hide AllKeyed, DistinctKeys, Credited, CreditedBy, KeySet, AckedRows;
    KeySetSize(cfg, o.acks);
    ThreeSizes(multiset(o.failed), AckedRows(o.acks), multiset(forgotten), multiset(data));
    CreditedKeys(cfg, o.acks, o.idMap);
    Subset(o.idMap.Keys, KeySet(cfg, o.acks));
    if AllKeyed(cfg, data) && DistinctKeys(cfg, data) && Credited(cfg, o, dropped) {
      EntriesAndDrops(cfg, o, dropped, data);
    }
    assert |o.idMap| == |o.idMap.Keys|;
  }

  lemma ThreeSizes<T>(a: multiset<T>, b: multiset<T>, c: multiset<T>, all: multiset<T>)
    requires a + b + c == all
    ensures |a| + |b| + |c| == |all| && b <= all
  {
  }

  /** The rows of a batch, however it went: settled or forgotten. */
  lemma BatchKeeps(server: Server, cfg: Config, batch: seq<Row>, forceCreate: bool, h: History)
    requires cfg.Valid() && AnswersProgress(server) && NoneTooShort(cfg, batch)
    ensures Handled(Execute(server, cfg, batch, forceCreate, h).out)
            + multiset(ForgottenRows(server, cfg, batch, forceCreate, h))
            == multiset(batch)
  {
    hide Work, WorkForgotten, Handled, NoneTooShort, AnswersProgress;
    if forceCreate {
      SinglesSettle(server, cfg, batch, h);
    } else {
      WorkKeeps(server, cfg, batch, |batch|, 0, h);
    }
  }

  /**
   One batch, one server without any assumption on its answers but progress: created, failed, dropped
   and forgotten rows are the batch, so created + failed equals the total exactly when no load was
   dropped and no row forgotten.
   */
  lemma BatchReconciles(server: Server, cfg: Config, batch: seq<Row>, forceCreate: bool)
    requires AnswersProgress(server) && FallbackPathsAgree(cfg) && cfg.Valid() && NoneTooShort(cfg, batch)
    requires AllKeyed(cfg, batch) && DistinctKeys(cfg, batch)
    ensures var o := Execute(server, cfg, batch, forceCreate, []).out;
      var dropped, forgotten := DroppedLoads(server, cfg, batch, forceCreate, []),
          ForgottenRows(server, cfg, batch, forceCreate, []);
      && |o.idMap| + |o.failed| + |dropped| + |forgotten| == |batch|
      && (|o.idMap| + |o.failed| == |batch| <==> dropped == [] && forgotten == [])
  {
    hide Execute, DroppedLoads, ForgottenRows, Handled, Credited, AllKeyed, DistinctKeys, FallbackPathsAgree,
         CreditedBy, AnswersProgress, NoneTooShort;
    BatchKeeps(server, cfg, batch, forceCreate, []);
    BatchCredits(server, cfg, batch, forceCreate, []);
    BatchJustified(server, cfg, batch, forceCreate, []);
    var o := Execute(server, cfg, batch, forceCreate, []).out;
    Reconciles(cfg, batch, o, DroppedLoads(server, cfg, batch, forceCreate, []),
        ForgottenRows(server, cfg, batch, forceCreate, []));
  }
}
