/**
 Servers that accept or refuse each line on its own merits, and whose refusals let the worker isolate the
 bad rows. Against them exactly the bad rows fail. A refusal of another kind fails good rows as well.
 */
module RowIsolation {
  import opened Basics
  import opened LoadProtocol
  import opened LoadFallback
  import opened FallbackFacts
  import opened LoadWorker
  import opened WorkerFacts
  import opened Accounting
  import opened TargetStore
  import opened FallbackRefinement
  import opened StoreFacts

  /** Every line acknowledged, no message. */
  predicate Confirms(reply: Reply, n: nat) {
    && reply.Answer? && reply.error.None? && |reply.ids| == n
    && forall i :: 0 <= i < n ==> reply.ids[i].Some? && reply.ids[i].value != 0
  }

  /**
   A refusal of n lines that makes the worker split or hand over the chunk. The two that do not, for
   several lines, are a read time-out and an empty answer whose messages name rows.
   */
  predicate Isolates(reply: Reply, n: nat) {
    && NoIds(reply)
    && (n >= 2 ==>
          if reply.Raised? then reply.kind != ReadTimeout
          else if reply.error.Some? then reply.error != Some(ReadTimeout)
          else !reply.perRow)
  }

  /** A partial answer: shorter than the request, with ids for exactly the good lines, of which there are some. */
  predicate Sorts(b: Backend, request: Request, reply: Reply) {
    && reply.Answer? && reply.error.None? && |reply.ids| < |request.lines|
    && (exists i :: 0 <= i < |request.lines| && Acked(reply.ids, i))
    && forall i :: 0 <= i < |request.lines| ==> (Acked(reply.ids, i) <==> b.good(request.header, request.lines[i]))
  }

  predicate RowwiseReply(b: Backend, request: Request, reply: Reply) {
    if AllGood(b, request) then Confirms(reply, |request.lines|)
    else Isolates(reply, |request.lines|) || Sorts(b, request, reply)
  }

  /**
   Each line is good or bad as `b` says. A request with bad lines is refused, or its good lines are loaded;
   which of the two, and which ids are answered, is open.
   */
  ghost predicate Rowwise(b: Backend, server: Server) {
    forall h: History, request: Request :: RowwiseReply(b, request, server(h, request))
  }

  /** A store whose refusals isolate. */
  ghost predicate Isolating(b: Backend) {
    b.Valid() && forall h, request :: !AllGood(b, request) ==> Isolates(b.refuse(h, request), |request.lines|)
  }

  lemma StoreIsRowwise(b: Backend)
    requires Isolating(b)
    ensures Rowwise(b, ServerOf(b))
  {
    hide UpsertLines, DbAfter, AllGood, Isolates;
    forall h: History, request: Request ensures RowwiseReply(b, request, ServerOf(b)(h, request)) {
      if AllGood(b, request) {
        assert Confirms(ServerOf(b)(h, request), |request.lines|);
      }
    }
  }

  lemma RowwiseIsHonest(b: Backend, server: Server)
    requires Rowwise(b, server)
    ensures AnswersProgress(server) && AnswersWithoutHoles(server) && LeftOutStaysOut(server)
  {
    hide AllGood;
    forall h: History, request: Request
      ensures ReplyProgresses(server(h, request), |request.lines|)
      ensures ReplyHasNoHole(server(h, request), |request.lines|)
    {
      var reply := server(h, request);
      assert RowwiseReply(b, request, reply);
      if reply.Answer? && reply.ids != [] && AllGood(b, request) {
        assert Acked(reply.ids, 0);
      }
    }
    forall h: History, request: Request ensures StaysOut(server, h, request) {
      if h != [] {
        var e := h[|h| - 1];
        assert RowwiseReply(b, e.request, server(h[..|h| - 1], e.request));
        assert RowwiseReply(b, request, server(h, request));
        if e.reply == server(h[..|h| - 1], e.request) {
          LeftOutIsRefused(b, e, request, server(h, request));
        }
      }
    }
  }

  lemma LeftOutIsRefused(b: Backend, e: Exchange, request: Request, reply: Reply)
    requires RowwiseReply(b, e.request, e.reply) && RowwiseReply(b, request, reply)
    ensures LeavesOut(e, request) ==> !SingleLoaded(reply)
  {
    if LeavesOut(e, request) {
      var i :| 0 <= i < |e.request.lines| && e.request.lines[i] == request.lines[0] && !Acked(e.reply.ids, i);
      assert !b.good(request.header, request.lines[0]);
    }
  }

  // ----- Only bad rows fail -----

  /** A row of header width that the server refuses. */
  predicate BadRow(b: Backend, cfg: Config, row: Row) {
    cfg.Valid() && !Malformed(cfg, row) && !Accepted(b, cfg, row)
  }

  predicate OnlyBad(b: Backend, cfg: Config, rows: seq<Row>) {
    forall i :: 0 <= i < |rows| ==> BadRow(b, cfg, rows[i])
  }

  lemma {:induction false} SinglesFailBad(b: Backend, server: Server, cfg: Config, rows: seq<Row>, h: History)
    requires Rowwise(b, server) && cfg.Valid() && AllWellFormed(cfg, rows)
    ensures OnlyBad(b, cfg, Singles(server, cfg, rows, h).failed)
  {
    if rows != [] {
      hide Singles, Single, BadRow, Malformed, Rowwise;
      var init, last := rows[..|rows| - 1], rows[|rows| - 1];
      assert rows == init + [last];
      SinglesFailBad(b, server, cfg, init, h);
      SinglesExtend(server, cfg, init, last, h);
      SingleFailsBad(b, server, cfg, last, Singles(server, cfg, init, h).hist);
    } else {
      SinglesExtend(server, cfg, [], Row([]), h);
    }
  }

  lemma SingleFailsBad(b: Backend, server: Server, cfg: Config, row: Row, h: History)
    requires Rowwise(b, server) && cfg.Valid() && !Malformed(cfg, row)
    ensures OnlyBad(b, cfg, Single(server, cfg, row, h).failed)
  {
    hide SingleLine, SingleHeader, Key;
    var request := SingleRequest(cfg, row);
    assert RowwiseReply(b, request, server(h, request));
    assert |request.lines| == 1 && request.lines[0] == SingleLine(cfg, row);
    assert AllGood(b, request) == Accepted(b, cfg, row);
  }

  lemma {:induction false} BisectFailsBad(b: Backend, server: Server, cfg: Config, valid: seq<Row>, h: History)
    requires Rowwise(b, server) && AnswersProgress(server) && cfg.Valid() && AllWellFormed(cfg, valid)
    ensures OnlyBad(b, cfg, Bisect(server, cfg, valid, h).failed)
    decreases |valid|
  {
    hide BisectRequest, Missing, Singles, BulkLoaded, BadRow, Malformed, Rowwise, AnswersProgress;
    if |valid| <= 1 {
      SinglesFailBad(b, server, cfg, valid, h);
    } else {
      var request := BisectRequest(cfg, valid);
      var reply := server(h, request);
      var h' := h + [Exchange(request, reply)];
      if reply.Answer? && reply.ids != [] {
        var missing := Missing(valid, reply.ids, |valid|);
        MissingKeepsWidth(cfg, valid, reply.ids, |valid|);
        MissingIsShorter(server, h, request, valid);
        NothingFailed(cfg, valid, reply, h);
        SinglesFailBad(b, server, cfg, missing, h');
        BisectFailsBad(b, server, cfg, missing, h');
      } else {
        var mid := |valid| / 2;
        BisectFailsBad(b, server, cfg, valid[..mid], h');
        BisectFailsBad(b, server, cfg, valid[mid..], Bisect(server, cfg, valid[..mid], h').hist);
      }
    }
  }

  lemma NothingFailed(cfg: Config, valid: seq<Row>, reply: Reply, h: History)
    requires cfg.Valid() && AllWellFormed(cfg, valid) && reply.Answer?
    ensures BulkLoaded(cfg, valid, reply, h).failed == []
  {
  }

  lemma FallbackFailsBad(b: Backend, server: Server, cfg: Config, rows: seq<Row>, h: History)
    requires Rowwise(b, server) && AnswersProgress(server) && cfg.Valid() && AllWellFormed(cfg, rows)
    ensures OnlyBad(b, cfg, Fallback(server, cfg, rows, h).failed)
  {
    FallbackIsBisect(server, cfg, rows, h);
    BisectFailsBad(b, server, cfg, rows, h);
  }

  /** A refused request of one row: the row is bad. */
  lemma LoneRefusal(b: Backend, cfg: Config, valid: seq<Row>, reply: Reply)
    requires AllPathsAgree(cfg) && cfg.Valid() && AllWellFormed(cfg, valid) && |valid| == 1
    requires forall i :: 0 <= i < |valid| ==> !TooShort(cfg, valid[i])
    requires RowwiseReply(b, WorkerRequest(cfg, valid), reply) && !AllGood(b, WorkerRequest(cfg, valid))
    ensures OnlyBad(b, cfg, valid)
  {
    hide WorkerLine, WorkerHeader, SingleLine, SingleHeader, AllPathsAgree, TooShort;
    WorkerLineAgrees(cfg, valid[0]);
    var request := WorkerRequest(cfg, valid);
    assert request.lines[0] == WorkerLine(cfg, valid[0]);
  }

  lemma AbsorbFailsBad(b: Backend, server: Server, cfg: Config, valid: seq<Row>, reply: Reply, call: nat, h: History)
    requires Rowwise(b, server) && AnswersProgress(server) && AllPathsAgree(cfg) && cfg.Valid()
    requires AllWellFormed(cfg, valid)
    requires valid != [] && forall i :: 0 <= i < |valid| ==> !TooShort(cfg, valid[i])
    requires RowwiseReply(b, WorkerRequest(cfg, valid), reply) && Verdict(cfg, valid, reply) == None
    ensures OnlyBad(b, cfg, Absorb(server, cfg, valid, reply, call, h).out.failed)
  {
    hide AllGood, WorkerRequest, Acks, Missing, Credits, Fallback, BadRow, Malformed, TooShort, AllPathsAgree, Rowwise,
         AnswersProgress;
    var missing := Missing(valid, reply.ids, |valid|);
    MissingKeepsWidth(cfg, valid, reply.ids, |valid|);
    FallbackFailsBad(b, server, cfg, missing, h);
    if Sorts(b, WorkerRequest(cfg, valid), reply) {
      MissingIsBad(b, cfg, valid, reply, |valid|);
    } else if !AllGood(b, WorkerRequest(cfg, valid)) {
      if |valid| == 1 {
        LoneRefusal(b, cfg, valid, reply);
        AllMissing(valid, reply.ids, 1);
        assert missing == valid;
      }
    }
  }

  /** The rows left out of a partial answer are bad. */
  lemma {:induction false} MissingIsBad(b: Backend, cfg: Config, valid: seq<Row>, reply: Reply, n: nat)
    requires AllPathsAgree(cfg) && cfg.Valid() && AllWellFormed(cfg, valid) && n <= |valid|
    requires forall i :: 0 <= i < |valid| ==> !TooShort(cfg, valid[i])
    requires Sorts(b, WorkerRequest(cfg, valid), reply)
    ensures OnlyBad(b, cfg, Missing(valid, reply.ids, n))
  {
    hide WorkerLine, WorkerHeader, SingleLine, SingleHeader, AllPathsAgree, TooShort;
    if n > 0 {
      MissingIsBad(b, cfg, valid, reply, n - 1);
      WorkerLineAgrees(cfg, valid[n - 1]);
      assert WorkerRequest(cfg, valid).lines[n - 1] == WorkerLine(cfg, valid[n - 1]);
    }
  }

  lemma {:induction false} AllMissing(rows: seq<Row>, ids: seq<Option<int>>, n: nat)
    requires n <= |rows| && ids == []
    ensures Missing(rows, ids, n) == rows[..n]
  {
    if n > 0 {
      AllMissing(rows, ids, n - 1);
    }
  }

  lemma TryChunkFailsBad(b: Backend, server: Server, cfg: Config, current: seq<Row>, chunk: nat, conflicts: nat,
                         h: History)
    requires Rowwise(b, server) && AnswersProgress(server) && AllPathsAgree(cfg) && cfg.Valid()
    requires AllWellFormed(cfg, current)
    requires 0 < |current| <= chunk && forall i :: 0 <= i < |current| ==> !TooShort(cfg, current[i])
    ensures OnlyBad(b, cfg, TryChunk(server, cfg, current, current, chunk, conflicts, h).done.out.failed)
  {
    hide AllGood, WorkerRequest, Absorb, Fallback, BadRow, TooShort, AllPathsAgree, AnswersProgress, ReadsPastRow;
    var request := WorkerRequest(cfg, current);
    var reply := server(h, request);
    var h' := h + [Exchange(request, reply)];
    assert RowwiseReply(b, request, reply);
    FallbackFailsBad(b, server, cfg, current, h');
    if Verdict(cfg, current, reply) == None {
      AbsorbFailsBad(b, server, cfg, current, reply, |h|, h');
    } else {
      if AllGood(b, request) {
        NoRowIsShort(cfg, current, reply.ids);
        assert false;
      }
      if |current| == 1 {
        LoneRefusal(b, cfg, current, reply);
      }
      if Sorts(b, request, reply) {
        NoRowIsShort(cfg, current, reply.ids);
        assert false;
      }
      if reply.Answer? {
        NoIdsReadNothing(cfg, current, reply);
      }
    }
  }

  lemma NoRowIsShort(cfg: Config, rows: seq<Row>, ids: seq<Option<int>>)
    requires cfg.Valid() && AllWellFormed(cfg, rows)
    ensures !ReadsPastRow(cfg, rows, ids)
  {
  }

  lemma NoIdsReadNothing(cfg: Config, rows: seq<Row>, reply: Reply)
    requires NoIds(reply) && reply.Answer?
    ensures !ReadsPastRow(cfg, rows, reply.ids)
  {
  }

  lemma IterateFailsBad(b: Backend, server: Server, cfg: Config, queue: seq<Row>, chunk: nat, conflicts: nat,
                        h: History)
    requires Rowwise(b, server) && AnswersProgress(server) && AllPathsAgree(cfg) && cfg.Valid()
    requires AllWellFormed(cfg, queue)
    requires queue != [] && chunk >= 1
    ensures var s := Iterate(server, cfg, queue, chunk, conflicts, h);
      OnlyBad(b, cfg, s.done.out.failed) && AllWellFormed(cfg, s.queue)
  {
    hide TryChunk, BadRow, Malformed, TooShort, AllPathsAgree, Rowwise, AnswersProgress;
    var current := queue[..Min(chunk, |queue|)];
    forall i | 0 <= i < |current| ensures !TooShort(cfg, current[i]) {
      WorkerLineAgrees(cfg, current[i]);
    }
    NothingDropped(cfg, current);
    TryChunkFailsBad(b, server, cfg, current, chunk, conflicts, h);
  }

  lemma {:induction false} WorkFailsBad(b: Backend, server: Server, cfg: Config, queue: seq<Row>, chunk: nat,
                                        conflicts: nat, h: History)
    requires Rowwise(b, server) && AnswersProgress(server) && AllPathsAgree(cfg) && cfg.Valid()
    requires AllWellFormed(cfg, queue)
    requires queue != [] ==> chunk >= 1
    ensures OnlyBad(b, cfg, Work(server, cfg, queue, chunk, conflicts, h).out.failed)
    decreases |queue|, chunk
  {
    hide Iterate, BadRow, AllWellFormed, AllPathsAgree, Rowwise, AnswersProgress;
    if queue != [] {
      var s := Iterate(server, cfg, queue, chunk, conflicts, h);
      IterateFailsBad(b, server, cfg, queue, chunk, conflicts, h);
      WorkFailsBad(b, server, cfg, s.queue, s.chunk, s.conflicts, s.done.out.hist);
    }
  }

  /**
   What a worker makes of a batch against such a server: every row settled, only bad rows failed, every created row
   reported.
   */
  ghost predicate Isolated(b: Backend, cfg: Config, batch: seq<Row>, o: Outcome) {
    Handled(o) == multiset(batch) && OnlyBad(b, cfg, o.failed) && Credited(cfg, o, [])
  }

  lemma BatchIsolates(b: Backend, server: Server, cfg: Config, batch: seq<Row>, h: History)
    requires Rowwise(b, server) && AllPathsAgree(cfg) && Importable(cfg, batch)
    ensures AnswersProgress(server)
    ensures Isolated(b, cfg, batch, Execute(server, cfg, batch, false, h).out)
  {
    hide Work, BadRow, DistinctKeys, AllKeyed, AllPathsAgree, Rowwise, AnswersProgress, AnswersWithoutHoles,
         LeftOutStaysOut, Credited;
    RowwiseIsHonest(b, server);
    forall i | 0 <= i < |batch| ensures !TooShort(cfg, batch[i]) {
      WorkerLineAgrees(cfg, batch[i]);
    }
    WorkSettles(server, cfg, batch, |batch|, 0, h);
    WorkFailsBad(b, server, cfg, batch, |batch|, 0, h);
    PathsPart(cfg);
    BatchCredits(server, cfg, batch, false, h);
    DropsNone(server, cfg, batch, false, h);
  }

  // ----- The refusals that do not isolate -----

  /**
   The condition is exact: when the first request of a batch of several rows is refused in a way that does
   not isolate, every row of the batch fails, the good ones too.
   */
  lemma OtherRefusalsFailAll(server: Server, cfg: Config, batch: seq<Row>)
    requires AnswersProgress(server) && AllPathsAgree(cfg) && cfg.Valid() && AllWellFormed(cfg, batch) && |batch| >= 2
    requires NoneTooShort(cfg, batch)
    requires var reply := server([], WorkerRequest(cfg, batch)); NoIds(reply) && !Isolates(reply, |batch|)
    ensures Execute(server, cfg, batch, false, []).out.failed == batch
  {
    hide WorkerRequest, Fallback, Malformed, TooShort, AllPathsAgree, AnswersProgress, ReadsPastRow;
    var reply := server([], WorkerRequest(cfg, batch));
    if reply.Answer? {
      NoIdsReadNothing(cfg, batch, reply);
      AllMissing(batch, reply.ids, |batch|);
      assert batch[..|batch|] == batch;
    }
    SettledAtOnce(server, cfg, batch);
  }
}
