/** What a worker puts on the wire: only rows of its batch, and the replies it acts on are the server's. */
module HistoryFacts {
  import opened Basics
  import opened LoadProtocol
  import opened LoadFallback
  import opened LoadWorker
  import opened FallbackFacts

  ghost predicate Within(rows: seq<Row>, all: seq<Row>) {
    forall i :: 0 <= i < |rows| ==> rows[i] in all
  }

  /** Every line of the request carries a row of the batch. */
  ghost predicate FromBatch(cfg: Config, all: seq<Row>, request: Request)
    requires cfg.Valid()
  {
    forall j :: 0 <= j < |request.lines| ==> CarriesSome(cfg, all, request, j)
  }

  ghost predicate CarriesSome(cfg: Config, all: seq<Row>, request: Request, j: nat)
    requires cfg.Valid()
  {
    exists row :: row in all && Carries(cfg, request, j, row)
  }

  /** The exchanges of h' after h: genuine replies to requests made of batch rows. */
  ghost predicate Genuine(server: Server, cfg: Config, all: seq<Row>, h: History, h': History)
    requires cfg.Valid()
  {
    h <= h' &&
    forall n :: |h| <= n < |h'| ==>
      h'[n].reply == server(h'[..n], h'[n].request) && FromBatch(cfg, all, h'[n].request)
  }

  lemma Unchanged(server: Server, cfg: Config, all: seq<Row>, h: History)
    requires cfg.Valid()
    ensures Genuine(server, cfg, all, h, h)
  {
  }

  lemma OneExchange(server: Server, cfg: Config, all: seq<Row>, h: History, request: Request)
    requires cfg.Valid() && FromBatch(cfg, all, request)
    ensures Genuine(server, cfg, all, h, h + [Exchange(request, server(h, request))])
  {
    var h' := h + [Exchange(request, server(h, request))];
    assert h'[..|h|] == h;
  }

  lemma Chained(server: Server, cfg: Config, all: seq<Row>, h0: History, h1: History, h2: History)
    requires cfg.Valid() && Genuine(server, cfg, all, h0, h1) && Genuine(server, cfg, all, h1, h2)
    ensures Genuine(server, cfg, all, h0, h2)
  {
    hide FromBatch;
    forall n | |h0| <= n < |h2|
      ensures h2[n].reply == server(h2[..n], h2[n].request) && FromBatch(cfg, all, h2[n].request)
    {
      if n < |h1| {
        assert h2[n] == h1[n] && h2[..n] == h1[..n];
      }
    }
  }

  lemma {:induction false} SinglesGenuine(server: Server, cfg: Config, rows: seq<Row>, all: seq<Row>, h: History)
    requires cfg.Valid() && Within(rows, all)
    ensures Genuine(server, cfg, all, h, Singles(server, cfg, rows, h).hist)
  {
    hide Genuine, Singles, Single;
    if rows == [] {
      Unchanged(server, cfg, all, h);
      NoSingles(server, cfg, h);
    } else {
      var init, last := rows[..|rows| - 1], rows[|rows| - 1];
      assert rows == init + [last];
      SinglesGenuine(server, cfg, init, all, h);
      SinglesExtend(server, cfg, init, last, h);
      var a := Singles(server, cfg, init, h);
      SingleGenuine(server, cfg, last, all, a.hist);
      Chained(server, cfg, all, h, a.hist, Single(server, cfg, last, a.hist).hist);
    }
  }

  lemma NoSingles(server: Server, cfg: Config, h: History)
    requires cfg.Valid()
    ensures Singles(server, cfg, [], h) == Untouched(h)
  {
  }

  lemma SingleGenuine(server: Server, cfg: Config, row: Row, all: seq<Row>, h: History)
    requires cfg.Valid() && row in all
    ensures Genuine(server, cfg, all, h, Single(server, cfg, row, h).hist)
  {
    hide Genuine, SingleLine, SingleHeader;
    if Malformed(cfg, row) {
      Unchanged(server, cfg, all, h);
    } else {
      var request := SingleRequest(cfg, row);
      assert Carries(cfg, request, 0, row);
      OneExchange(server, cfg, all, h, request);
    }
  }

  lemma BisectRequestFromBatch(cfg: Config, valid: seq<Row>, all: seq<Row>)
    requires cfg.Valid() && AllWellFormed(cfg, valid) && Within(valid, all)
    ensures FromBatch(cfg, all, BisectRequest(cfg, valid))
  {
    hide FallbackLine, FallbackHeader, SingleLine, SingleHeader, WorkerLine, WorkerHeader, TooShort;
    var request := BisectRequest(cfg, valid);
    forall j | 0 <= j < |request.lines|
      ensures CarriesSome(cfg, all, request, j)
    {
      assert Carries(cfg, request, j, valid[j]);
    }
  }

  lemma {:induction false} MissingWithin(rows: seq<Row>, ids: seq<Option<int>>, n: nat, all: seq<Row>)
    requires n <= |rows| && Within(rows, all)
    ensures Within(Missing(rows, ids, n), all)
  {
    if n > 0 {
      MissingWithin(rows, ids, n - 1, all);
    }
  }

  lemma {:induction false} FilteredWithin(cfg: Config, rows: seq<Row>, all: seq<Row>)
    requires Within(rows, all)
    ensures Within(WellFormed(cfg, rows), all) && Within(Sendable(cfg, rows), all)
  {
    if rows != [] {
      FilteredWithin(cfg, rows[..|rows| - 1], all);
    }
  }

  lemma {:induction false} BisectGenuine(server: Server, cfg: Config, valid: seq<Row>, all: seq<Row>, h: History)
    requires cfg.Valid() && AnswersProgress(server) && AllWellFormed(cfg, valid) && Within(valid, all)
    ensures Genuine(server, cfg, all, h, Bisect(server, cfg, valid, h).hist)
    decreases |valid|
  {
    hide Genuine, BisectRequest, Missing, Singles, AnswersProgress, BulkLoaded, Malformed;
    if |valid| <= 1 {
      SinglesGenuine(server, cfg, valid, all, h);
      return;
    }
    var request := BisectRequest(cfg, valid);
    var reply := server(h, request);
    var h' := h + [Exchange(request, reply)];
    BisectRequestFromBatch(cfg, valid, all);
    OneExchange(server, cfg, all, h, request);
    if reply.Answer? && reply.ids != [] {
      var missing := Missing(valid, reply.ids, |valid|);
      MissingWithin(valid, reply.ids, |valid|, all);
      MissingIsShorter(server, h, request, valid);
      MissingKeepsWidth(cfg, valid, reply.ids, |valid|);
      if |missing| == 1 {
        SinglesGenuine(server, cfg, missing, all, h');
        Chained(server, cfg, all, h, h', Singles(server, cfg, missing, h').hist);
      } else if |missing| > 1 {
        BisectGenuine(server, cfg, missing, all, h');
        Chained(server, cfg, all, h, h', Bisect(server, cfg, missing, h').hist);
      }
    } else {
      var mid := |valid| / 2;
      var left := Bisect(server, cfg, valid[..mid], h');
      BisectGenuine(server, cfg, valid[..mid], all, h');
      BisectGenuine(server, cfg, valid[mid..], all, left.hist);
      Chained(server, cfg, all, h, h', left.hist);
      Chained(server, cfg, all, h, left.hist, Bisect(server, cfg, valid[mid..], left.hist).hist);
    }
  }

  lemma FallbackGenuine(server: Server, cfg: Config, rows: seq<Row>, all: seq<Row>, h: History)
    requires cfg.Valid() && AnswersProgress(server) && Within(rows, all)
    ensures Genuine(server, cfg, all, h, Fallback(server, cfg, rows, h).hist)
  {
    hide Genuine, Bisect;
    FilteredWithin(cfg, rows, all);
    BisectGenuine(server, cfg, WellFormed(cfg, rows), all, h);
  }

  lemma WorkerRequestFromBatch(cfg: Config, valid: seq<Row>, all: seq<Row>)
    requires cfg.Valid() && Within(valid, all)
    requires forall i :: 0 <= i < |valid| ==> !TooShort(cfg, valid[i])
    ensures FromBatch(cfg, all, WorkerRequest(cfg, valid))
  {
    hide FallbackLine, FallbackHeader, SingleLine, SingleHeader, WorkerLine, WorkerHeader, TooShort, Malformed;
    var request := WorkerRequest(cfg, valid);
    forall j | 0 <= j < |request.lines|
      ensures CarriesSome(cfg, all, request, j)
    {
      assert Carries(cfg, request, j, valid[j]);
    }
  }

  lemma TryChunkGenuine(server: Server, cfg: Config, current: seq<Row>, valid: seq<Row>, all: seq<Row>, chunk: nat,
                        conflicts: nat, h: History)
    requires cfg.Valid() && AnswersProgress(server) && chunk >= 1
    requires Within(current, all) && Within(valid, all)
    requires forall i :: 0 <= i < |valid| ==> !TooShort(cfg, valid[i])
    ensures Genuine(server, cfg, all, h, TryChunk(server, cfg, current, valid, chunk, conflicts, h).done.out.hist)
  {
    hide Genuine, Fallback, WorkerRequest, TooShort, AnswersProgress, Acks, Missing, Credits;
    var request := WorkerRequest(cfg, valid);
    var reply := server(h, request);
    var h' := h + [Exchange(request, reply)];
    WorkerRequestFromBatch(cfg, valid, all);
    OneExchange(server, cfg, all, h, request);
    FallbackGenuine(server, cfg, current, all, h');
    Chained(server, cfg, all, h, h', Fallback(server, cfg, current, h').hist);
    if Verdict(cfg, valid, reply) == None {
      var missing := Missing(valid, reply.ids, |valid|);
      MissingWithin(valid, reply.ids, |valid|, all);
      FallbackGenuine(server, cfg, missing, all, h');
      Chained(server, cfg, all, h, h', Fallback(server, cfg, missing, h').hist);
    }
  }

  lemma IterateGenuine(server: Server, cfg: Config, queue: seq<Row>, all: seq<Row>, chunk: nat, conflicts: nat,
                       h: History)
    requires cfg.Valid() && AnswersProgress(server) && queue != [] && chunk >= 1 && Within(queue, all)
    ensures var s := Iterate(server, cfg, queue, chunk, conflicts, h);
      Genuine(server, cfg, all, h, s.done.out.hist) && Within(s.queue, all)
  {
    hide Genuine, TryChunk, TooShort, AnswersProgress;
    var current := queue[..Min(chunk, |queue|)];
    var valid := Sendable(cfg, current);
    FilteredWithin(cfg, current, all);
    Unchanged(server, cfg, all, h);
    if valid != [] {
      TryChunkGenuine(server, cfg, current, valid, all, chunk, conflicts, h);
    }
  }

  lemma {:induction false} WorkGenuine(server: Server, cfg: Config, queue: seq<Row>, all: seq<Row>, chunk: nat,
                                       conflicts: nat, h: History)
    requires cfg.Valid() && AnswersProgress(server) && (queue != [] ==> chunk >= 1) && Within(queue, all)
    ensures Genuine(server, cfg, all, h, Work(server, cfg, queue, chunk, conflicts, h).out.hist)
    decreases |queue|, chunk
  {
    hide Genuine, Iterate, AnswersProgress;
    Unchanged(server, cfg, all, h);
    if queue != [] {
      var s := Iterate(server, cfg, queue, chunk, conflicts, h);
      IterateGenuine(server, cfg, queue, all, chunk, conflicts, h);
      WorkGenuine(server, cfg, s.queue, all, s.chunk, s.conflicts, s.done.out.hist);
      Chained(server, cfg, all, h, s.done.out.hist,
              Work(server, cfg, s.queue, s.chunk, s.conflicts, s.done.out.hist).out.hist);
    }
  }

  /** Whatever the server does, a worker only ever sends rows of its own batch. */
  lemma BatchGenuine(server: Server, cfg: Config, batch: seq<Row>, forceCreate: bool, h: History)
    requires cfg.Valid() && AnswersProgress(server)
    ensures Genuine(server, cfg, batch, h, Execute(server, cfg, batch, forceCreate, h).out.hist)
  {
    assert Within(batch, batch);
    if forceCreate {
      SinglesGenuine(server, cfg, batch, batch, h);
    } else {
      WorkGenuine(server, cfg, batch, batch, |batch|, 0, h);
    }
  }
}
