/** How the Pass 1 worker reacts to each class of error, seen from whole batches against simple servers. */
module WorkerReactions {
  import opened Basics
  import opened LoadProtocol
  import opened LoadFallback
  import opened FallbackFacts
  import opened LoadWorker
  import opened WorkerFacts
  import opened RowIsolation

  /** An iteration over rows that are all sent is the attempt on its chunk. */
  lemma IterationIsAttempt(server: Server, cfg: Config, queue: seq<Row>, chunk: nat, conflicts: nat, h: History)
    requires cfg.Valid() && AnswersProgress(server) && NoneTooShort(cfg, queue) && queue != [] && chunk >= 1
    ensures var current := queue[..Min(chunk, |queue|)];
      NoneTooShort(cfg, current) && Sendable(cfg, current) == current
    ensures var n := Min(chunk, |queue|);
      var a, s := TryChunk(server, cfg, queue[..n], queue[..n], chunk, conflicts, h),
                  Iterate(server, cfg, queue, chunk, conflicts, h);
      && s.queue == (if a.consumed then queue[n..] else queue) && s.chunk == a.chunk && s.conflicts == a.conflicts
      && s.done.out.hist == a.done.out.hist && s.done.out.idMap == a.done.out.idMap
      && s.done.out.failed == a.done.out.failed && s.done.handed == a.done.handed
  {
    hide AnswersProgress, TryChunk, TooShort, Sendable, Dropped;
    NothingDropped(cfg, queue[..Min(chunk, |queue|)]);
  }

  // ----- A server with a limit on the size of requests -----

  /** Requests of more than m lines are too large, or time out at the gateway; others are loaded. */
  ghost predicate SizeLimited(server: Server, m: nat) {
    forall h: History, request: Request :: LimitedReply(server(h, request), |request.lines|, m)
  }

  predicate LimitedReply(reply: Reply, n: nat, m: nat) {
    if n > m then reply == Raised(TooLarge) || reply == Raised(Transient(false)) else Confirms(reply, n)
  }

  lemma LimitIsHonest(server: Server, m: nat)
    requires SizeLimited(server, m)
    ensures AnswersProgress(server) && AnswersWithoutHoles(server)
  {
    forall h: History, request: Request
      ensures ReplyProgresses(server(h, request), |request.lines|)
      ensures ReplyHasNoHole(server(h, request), |request.lines|)
    {
      var reply := server(h, request);
      assert LimitedReply(reply, |request.lines|, m);
      if reply.Answer? && |request.lines| >= 1 {
        assert Acked(reply.ids, 0);
      }
    }
  }

  predicate AllReach(cfg: Config, rows: seq<Row>) {
    forall i :: 0 <= i < |rows| ==> cfg.uid < |rows[i].cells|
  }

  lemma LimitedChunk(server: Server, cfg: Config, current: seq<Row>, chunk: nat, conflicts: nat, h: History, m: nat)
    requires cfg.Valid() && SizeLimited(server, m) && AnswersProgress(server) && m >= 1
    requires NoneTooShort(cfg, current) && AllReach(cfg, current) && 0 < |current| <= chunk
    ensures var a := TryChunk(server, cfg, current, current, chunk, conflicts, h);
      a.done.out.failed == [] && a.done.handed == 0
  {
    hide AnswersProgress, WorkerRequest, TooShort, Acks, Missing, Credits, Fallback;
    var request := WorkerRequest(cfg, current);
    assert LimitedReply(server(h, request), |request.lines|, m);
  }

  lemma LimitedIterate(server: Server, cfg: Config, queue: seq<Row>, chunk: nat, conflicts: nat, h: History, m: nat)
    requires cfg.Valid() && SizeLimited(server, m) && AnswersProgress(server) && m >= 1
    requires NoneTooShort(cfg, queue) && AllReach(cfg, queue) && queue != [] && chunk >= 1
    ensures var s := Iterate(server, cfg, queue, chunk, conflicts, h);
      s.done.out.failed == [] && s.done.handed == 0 && NoneTooShort(cfg, s.queue) && AllReach(cfg, s.queue)
  {
    hide AnswersProgress, SizeLimited, TryChunk, Iterate, TooShort, Sendable;
    var current := queue[..Min(chunk, |queue|)];
    IterationIsAttempt(server, cfg, queue, chunk, conflicts, h);
    LimitedChunk(server, cfg, current, chunk, conflicts, h, m);
  }

  lemma {:induction false} LimitedWork(server: Server, cfg: Config, queue: seq<Row>, chunk: nat, conflicts: nat,
                                       h: History, m: nat)
    requires cfg.Valid() && SizeLimited(server, m) && AnswersProgress(server) && m >= 1
    requires NoneTooShort(cfg, queue) && AllReach(cfg, queue) && (queue != [] ==> chunk >= 1)
    ensures var t := Work(server, cfg, queue, chunk, conflicts, h); t.out.failed == [] && t.handed == 0
    decreases |queue|, chunk
  {
    hide AnswersProgress, SizeLimited, Iterate, NoneTooShort, AllReach;
    if queue != [] {
      LimitedIterate(server, cfg, queue, chunk, conflicts, h, m);
      var s := Iterate(server, cfg, queue, chunk, conflicts, h);
      LimitedWork(server, cfg, s.queue, s.chunk, s.conflicts, s.done.out.hist, m);
    }
  }

  /**
   However small the largest request the server takes, halving finds it: every row is acknowledged, none
   fails, and none needs the fallback.
   */
  lemma HalvingMeetsTheLimit(server: Server, cfg: Config, batch: seq<Row>, h: History, m: nat)
    requires cfg.Valid() && SizeLimited(server, m) && m >= 1
    requires NoneTooShort(cfg, batch) && AllReach(cfg, batch)
    ensures AnswersProgress(server)
    ensures var t := Execute(server, cfg, batch, false, h);
      t.out.failed == [] && t.handed == 0 && AckedRows(t.out.acks) == multiset(batch)
  {
    hide AnswersProgress, AnswersWithoutHoles, SizeLimited, Work;
    LimitIsHonest(server, m);
    LimitedWork(server, cfg, batch, |batch|, 0, h, m);
    WorkSettles(server, cfg, batch, |batch|, 0, h);
  }

  // ----- Left-out rows -----

  /** A single row left out of the first answer is recorded as failed without another call; several are tried again. */
  lemma LoneMissingRow(server: Server, cfg: Config, batch: seq<Row>)
    requires cfg.Valid() && AnswersProgress(server) && batch != [] && NoneTooShort(cfg, batch) && AllReach(cfg, batch)
    requires var reply := server([], WorkerRequest(cfg, batch));
      reply.Answer? && reply.error.None? && |reply.ids| == |batch| - 1 && forall i :: 0 <= i < |reply.ids| ==>
          Acked(reply.ids, i)
    ensures var t := Execute(server, cfg, batch, false, []);
      && |t.out.hist| == 1 && t.out.failed == [batch[|batch| - 1]] && |t.out.acks| == |batch| - 1
  {
    hide AnswersProgress, WorkerRequest, TooShort, Fallback;
    var reply := server([], WorkerRequest(cfg, batch));
    var n := |batch| - 1;
    FullAnswerMissesNone(batch, reply.ids, n);
    AllAcked(batch, reply.ids, 0, n);
    AnswerStep(batch, reply.ids, 0, n);
    assert TryChunk(server, cfg, batch, batch, |batch|, 0, []).consumed;
    SettledAtOnce(server, cfg, batch);
  }

  lemma {:induction false} AllAcked(rows: seq<Row>, ids: seq<Option<int>>, call: nat, n: nat)
    requires n <= |rows| && forall i :: 0 <= i < n ==> Acked(ids, i)
    ensures |Acks(rows, ids, call, n)| == n
  {
    if n > 0 {
      AllAcked(rows, ids, call, n - 1);
    }
  }

  // ----- A server that always raises the same error -----

  ghost predicate Raises(server: Server, kind: ErrorKind) {
    forall h: History, request: Request :: server(h, request) == Raised(kind)
  }

  lemma RaisingIsHonest(server: Server, kind: ErrorKind)
    requires Raises(server, kind)
    ensures AnswersProgress(server) && AnswersWithoutHoles(server)
  {
    forall h: History, request: Request
      ensures ReplyProgresses(server(h, request), |request.lines|)
      ensures ReplyHasNoHole(server(h, request), |request.lines|)
    {
      assert server(h, request) == Raised(kind);
    }
  }

  lemma {:induction false} SinglesRefused(server: Server, cfg: Config, rows: seq<Row>, h: History, kind: ErrorKind)
    requires cfg.Valid() && Raises(server, kind) && AllWellFormed(cfg, rows)
    ensures var o := Singles(server, cfg, rows, h); o.failed == rows && o.idMap == map[] && o.acks == []
  {
    hide SingleRequest;
    if rows != [] {
      var init, last := rows[..|rows| - 1], rows[|rows| - 1];
      SinglesRefused(server, cfg, init, h, kind);
      var h' := Singles(server, cfg, init, h).hist;
      assert server(h', SingleRequest(cfg, last)) == Raised(kind);
      assert init + [last] == rows;
    }
  }

  lemma {:induction false} BisectRefused(server: Server, cfg: Config, valid: seq<Row>, h: History, kind: ErrorKind)
    requires cfg.Valid() && Raises(server, kind) && AnswersProgress(server) && AllWellFormed(cfg, valid)
    ensures var o := Bisect(server, cfg, valid, h); o.failed == valid && o.idMap == map[] && o.acks == []
    decreases |valid|
  {
    hide AnswersProgress, BisectRequest, Singles;
    if |valid| <= 1 {
      SinglesRefused(server, cfg, valid, h, kind);
    } else {
      var request := BisectRequest(cfg, valid);
      var mid, h' := |valid| / 2, h + [Exchange(request, server(h, request))];
      assert server(h, request) == Raised(kind);
      BisectRefused(server, cfg, valid[..mid], h', kind);
      BisectRefused(server, cfg, valid[mid..], Bisect(server, cfg, valid[..mid], h').hist, kind);
      assert valid[..mid] + valid[mid..] == valid;
    }
  }

  /** Whether the worker passes a chunk on to the fallback when all its requests raise this error. */
  predicate HandsOver(kind: ErrorKind) {
    kind != TooLarge && kind != ReadTimeout
  }

  /** Of n rows that fail, those the fallback was tried on. */
  function Handed(kind: ErrorKind, n: nat): nat {
    if HandsOver(kind) then n else 0
  }

  lemma HandedAdds(kind: ErrorKind, m: nat, n: nat)
    ensures Handed(kind, m) + Handed(kind, n) == Handed(kind, m + n) && Handed(kind, 0) == 0
  {
  }

  /** One chunk: it fails as a whole, with or without the fallback, or is tried again in halves. */
  lemma RefusedChunk(server: Server, cfg: Config, current: seq<Row>, chunk: nat, conflicts: nat, h: History,
                     kind: ErrorKind)
    requires cfg.Valid() && Raises(server, kind) && AnswersProgress(server) && AllWellFormed(cfg, current)
    requires NoneTooShort(cfg, current) && 0 < |current| <= chunk
    ensures var a := TryChunk(server, cfg, current, current, chunk, conflicts, h);
      && a.done.out.idMap == map[]
      && a.done.out.failed == (if a.consumed then current else [])
      && a.done.handed == Handed(kind, if a.consumed then |current| else 0)
      && (kind == ReadTimeout || kind == Permanent ==> a.consumed)
      && (kind == ReadTimeout ==> |a.done.out.hist| == |h| + 1)
  {
    hide AnswersProgress, WorkerRequest, TooShort, Fallback, Absorb, Raises, Malformed;
    var request := WorkerRequest(cfg, current);
    RaisedAt(server, h, request, kind);
    FallbackRefused(server, cfg, current, h + [Exchange(request, Raised(kind))], kind);
  }

  lemma RaisedAt(server: Server, h: History, request: Request, kind: ErrorKind)
    requires Raises(server, kind)
    ensures server(h, request) == Raised(kind)
  {
  }

  lemma FallbackRefused(server: Server, cfg: Config, rows: seq<Row>, h: History, kind: ErrorKind)
    requires cfg.Valid() && Raises(server, kind) && AnswersProgress(server) && AllWellFormed(cfg, rows)
    ensures Fallback(server, cfg, rows, h).failed == rows && Fallback(server, cfg, rows, h).idMap == map[]
  {
    hide AnswersProgress, Raises, Malformed;
    FallbackIsBisect(server, cfg, rows, h);
    BisectRefused(server, cfg, rows, h, kind);
  }

  lemma RefusedIterate(server: Server, cfg: Config, queue: seq<Row>, chunk: nat, conflicts: nat, h: History,
                       kind: ErrorKind)
    requires cfg.Valid() && Raises(server, kind) && AnswersProgress(server) && AllWellFormed(cfg, queue)
    requires NoneTooShort(cfg, queue) && queue != [] && chunk >= 1
    ensures var s := Iterate(server, cfg, queue, chunk, conflicts, h);
      && s.done.out.failed + s.queue == queue && s.done.out.idMap == map[]
      && s.done.handed + Handed(kind, |s.queue|) == Handed(kind, |queue|)
      && AllWellFormed(cfg, s.queue) && NoneTooShort(cfg, s.queue)
      && (kind == ReadTimeout ==> |s.done.out.hist| == |h| + 1 && |s.queue| < |queue|
                                  && (|queue| <= chunk ==> s.queue == []))
  {
    hide AnswersProgress, Raises, TryChunk, Iterate, TooShort, Malformed, Handed, HandsOver, Sendable;
    var n := Min(chunk, |queue|);
    var current, rest := queue[..n], queue[n..];
    IterationIsAttempt(server, cfg, queue, chunk, conflicts, h);
    RefusedChunk(server, cfg, current, chunk, conflicts, h, kind);
    assert current + rest == queue && [] + queue == queue;
    HandedAdds(kind, |current|, |rest|);
    HandedAdds(kind, 0, |queue|);
  }

  lemma {:induction false} RefusedWork(server: Server, cfg: Config, queue: seq<Row>, chunk: nat, conflicts: nat,
                                       h: History, kind: ErrorKind)
    requires cfg.Valid() && Raises(server, kind) && AnswersProgress(server) && AllWellFormed(cfg, queue)
    requires NoneTooShort(cfg, queue) && (queue != [] ==> chunk >= 1)
    ensures var t := Work(server, cfg, queue, chunk, conflicts, h);
      && t.out.failed == queue && t.out.idMap == map[]
      && t.handed == Handed(kind, |queue|)
      && (kind == ReadTimeout && 0 < |queue| <= chunk ==> |t.out.hist| == |h| + 1)
    decreases |queue|, chunk
  {
    hide AnswersProgress, Raises, Iterate, NoneTooShort, AllWellFormed, Handed;
    HandedAdds(kind, 0, 0);
    if queue != [] {
      var s := Iterate(server, cfg, queue, chunk, conflicts, h);
      RefusedIterate(server, cfg, queue, chunk, conflicts, h, kind);
      RefusedWork(server, cfg, s.queue, s.chunk, s.conflicts, s.done.out.hist, kind);
    }
  }

  /**
   A server that always raises the same error: every row fails, once and in order. The fallback is tried
   unless the error is a read time-out, after which the batch is not sent again, or says that the request
   is too large, even for a lone row.
   */
  lemma AlwaysRefused(server: Server, cfg: Config, batch: seq<Row>, h: History, kind: ErrorKind)
    requires cfg.Valid() && Raises(server, kind) && AllWellFormed(cfg, batch) && NoneTooShort(cfg, batch)
    ensures AnswersProgress(server)
    ensures var t := Execute(server, cfg, batch, false, h);
      && t.out.failed == batch && t.out.idMap == map[]
      && t.handed == (if HandsOver(kind) then |batch| else 0)
      && (kind == ReadTimeout && batch != [] ==> |t.out.hist| == |h| + 1)
  {
    RaisingIsHonest(server, kind);
    RefusedWork(server, cfg, batch, |batch|, 0, h, kind);
  }

  // ----- Serialization conflicts -----

  /** Two conflicts halve the chunk; the third passes what is left of the chunk, a quarter, to the fallback. */
  lemma ThirdConflictFallsBack(server: Server, cfg: Config, batch: seq<Row>, h: History)
    requires cfg.Valid() && Raises(server, Transient(true)) && AllWellFormed(cfg, batch) && NoneTooShort(cfg, batch)
    requires |batch| >= 8
    ensures AnswersProgress(server)
    ensures var sent, n := Execute(server, cfg, batch, false, h).out.hist, |batch|;
      && |sent| >= |h| + 4
      && sent[|h|].request == WorkerRequest(cfg, batch)
      && sent[|h| + 1].request == WorkerRequest(cfg, batch[..n / 2])
      && sent[|h| + 2].request == WorkerRequest(cfg, batch[..n / 4])
      && sent[|h| + 3].request == BisectRequest(cfg, batch[..n / 4])
  {
    RaisingIsHonest(server, Transient(true));
    hide AnswersProgress, Raises, Iterate, Malformed, TooShort, WorkerRequest, BisectRequest;
    var n := |batch|;
    var a := Conflict(server, cfg, batch, n, 0, h);
    var b := Conflict(server, cfg, batch, n / 2, 1, a);
    var c := GivesUp(server, cfg, batch, n / 2 / 2, b);
    assert n / 2 / 2 == n / 4;
  }

  /** One of the first two conflicts: the same queue is tried again with half the chunk. */
  lemma Conflict(server: Server, cfg: Config, queue: seq<Row>, chunk: nat, conflicts: nat, h: History)
    returns (h': History)
    requires cfg.Valid() && Raises(server, Transient(true)) && AnswersProgress(server) && AllWellFormed(cfg, queue)
    requires NoneTooShort(cfg, queue) && 2 <= chunk <= |queue| && conflicts <= 1
    ensures NoneTooShort(cfg, queue[..chunk])
    ensures h' == h + [Exchange(WorkerRequest(cfg, queue[..chunk]), Raised(Transient(true)))]
    ensures Work(server, cfg, queue, chunk, conflicts, h).out.hist
            == Work(server, cfg, queue, chunk / 2, conflicts + 1, h').out.hist
  {
    hide AnswersProgress, TryChunk, WorkerRequest, TooShort, Sendable, Dropped, Raises;
    var current := queue[..chunk];
    NothingDropped(cfg, current);
    h' := TryConflict(server, cfg, current, chunk, conflicts, h);
  }

  lemma TryConflict(server: Server, cfg: Config, current: seq<Row>, chunk: nat, conflicts: nat, h: History)
    returns (h': History)
    requires cfg.Valid() && Raises(server, Transient(true)) && AnswersProgress(server)
    requires NoneTooShort(cfg, current) && chunk >= 2 && conflicts <= 1
    ensures h' == h + [Exchange(WorkerRequest(cfg, current), Raised(Transient(true)))]
    ensures TryChunk(server, cfg, current, current, chunk, conflicts, h)
            == Attempt(Tally(Untouched(h'), 1, 0), false, chunk / 2, conflicts + 1)
  {
    hide AnswersProgress, WorkerRequest, TooShort, Fallback, Absorb;
    var request := WorkerRequest(cfg, current);
    assert server(h, request) == Raised(Transient(true));
    h' := h + [Exchange(request, Raised(Transient(true)))];
  }

  lemma GivesUp(server: Server, cfg: Config, queue: seq<Row>, chunk: nat, h: History) returns (h': History)
    requires cfg.Valid() && Raises(server, Transient(true)) && AnswersProgress(server) && AllWellFormed(cfg, queue)
    requires NoneTooShort(cfg, queue) && 2 <= chunk <= |queue|
    ensures NoneTooShort(cfg, queue[..chunk]) && AllWellFormed(cfg, queue[..chunk])
    ensures h' == h + [Exchange(WorkerRequest(cfg, queue[..chunk]), Raised(Transient(true)))]
                    + [Exchange(BisectRequest(cfg, queue[..chunk]), Raised(Transient(true)))]
    ensures h' <= Work(server, cfg, queue, chunk, 2, h).out.hist
  {
    hide AnswersProgress, TryChunk, WorkerRequest, BisectRequest, TooShort, Malformed, Sendable, Dropped, Raises;
    var current := queue[..chunk];
    NothingDropped(cfg, current);
    h' := TryThird(server, cfg, current, chunk, h);
  }

  lemma TryThird(server: Server, cfg: Config, current: seq<Row>, chunk: nat, h: History) returns (h': History)
    requires cfg.Valid() && Raises(server, Transient(true)) && AnswersProgress(server) && AllWellFormed(cfg, current)
    requires NoneTooShort(cfg, current) && |current| >= 2 && chunk >= 2
    ensures h' == h + [Exchange(WorkerRequest(cfg, current), Raised(Transient(true)))]
                    + [Exchange(BisectRequest(cfg, current), Raised(Transient(true)))]
    ensures h' <= TryChunk(server, cfg, current, current, chunk, 2, h).done.out.hist
  {
    hide AnswersProgress, WorkerRequest, TooShort, Bisect, Absorb, BisectRequest;
    var request := WorkerRequest(cfg, current);
    assert server(h, request) == Raised(Transient(true));
    var first := h + [Exchange(request, Raised(Transient(true)))];
    FallbackIsBisect(server, cfg, current, first);
    h' := BisectStarts(server, cfg, current, first);
  }

  lemma BisectStarts(server: Server, cfg: Config, valid: seq<Row>, h: History) returns (h': History)
    requires cfg.Valid() && Raises(server, Transient(true)) && AnswersProgress(server) && AllWellFormed(cfg, valid)
    requires |valid| >= 2
    ensures h' == h + [Exchange(BisectRequest(cfg, valid), Raised(Transient(true)))]
    ensures h' <= Bisect(server, cfg, valid, h).hist
  {
    hide AnswersProgress, BisectRequest, Malformed;
    assert server(h, BisectRequest(cfg, valid)) == Raised(Transient(true));
    h' := h + [Exchange(BisectRequest(cfg, valid), Raised(Transient(true)))];
  }

  /** Conflicts are counted in a row and modulo three; each halves the chunk, and the third gives it up. */
  lemma ConflictsInARow(server: Server, cfg: Config, current: seq<Row>, chunk: nat, conflicts: nat, h: History)
    requires cfg.Valid() && AnswersProgress(server) && NoneTooShort(cfg, current) && chunk >= 2 && conflicts <= 2
    requires var reply := server(h, WorkerRequest(cfg, current));
      reply == Raised(Transient(true)) || Confirms(reply, |current|)
    requires AllReach(cfg, current)
    ensures var a := TryChunk(server, cfg, current, current, chunk, conflicts, h);
      if server(h, WorkerRequest(cfg, current)).Raised? then
        a.conflicts == (conflicts + 1) % 3 && a.chunk == chunk / 2 && (a.consumed <==> conflicts == 2)
      else a.conflicts == 0 && a.chunk == chunk && a.consumed
  {
    hide AnswersProgress, WorkerRequest, TooShort, Fallback, Absorb;
  }

  // ----- What counts as created -----

  /** The last acknowledgement of a key. */
  predicate LastOf(cfg: Config, acks: seq<Ack>, key: string, i: nat)
    requires AcksReach(cfg, acks)
  {
    i < |acks| && Key(cfg, acks[i].row) == key && forall j :: i < j < |acks| ==> Key(cfg, acks[j].row) != key
  }

  predicate AcksReach(cfg: Config, acks: seq<Ack>) {
    forall i :: 0 <= i < |acks| ==> cfg.uid < |acks[i].row.cells|
  }

  /** The id map has each acknowledged key, the blank one where that is asked for, with the id acknowledged last. */
  lemma {:induction false} CreditsMean(cfg: Config, acks: seq<Ack>, blanksToo: bool, key: string)
    requires AcksReach(cfg, acks)
    ensures key in Credits(cfg, acks, blanksToo) <==>
            (key != "" || blanksToo) && exists i: nat :: LastOf(cfg, acks, key, i)
    ensures forall i: nat :: LastOf(cfg, acks, key, i) && (key != "" || blanksToo) ==>
              Credits(cfg, acks, blanksToo)[key] == acks[i].id
  {
    hide Key;
    if acks != [] {
      var n := |acks| - 1;
      var init := acks[..n];
      CreditsMean(cfg, init, blanksToo, key);
      if Key(cfg, acks[n].row) == key {
        assert LastOf(cfg, acks, key, n);
      } else {
        forall i: nat ensures LastOf(cfg, acks, key, i) <==> LastOf(cfg, init, key, i) {
        }
      }
    }
  }

  /**
   A bulk load of the fallback reports no blank key, and every other key it acknowledged if it sends the id column.
   */
  lemma FallbackSkipsBlanks(cfg: Config, acks: seq<Ack>, key: string)
    requires cfg.Valid() && AcksReach(cfg, acks)
    ensures "" !in FallbackCredits(cfg, acks)
    ensures cfg.header[cfg.uid] !in cfg.ignore && key != "" && (exists i: nat :: LastOf(cfg, acks, key, i)) ==>
              key in FallbackCredits(cfg, acks)
  {
    hide Credits, LastOf, KeptFrom;
    CreditsMean(cfg, acks, false, "");
    CreditsMean(cfg, acks, false, key);
    if cfg.header[cfg.uid] !in cfg.ignore {
      KeptContains(cfg, FallbackPath, 0, cfg.uid);
    }
  }

  /** Where the bulk answer and the fallback name the same key, the bulk answer's id stays. */
  lemma BulkIdStays(server: Server, cfg: Config, valid: seq<Row>, reply: Reply, call: nat, h: History, key: string,
      i: nat)
    requires cfg.Valid() && AnswersProgress(server) && Verdict(cfg, valid, reply) == None
    requires reply.Answer? && AcksReach(cfg, Acks(valid, reply.ids, call, |valid|))
    requires LastOf(cfg, Acks(valid, reply.ids, call, |valid|), key, i)
    ensures key in Absorb(server, cfg, valid, reply, call, h).out.idMap
    ensures Absorb(server, cfg, valid, reply, call, h).out.idMap[key] == Acks(valid, reply.ids, call, |valid|)[i].id
  {
    hide Acks, Credits, Missing, Fallback, AnswersProgress, LastOf;
    CreditsMean(cfg, Acks(valid, reply.ids, call, |valid|), true, key);
  }

  /** Every line is answered with the id 0. */
  ghost predicate AnswersZero(server: Server) {
    forall h: History, request: Request ::
      server(h, request) == Answer(seq(|request.lines|, _ => Some(0)), None, false)
  }

  /**
   An id of 0 counts as created in a bulk load, which asks whether it is None, and as a failure in a
   single-record load, which asks whether it is true.
   */
  lemma ZeroIsCreatedInBulkOnly(server: Server, cfg: Config, batch: seq<Row>)
    requires cfg.Valid() && AnswersZero(server) && AllWellFormed(cfg, batch) && NoneTooShort(cfg, batch) && batch != []
    ensures AnswersProgress(server)
    ensures var o := Execute(server, cfg, batch, false, []).out;
      o.failed == [] && |o.acks| == |batch| && forall key :: key in o.idMap ==> o.idMap[key] == 0
    ensures Execute(server, cfg, batch, true, []).out.failed == batch
  {
    ZeroIsHonest(server);
    ZeroSingles(server, cfg, batch, []);
    ZeroBatch(server, cfg, batch);
  }

  lemma ZeroIsHonest(server: Server)
    requires AnswersZero(server)
    ensures AnswersProgress(server)
  {
    forall h: History, request: Request ensures ReplyProgresses(server(h, request), |request.lines|) {
      var reply := server(h, request);
      assert reply == Answer(seq(|request.lines|, _ => Some(0)), None, false);
      if |request.lines| >= 1 {
        assert Acked(reply.ids, 0);
      }
    }
  }

  lemma {:induction false} ZeroSingles(server: Server, cfg: Config, rows: seq<Row>, h: History)
    requires cfg.Valid() && AnswersZero(server) && AllWellFormed(cfg, rows)
    ensures Singles(server, cfg, rows, h).failed == rows
  {
    hide SingleRequest;
    if rows != [] {
      var init, last := rows[..|rows| - 1], rows[|rows| - 1];
      ZeroSingles(server, cfg, init, h);
      var request, h' := SingleRequest(cfg, last), Singles(server, cfg, init, h).hist;
      assert server(h', request) == Answer(seq(|request.lines|, _ => Some(0)), None, false);
      assert init + [last] == rows;
    }
  }

  lemma ZeroBatch(server: Server, cfg: Config, batch: seq<Row>)
    requires cfg.Valid() && AnswersZero(server) && AnswersProgress(server) && AllWellFormed(cfg, batch)
    requires NoneTooShort(cfg, batch) && batch != []
    ensures var o := Execute(server, cfg, batch, false, []).out;
      o.failed == [] && |o.acks| == |batch| && forall key :: key in o.idMap ==> o.idMap[key] == 0
  {
    hide AnswersProgress, WorkerRequest, TooShort, Fallback, Execute, Missing, Malformed;
    var request := WorkerRequest(cfg, batch);
    var reply := server([], request);
    assert reply == Answer(seq(|batch|, _ => Some(0)), None, false);
    NoRowIsShort(cfg, batch, reply.ids);
    AllAcked(batch, reply.ids, 0, |batch|);
    assert TryChunk(server, cfg, batch, batch, |batch|, 0, []).consumed;
    SettledAtOnce(server, cfg, batch);
    var acks := Acks(batch, reply.ids, 0, |batch|);
    ZeroCredits(cfg, acks);
  }

  lemma {:induction false} ZeroCredits(cfg: Config, acks: seq<Ack>)
    requires AcksReach(cfg, acks) && forall i :: 0 <= i < |acks| ==> acks[i].id == 0
    ensures forall key :: key in Credits(cfg, acks, true) ==> Credits(cfg, acks, true)[key] == 0
  {
    hide Key;
    if acks != [] {
      ZeroCredits(cfg, acks[..|acks| - 1]);
    }
  }
}
