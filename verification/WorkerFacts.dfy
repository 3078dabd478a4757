/** What the Pass 1 worker guarantees against any server: settlement, evidence and bounds. */
module WorkerFacts {
  import opened Basics
  import opened LoadProtocol
  import opened LoadFallback
  import opened LoadWorker
  import opened FallbackFacts

  predicate NoneTooShort(cfg: Config, rows: seq<Row>) {
    forall i :: 0 <= i < |rows| ==> !TooShort(cfg, rows[i])
  }

  predicate AllTooShort(cfg: Config, rows: seq<Row>) {
    forall i :: 0 <= i < |rows| ==> TooShort(cfg, rows[i])
  }

  lemma {:induction false} NothingDropped(cfg: Config, rows: seq<Row>)
    requires NoneTooShort(cfg, rows)
    ensures Sendable(cfg, rows) == rows && Dropped(cfg, rows) == []
  {
    if rows != [] {
      NothingDropped(cfg, rows[..|rows| - 1]);
    }
  }

  lemma {:induction false} EverythingDropped(cfg: Config, rows: seq<Row>)
    requires AllTooShort(cfg, rows)
    ensures Sendable(cfg, rows) == [] && Dropped(cfg, rows) == rows
  {
    if rows != [] {
      EverythingDropped(cfg, rows[..|rows| - 1]);
    }
  }

  lemma {:induction false} DroppedIffTooShort(cfg: Config, rows: seq<Row>)
    ensures Dropped(cfg, rows) == [] ==> NoneTooShort(cfg, rows)
    ensures Sendable(cfg, rows) == [] ==> AllTooShort(cfg, rows)
  {
    if rows != [] {
      DroppedIffTooShort(cfg, rows[..|rows| - 1]);
      assert rows == rows[..|rows| - 1] + [rows[|rows| - 1]];
    }
  }

  lemma {:induction false} FullAnswerMissesNone(rows: seq<Row>, ids: seq<Option<int>>, n: nat)
    requires n <= |rows| && forall i :: 0 <= i < n ==> Acked(ids, i)
    ensures Missing(rows, ids, n) == []
  {
    if n > 0 {
      FullAnswerMissesNone(rows, ids, n - 1);
    }
  }

  // ----- Exactly-once settlement -----

  /** Rows of a chunk that a full-length answer with holes makes the worker forget. */
  function ChunkForgotten(server: Server, cfg: Config, valid: seq<Row>, h: History): seq<Row>
    requires forall i :: 0 <= i < |valid| ==> !TooShort(cfg, valid[i])
  {
    var reply := server(h, WorkerRequest(cfg, valid));
    if Verdict(cfg, valid, reply) == None && |reply.ids| >= |valid| then Missing(valid, reply.ids, |valid|) else []
  }

  /** The rows the worker forgets on the way through its loop. */
  function WorkForgotten(server: Server, cfg: Config, queue: seq<Row>, chunk: nat, conflicts: nat, h: History): seq<Row>
    requires cfg.Valid() && AnswersProgress(server) && (queue != [] ==> chunk >= 1)
    decreases |queue|, chunk
  {
    if queue == [] then []
    else
      var valid := Sendable(cfg, queue[..Min(chunk, |queue|)]);
      var s := Iterate(server, cfg, queue, chunk, conflicts, h);
      (if valid == [] then [] else ChunkForgotten(server, cfg, valid, h))
      + WorkForgotten(server, cfg, s.queue, s.chunk, s.conflicts, s.done.out.hist)
  }

  lemma AbsorbSettles(server: Server, cfg: Config, valid: seq<Row>, reply: Reply, call: nat, h: History)
    requires cfg.Valid() && AnswersProgress(server) && Verdict(cfg, valid, reply) == None
    ensures reply.Answer?
    ensures var handled := Handled(Absorb(server, cfg, valid, reply, call, h).out);
      if |reply.ids| >= |valid| then handled + multiset(Missing(valid, reply.ids, |valid|)) == multiset(valid)
      else handled == multiset(valid)
  {
    hide Absorb, Acks, Missing, Credits, Fallback, AckedRows, Handled, AnswersProgress;
    if |reply.ids| < |valid| {
      if |valid| - |reply.ids| > 1 && !reply.perRow {
        AbsorbHands(server, cfg, valid, reply, call, h);
      } else {
        AbsorbFails(server, cfg, valid, reply, call, h);
      }
    } else {
      AbsorbTakes(server, cfg, valid, reply, call, h);
    }
  }

  /** An answer of full length: the acknowledged rows are settled, the others are not. */
  lemma AbsorbTakes(server: Server, cfg: Config, valid: seq<Row>, reply: Reply, call: nat, h: History)
    requires cfg.Valid() && AnswersProgress(server) && Verdict(cfg, valid, reply) == None
    requires reply.Answer? && |reply.ids| >= |valid|
    ensures Handled(Absorb(server, cfg, valid, reply, call, h).out) + multiset(Missing(valid, reply.ids, |valid|))
            == multiset(valid)
  {
    hide Acks, Missing, Credits, Fallback, AckedRows, Handled, AnswersProgress, Verdict;
    AnswerSplits(valid, reply.ids, call, |valid|);
    assert valid[..|valid|] == valid;
    FullSettles(Absorb(server, cfg, valid, reply, call, h).out, Missing(valid, reply.ids, |valid|), valid);
  }

  /** A short answer that goes to the binary fallback. */
  lemma AbsorbHands(server: Server, cfg: Config, valid: seq<Row>, reply: Reply, call: nat, h: History)
    requires cfg.Valid() && AnswersProgress(server) && Verdict(cfg, valid, reply) == None
    requires reply.Answer? && |valid| - |reply.ids| > 1 && !reply.perRow
    ensures Handled(Absorb(server, cfg, valid, reply, call, h).out) == multiset(valid)
  {
    hide Acks, Missing, Credits, Fallback, AckedRows, Handled, AnswersProgress, Verdict;
    AnswerSplits(valid, reply.ids, call, |valid|);
    assert valid[..|valid|] == valid;
    var missing := Missing(valid, reply.ids, |valid|);
    FallbackSettles(server, cfg, missing, h);
    var out := Absorb(server, cfg, valid, reply, call, h).out;
    var acks := Acks(valid, reply.ids, call, |valid|);
    HandedSettles(Outcome(h, map[], [], acks), Fallback(server, cfg, missing, h), missing, valid, out.idMap);
  }

  /** A short answer whose missing rows are recorded as failed at once. */
  lemma AbsorbFails(server: Server, cfg: Config, valid: seq<Row>, reply: Reply, call: nat, h: History)
    requires cfg.Valid() && AnswersProgress(server) && Verdict(cfg, valid, reply) == None
    requires reply.Answer? && |reply.ids| < |valid| && (|valid| - |reply.ids| == 1 || reply.perRow)
    ensures Handled(Absorb(server, cfg, valid, reply, call, h).out) == multiset(valid)
  {
    hide Acks, Missing, Credits, Fallback, AckedRows, Handled, AnswersProgress, Verdict;
    AnswerSplits(valid, reply.ids, call, |valid|);
    assert valid[..|valid|] == valid;
    var out := Absorb(server, cfg, valid, reply, call, h).out;
    var missing := Missing(valid, reply.ids, |valid|);
    FailedSettles(out.(failed := []), missing, valid);
  }

  lemma FullSettles(loaded: Outcome, missing: seq<Row>, valid: seq<Row>)
    requires loaded.failed == [] && AckedRows(loaded.acks) + multiset(missing) == multiset(valid)
    ensures Handled(loaded) + multiset(missing) == multiset(valid)
  {
    JustAcked(loaded);
  }

  lemma HandedSettles(loaded: Outcome, rest: Outcome, missing: seq<Row>, valid: seq<Row>, idMap: map<string, int>)
    requires loaded.failed == [] && AckedRows(loaded.acks) + multiset(missing) == multiset(valid)
    requires Handled(rest) == multiset(missing)
    ensures Handled(loaded.Then(rest).(idMap := idMap)) == multiset(valid)
  {
    hide Handled, AckedRows;
    JustAcked(loaded);
    ThenHandles(loaded, rest);
    MapIsAside(loaded.Then(rest), idMap);
  }

  lemma FailedSettles(loaded: Outcome, missing: seq<Row>, valid: seq<Row>)
    requires AckedRows(loaded.acks) + multiset(missing) == multiset(valid)
    ensures Handled(loaded.(failed := missing)) == multiset(valid)
  {
    hide Handled, AckedRows;
    AckedAndFailed(loaded, missing);
  }

  lemma JustAcked(o: Outcome)
    requires o.failed == []
    ensures Handled(o) == AckedRows(o.acks)
  {
  }

  lemma AckedAndFailed(o: Outcome, missing: seq<Row>)
    ensures Handled(o.(failed := missing)) == AckedRows(o.acks) + multiset(missing)
  {
  }

  lemma AllFailed(h: History, rows: seq<Row>)
    ensures Handled(Outcome(h, map[], rows, [])) == multiset(rows)
  {
  }

  lemma NothingFirst(h: History, o: Outcome)
    ensures Handled(Outcome(h, map[], [], []).Then(o)) == Handled(o)
  {
    AllFailed(h, []);
    ThenHandles(Outcome(h, map[], [], []), o);
  }

  lemma TryChunkSettles(server: Server, cfg: Config, current: seq<Row>, chunk: nat, conflicts: nat, h: History)
    requires cfg.Valid() && AnswersProgress(server)
    requires chunk >= 1 && NoneTooShort(cfg, current)
    ensures var a := TryChunk(server, cfg, current, current, chunk, conflicts, h);
      Handled(a.done.out) + multiset(ChunkForgotten(server, cfg, current, h))
      == if a.consumed then multiset(current) else multiset{}
  {
    hide Handled, Absorb, Fallback, WorkerRequest, Verdict, TooShort, AnswersProgress, Missing;
    var request := WorkerRequest(cfg, current);
    var reply := server(h, request);
    var h' := h + [Exchange(request, reply)];
    if Verdict(cfg, current, reply) == None {
      AbsorbSettles(server, cfg, current, reply, |h|, h');
    } else {
      FallbackSettles(server, cfg, current, h');
      AllFailed(h', current);
      AllFailed(h', []);
    }
  }

  lemma IterateSettles(server: Server, cfg: Config, queue: seq<Row>, chunk: nat, conflicts: nat, h: History)
    requires cfg.Valid() && AnswersProgress(server)
    requires queue != [] && chunk >= 1 && NoneTooShort(cfg, queue)
    ensures var s, current := Iterate(server, cfg, queue, chunk, conflicts, h), queue[..Min(chunk, |queue|)];
      && Sendable(cfg, current) == current && NoneTooShort(cfg, s.queue)
      && Handled(s.done.out) + multiset(ChunkForgotten(server, cfg, current, h)) + multiset(s.queue) == multiset(queue)
  {
    hide Handled, TryChunk, TooShort, AnswersProgress, ChunkForgotten;
    var n := Min(chunk, |queue|);
    var current := queue[..n];
    NothingDropped(cfg, current);
    SplitMultiset(queue, n);
    TryChunkSettles(server, cfg, current, chunk, conflicts, h);
    var a := TryChunk(server, cfg, current, current, chunk, conflicts, h);
    NothingFirst(h, a.done.out);
    var s := Iterate(server, cfg, queue, chunk, conflicts, h);
    assert Handled(s.done.out) == Handled(a.done.out);
    Settling(Handled(a.done.out), multiset(ChunkForgotten(server, cfg, current, h)), multiset(current),
        multiset(queue[n..]), a.consumed);
  }

  lemma Settling<T>(handled: multiset<T>, lost: multiset<T>, current: multiset<T>, rest: multiset<T>, consumed: bool)
    requires handled + lost == if consumed then current else multiset{}
    ensures handled + lost + (if consumed then rest else current + rest) == current + rest
  {
  }

  /** Whatever the server answers, each row is settled once or forgotten once. */
  lemma {:induction false} WorkKeeps(server: Server, cfg: Config, queue: seq<Row>, chunk: nat, conflicts: nat,
                                     h: History)
    requires cfg.Valid() && AnswersProgress(server)
    requires (queue != [] ==> chunk >= 1) && NoneTooShort(cfg, queue)
    ensures Handled(Work(server, cfg, queue, chunk, conflicts, h).out)
            + multiset(WorkForgotten(server, cfg, queue, chunk, conflicts, h)) == multiset(queue)
    decreases |queue|, chunk
  {
    if queue == [] {
      AllFailed(h, []);
    } else {
      hide Handled, Iterate, AnswersProgress, ChunkForgotten, NoneTooShort, Sendable;
      var s := Iterate(server, cfg, queue, chunk, conflicts, h);
      IterateSettles(server, cfg, queue, chunk, conflicts, h);
      WorkKeeps(server, cfg, s.queue, s.chunk, s.conflicts, s.done.out.hist);
      var rest := Work(server, cfg, s.queue, s.chunk, s.conflicts, s.done.out.hist);
      var later := WorkForgotten(server, cfg, s.queue, s.chunk, s.conflicts, s.done.out.hist);
      var lost := ChunkForgotten(server, cfg, queue[..Min(chunk, |queue|)], h);
      ThenHandles(s.done.out, rest.out);
      assert queue[..Min(chunk, |queue|)] != [];
      TwoAndTwo(Handled(s.done.out), multiset(lost), Handled(rest.out), multiset(later));
      assert multiset(lost + later) == multiset(lost) + multiset(later);
    }
  }

  lemma TwoAndTwo<T>(a: multiset<T>, x: multiset<T>, b: multiset<T>, y: multiset<T>)
    ensures a + b + (x + y) == a + x + (b + y)
  {
  }

  /** Without holes in full-length answers nothing is forgotten. */
  lemma {:induction false} NothingForgotten(server: Server, cfg: Config, queue: seq<Row>, chunk: nat, conflicts: nat,
                                            h: History)
    requires cfg.Valid() && AnswersProgress(server) && AnswersWithoutHoles(server) && (queue != [] ==> chunk >= 1)
    ensures WorkForgotten(server, cfg, queue, chunk, conflicts, h) == []
    decreases |queue|, chunk
  {
    if queue != [] {
      hide Iterate, AnswersProgress, ChunkForgotten;
      var valid := Sendable(cfg, queue[..Min(chunk, |queue|)]);
      var s := Iterate(server, cfg, queue, chunk, conflicts, h);
      if valid != [] {
        ChunkRemembered(server, cfg, valid, h);
      }
      NothingForgotten(server, cfg, s.queue, s.chunk, s.conflicts, s.done.out.hist);
    }
  }

  lemma ChunkRemembered(server: Server, cfg: Config, valid: seq<Row>, h: History)
    requires AnswersWithoutHoles(server) && forall i :: 0 <= i < |valid| ==> !TooShort(cfg, valid[i])
    ensures ChunkForgotten(server, cfg, valid, h) == []
  {
    hide WorkerRequest, ReadsPastRow;
    var request := WorkerRequest(cfg, valid);
    var reply := server(h, request);
    assert ReplyHasNoHole(reply, |request.lines|);
    if reply.Answer? && |reply.ids| >= |valid| {
      FullAnswerMissesNone(valid, reply.ids, |valid|);
    }
  }

  lemma WorkSettles(server: Server, cfg: Config, queue: seq<Row>, chunk: nat, conflicts: nat, h: History)
    requires cfg.Valid() && AnswersProgress(server) && AnswersWithoutHoles(server)
    requires (queue != [] ==> chunk >= 1) && NoneTooShort(cfg, queue)
    ensures Handled(Work(server, cfg, queue, chunk, conflicts, h).out) == multiset(queue)
  {
    hide Handled, Work;
    WorkKeeps(server, cfg, queue, chunk, conflicts, h);
    NothingForgotten(server, cfg, queue, chunk, conflicts, h);
  }

  /** Every row of the batch is in `failed_lines` or acknowledged by one answer, exactly once. */
  predicate Settled(batch: seq<Row>, o: Outcome) {
    Handled(o) == multiset(batch)
  }

  lemma IterateDrops(server: Server, cfg: Config, queue: seq<Row>, chunk: nat, conflicts: nat, h: History)
    requires cfg.Valid() && AnswersProgress(server)
    requires queue != [] && chunk >= 1 && AllTooShort(cfg, queue)
    ensures var n := Min(chunk, |queue|);
      Iterate(server, cfg, queue, chunk, conflicts, h)
      == Step(Tally(Outcome(h, map[], queue[..n], []), 1, 0), queue[n..], chunk, conflicts)
  {
    hide TryChunk, TooShort, AnswersProgress;
    EverythingDropped(cfg, queue[..Min(chunk, |queue|)]);
  }

  lemma {:induction false} AllTooShortSettles(server: Server, cfg: Config, queue: seq<Row>, chunk: nat, conflicts: nat,
                                              h: History)
    requires cfg.Valid() && AnswersProgress(server)
    requires (queue != [] ==> chunk >= 1) && AllTooShort(cfg, queue)
    ensures Handled(Work(server, cfg, queue, chunk, conflicts, h).out) == multiset(queue)
    decreases |queue|, chunk
  {
    if queue == [] {
      AllFailed(h, []);
    } else {
      hide Handled, Iterate, TooShort, AnswersProgress;
      var n := Min(chunk, |queue|);
      IterateDrops(server, cfg, queue, chunk, conflicts, h);
      AllFailed(h, queue[..n]);
      AllTooShortSettles(server, cfg, queue[n..], chunk, conflicts, h);
      ThenHandles(Outcome(h, map[], queue[..n], []), Work(server, cfg, queue[n..], chunk, conflicts, h).out);
      SplitMultiset(queue, n);
    }
  }

  predicate SettlesUnder(server: Server, cfg: Config, batch: seq<Row>)
    requires cfg.Valid() && AnswersProgress(server)
  {
    Settled(batch, Execute(server, cfg, batch, false, []).out)
  }

  /** The server that refuses every request for good. */
  function Refusal(h: History, request: Request): Reply {
    Raised(Permanent)
  }

  lemma RefusalIsHonest()
    ensures AnswersProgress(Refusal) && AnswersWithoutHoles(Refusal)
  {
  }

  /** A refused batch with both short and long enough rows reports the short rows twice. */
  lemma RefusalReportsTwice(cfg: Config, batch: seq<Row>)
    requires cfg.Valid() && !NoneTooShort(cfg, batch) && !AllTooShort(cfg, batch)
    ensures AnswersProgress(Refusal) && !SettlesUnder(Refusal, cfg, batch)
  {
    RefusalIsHonest();
    hide Handled, Fallback, TooShort, Sendable, Dropped, AnswersProgress, WorkerRequest;
    var valid, dropped := Sendable(cfg, batch), Dropped(cfg, batch);
    DroppedIffTooShort(cfg, batch);
    assert batch[..|batch|] == batch && batch[|batch|..] == [];
    var none: History := [];
    var h' := none + [Exchange(WorkerRequest(cfg, valid), Raised(Permanent))];
    var handed := Fallback(Refusal, cfg, batch, h');
    var first := Outcome([], map[], dropped, []);
    var s := Iterate(Refusal, cfg, batch, |batch|, 0, []);
    assert s.queue == [] && s.done.out == first.Then(handed) by {
      assert TryChunk(Refusal, cfg, batch, valid, |batch|, 0, []).done.out == handed;
    }
    FallbackSettles(Refusal, cfg, batch, h');
    AllFailed([], dropped);
    ThenHandles(first, handed);
    TallyStart(s.done, s.done.out.hist);
    assert batch != [];
    var rest := Work(Refusal, cfg, s.queue, s.chunk, s.conflicts, s.done.out.hist);
    assert rest == Tally(Untouched(s.done.out.hist), 0, 0);
    assert Work(Refusal, cfg, batch, |batch|, 0, none) == s.done.Then(rest);
    assert Handled(s.done.out) == multiset(dropped) + multiset(batch);
    assert dropped[0] in multiset(dropped);
  }

  /**
   Exactly-once settlement, exactly when it holds: under every server without holes, each row of the
   batch is settled once if and only if the batch does not mix rows too short for the kept columns
   with rows long enough for them. With an empty ignore list no row is too short.
   */
  lemma SettlementExact(cfg: Config, batch: seq<Row>)
    requires cfg.Valid()
    ensures (forall server: Server :: AnswersProgress(server) && AnswersWithoutHoles(server) ==>
               SettlesUnder(server, cfg, batch))
       <==> (NoneTooShort(cfg, batch) || AllTooShort(cfg, batch))
  {
    if NoneTooShort(cfg, batch) || AllTooShort(cfg, batch) {
      forall server: Server | AnswersProgress(server) && AnswersWithoutHoles(server)
        ensures SettlesUnder(server, cfg, batch)
      {
        BatchSettles(server, cfg, batch);
      }
    } else {
      RefusalIsHonest();
      RefusalReportsTwice(cfg, batch);
    }
  }

  lemma BatchSettles(server: Server, cfg: Config, batch: seq<Row>)
    requires cfg.Valid() && AnswersProgress(server) && AnswersWithoutHoles(server)
    requires NoneTooShort(cfg, batch) || AllTooShort(cfg, batch)
    ensures SettlesUnder(server, cfg, batch)
  {
    if NoneTooShort(cfg, batch) {
      WorkSettles(server, cfg, batch, |batch|, 0, []);
    } else {
      AllTooShortSettles(server, cfg, batch, |batch|, 0, []);
    }
  }

  // ----- Bounds: loop iterations, fallback rows, load calls -----

  lemma {:induction false} WorkBounds(server: Server, cfg: Config, queue: seq<Row>, chunk: nat, conflicts: nat,
                                      h: History)
    requires cfg.Valid() && AnswersProgress(server) && (queue != [] ==> chunk >= 1)
    ensures var t := Work(server, cfg, queue, chunk, conflicts, h);
      t.rounds <= |queue| + Log2(chunk) && t.handed <= |queue| &&
      |t.out.hist| <= |h| + t.rounds + 2 * t.handed
    decreases |queue|, chunk
  {
    if queue != [] {
      hide Iterate, AnswersProgress;
      var s := Iterate(server, cfg, queue, chunk, conflicts, h);
      IterateBounds(server, cfg, queue, chunk, conflicts, h);
      LogMonotone(s.chunk, chunk);
      WorkBounds(server, cfg, s.queue, s.chunk, s.conflicts, s.done.out.hist);
    }
  }

  lemma IterateBounds(server: Server, cfg: Config, queue: seq<Row>, chunk: nat, conflicts: nat, h: History)
    requires cfg.Valid() && AnswersProgress(server) && queue != [] && chunk >= 1
    ensures var s := Iterate(server, cfg, queue, chunk, conflicts, h);
      s.done.handed + |s.queue| <= |queue| && |s.done.out.hist| <= |h| + 1 + 2 * s.done.handed
  {
    hide TryChunk, AnswersProgress, TooShort, Dropped;
    var current := queue[..Min(chunk, |queue|)];
    var valid := Sendable(cfg, current);
    if valid != [] {
      TryChunkBounds(server, cfg, current, valid, chunk, conflicts, h);
    }
  }

  lemma TryChunkBounds(server: Server, cfg: Config, current: seq<Row>, valid: seq<Row>, chunk: nat, conflicts: nat,
                       h: History)
    requires cfg.Valid() && AnswersProgress(server) && chunk >= 1 && |valid| <= |current|
    requires forall i :: 0 <= i < |valid| ==> !TooShort(cfg, valid[i])
    ensures var a := TryChunk(server, cfg, current, valid, chunk, conflicts, h);
      a.done.handed <= (if a.consumed then |current| else 0) &&
      |a.done.out.hist| <= |h| + 1 + 2 * a.done.handed
  {
    hide Fallback, WorkerRequest, AnswersProgress, TooShort, Credits, Acks, Missing, ReadsPastRow;
    var request := WorkerRequest(cfg, valid);
    var reply := server(h, request);
    var h' := h + [Exchange(request, reply)];
    FallbackSettles(server, cfg, current, h');
    if Verdict(cfg, valid, reply) == None {
      FallbackSettles(server, cfg, Missing(valid, reply.ids, |valid|), h');
    }
  }

  lemma {:induction false} LogMonotone(a: nat, b: nat)
    requires 1 <= a <= b
    ensures Log2(a) <= Log2(b)
    ensures b >= 2 ==> Log2(b / 2) == Log2(b) - 1
  {
    if a > 1 {
      LogMonotone(a / 2, b / 2);
    }
  }

  /**
   Whatever the server does, the loop body runs at most n + floor(log2 n) times for n rows, hands at
   most n rows to the fallback and makes at most 3n + floor(log2 n) `load` calls.
   */
  lemma LoadLoopBound(server: Server, cfg: Config, batch: seq<Row>, h: History)
    requires cfg.Valid() && AnswersProgress(server)
    ensures var t := Execute(server, cfg, batch, false, h);
      t.rounds <= |batch| + Log2(|batch|) && t.handed <= |batch| &&
      |t.out.hist| - |h| <= 3 * |batch| + Log2(|batch|)
  {
    WorkBounds(server, cfg, batch, |batch|, 0, h);
  }

  // ----- Evidence -----

  lemma AbsorbJustified(server: Server, cfg: Config, valid: seq<Row>, h: History, request: Request, reply: Reply)
    requires cfg.Valid() && AnswersProgress(server)
    requires forall i :: 0 <= i < |valid| ==> !TooShort(cfg, valid[i])
    requires request == WorkerRequest(cfg, valid)
    requires Verdict(cfg, valid, reply) == None
    ensures Justified(cfg, Absorb(server, cfg, valid, reply, |h|, h + [Exchange(request, reply)]).out)
  {
    hide Acks, Missing, Credits, Fallback, WorkerRequest, AnswersProgress, Evident, CreditedBy;
    var h' := h + [Exchange(request, reply)];
    var acks, missing := Acks(valid, reply.ids, |h|, |valid|), Missing(valid, reply.ids, |valid|);
    var loaded := Outcome(h', Credits(cfg, acks, true), [], acks);
    CreditsJustified(cfg, acks, true);
    forall i | 0 <= i < |acks| {
      WorkerAckEvident(cfg, valid, h, request, reply, i);
    }
    assert Justified(cfg, loaded);
    if |reply.ids| < |valid| && |valid| - |reply.ids| > 1 && !reply.perRow {
      FallbackJustified(server, cfg, missing, h');
      var o := loaded.Then(Fallback(server, cfg, missing, h'));
      ThenJustified(cfg, loaded, Fallback(server, cfg, missing, h'));
      CreditAgain(cfg, o, loaded);
    }
  }

  /** Updating the map once more with entries it was built from keeps it justified. */
  lemma CreditAgain(cfg: Config, o: Outcome, part: Outcome)
    requires cfg.Valid() && Justified(cfg, o) && Justified(cfg, part) && part.acks <= o.acks
    ensures Justified(cfg, o.(idMap := o.idMap + part.idMap))
  {
    hide Evident, CreditedBy;
    var rest := o.acks[|part.acks|..];
    assert o.acks == part.acks + rest;
    forall key | key in o.idMap + part.idMap
      ensures CreditedBy(cfg, o.acks, key, (o.idMap + part.idMap)[key])
    {
      if key in part.idMap {
        CreditStays(cfg, part.acks, rest, key, part.idMap[key]);
      }
    }
  }

  lemma WorkerAckEvident(cfg: Config, valid: seq<Row>, h: History, request: Request, reply: Reply, i: nat)
    requires cfg.Valid() && reply.Answer?
    requires forall i :: 0 <= i < |valid| ==> !TooShort(cfg, valid[i])
    requires request == WorkerRequest(cfg, valid)
    requires i < |Acks(valid, reply.ids, |h|, |valid|)|
    ensures Evident(cfg, h + [Exchange(request, reply)], Acks(valid, reply.ids, |h|, |valid|)[i])
  {
    hide FallbackLine, FallbackHeader, TooShort, WorkerLine, WorkerHeader, SingleLine, SingleHeader;
    var ack := Acks(valid, reply.ids, |h|, |valid|)[i];
    assert (h + [Exchange(request, reply)])[|h|] == Exchange(request, reply);
    assert request.lines[ack.pos] == WorkerLine(cfg, ack.row);
  }

  lemma NothingJustified(cfg: Config, h: History, failed: seq<Row>)
    requires cfg.Valid()
    ensures Justified(cfg, Outcome(h, map[], failed, []))
  {
  }

  lemma TryChunkJustified(server: Server, cfg: Config, current: seq<Row>, valid: seq<Row>, chunk: nat, conflicts: nat,
                          h: History)
    requires cfg.Valid() && AnswersProgress(server) && chunk >= 1
    requires forall i :: 0 <= i < |valid| ==> !TooShort(cfg, valid[i])
    ensures Justified(cfg, TryChunk(server, cfg, current, valid, chunk, conflicts, h).done.out)
  {
    hide Absorb, Fallback, WorkerRequest, AnswersProgress, TooShort, Verdict, Justified;
    var request := WorkerRequest(cfg, valid);
    var reply := server(h, request);
    var h' := h + [Exchange(request, reply)];
    FallbackJustified(server, cfg, current, h');
    NothingJustified(cfg, h', valid);
    NothingJustified(cfg, h', []);
    if Verdict(cfg, valid, reply) == None {
      AbsorbJustified(server, cfg, valid, h, request, reply);
    }
  }

  lemma {:induction false} WorkJustified(server: Server, cfg: Config, queue: seq<Row>, chunk: nat, conflicts: nat,
                                         h: History)
    requires cfg.Valid() && AnswersProgress(server) && (queue != [] ==> chunk >= 1)
    ensures Justified(cfg, Work(server, cfg, queue, chunk, conflicts, h).out)
    decreases |queue|, chunk
  {
    NothingJustified(cfg, h, []);
    if queue != [] {
      hide Justified, Iterate, AnswersProgress;
      var s := Iterate(server, cfg, queue, chunk, conflicts, h);
      IterateJustified(server, cfg, queue, chunk, conflicts, h);
      WorkJustified(server, cfg, s.queue, s.chunk, s.conflicts, s.done.out.hist);
      ThenJustified(cfg, s.done.out, Work(server, cfg, s.queue, s.chunk, s.conflicts, s.done.out.hist).out);
    }
  }

  lemma IterateJustified(server: Server, cfg: Config, queue: seq<Row>, chunk: nat, conflicts: nat, h: History)
    requires cfg.Valid() && AnswersProgress(server) && queue != [] && chunk >= 1
    ensures Justified(cfg, Iterate(server, cfg, queue, chunk, conflicts, h).done.out)
  {
    hide Justified, TryChunk, AnswersProgress, TooShort;
    var current := queue[..Min(chunk, |queue|)];
    var valid := Sendable(cfg, current);
    var dropped := Outcome(h, map[], Dropped(cfg, current), []);
    NothingJustified(cfg, h, Dropped(cfg, current));
    if valid != [] {
      TryChunkJustified(server, cfg, current, valid, chunk, conflicts, h);
      ThenJustified(cfg, dropped, TryChunk(server, cfg, current, valid, chunk, conflicts, h).done.out);
    }
  }

  /**
   Every id map entry pairs the sanitised id of a row with the id that one answer returned for the
   line this row was sent as.
   */
  lemma BatchJustified(server: Server, cfg: Config, batch: seq<Row>, forceCreate: bool, h: History)
    requires cfg.Valid() && AnswersProgress(server)
    ensures Justified(cfg, Execute(server, cfg, batch, forceCreate, h).out)
  {
    if forceCreate {
      SinglesJustified(server, cfg, batch, h);
    } else {
      WorkJustified(server, cfg, batch, |batch|, 0, h);
    }
  }

  /** The worker on a batch that its first request settles. */
  lemma SettledAtOnce(server: Server, cfg: Config, batch: seq<Row>)
    requires cfg.Valid() && AnswersProgress(server) && batch != [] && NoneTooShort(cfg, batch)
    requires TryChunk(server, cfg, batch, batch, |batch|, 0, []).consumed
    ensures Execute(server, cfg, batch, false, []).out == TryChunk(server, cfg, batch, batch, |batch|, 0, []).done.out
  {
    hide TryChunk, TooShort;
    NothingDropped(cfg, batch);
    assert batch[..|batch|] == batch && batch[|batch|..] == [];
    var a := TryChunk(server, cfg, batch, batch, |batch|, 0, []);
    var s := Iterate(server, cfg, batch, |batch|, 0, []);
    TallyStart(a.done, a.done.out.hist);
    assert Untouched([]).Then(a.done.out) == a.done.out;
    assert s.queue == [] && s.done.out == a.done.out;
    var rest := Work(server, cfg, s.queue, s.chunk, s.conflicts, s.done.out.hist);
    assert rest == Tally(Untouched(s.done.out.hist), 0, 0);
    assert Work(server, cfg, batch, |batch|, 0, []) == s.done.Then(rest);
    TallyStart(s.done, s.done.out.hist);
  }
}
