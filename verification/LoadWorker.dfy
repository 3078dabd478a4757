/** The Pass 1 worker, `_execute_load_batch`: the loop that sends a batch in chunks it shrinks on errors. */
module LoadWorker {
  import opened Basics
  import opened LoadProtocol
  import opened LoadFallback

  const MAX_SERIALIZATION_RETRIES := 3

  /** An outcome with the number of loop iterations and of rows handed to the fallback. */
  datatype Tally = Tally(out: Outcome, rounds: nat, handed: nat) {
    function Then(next: Tally): Tally {
      Tally(out.Then(next.out), rounds + next.rounds, handed + next.handed)
    }
  }

  /** One iteration: what it settled, and the loop variables after it. */
  datatype Step = Step(done: Tally, queue: seq<Row>, chunk: nat, conflicts: nat)

  function Sendable(cfg: Config, rows: seq<Row>): (r: seq<Row>)
    ensures |r| <= |rows|
    ensures forall i :: 0 <= i < |r| ==> !TooShort(cfg, r[i])
  {
    if rows == [] then []
    else
      var init, last := rows[..|rows| - 1], rows[|rows| - 1];
      if TooShort(cfg, last) then Sendable(cfg, init) else Sendable(cfg, init) + [last]
  }

  function Dropped(cfg: Config, rows: seq<Row>): seq<Row> {
    if rows == [] then []
    else
      var init, last := rows[..|rows| - 1], rows[|rows| - 1];
      if TooShort(cfg, last) then Dropped(cfg, init) + [last] else Dropped(cfg, init)
  }

  function WorkerLines(cfg: Config, rows: seq<Row>): (lines: seq<Row>)
    requires forall i :: 0 <= i < |rows| ==> !TooShort(cfg, rows[i])
    ensures |lines| == |rows|
  {
    seq(|rows|, i requires 0 <= i < |rows| => WorkerLine(cfg, rows[i]))
  }

  /** Building the id map indexes the id column of an acknowledged row that is too short for it. */
  predicate ReadsPastRow(cfg: Config, rows: seq<Row>, ids: seq<Option<int>>) {
    exists i :: 0 <= i < |rows| && Acked(ids, i) && |rows[i].cells| <= cfg.uid
  }

  /** How the iteration ends: None when no exception is raised. An IndexError counts as permanent. */
  function Verdict(cfg: Config, rows: seq<Row>, reply: Reply): Option<ErrorKind> {
    match reply
    case Raised(kind) => Some(kind)
    case Answer(ids, error, _) =>
      if error.Some? then error
      else if ReadsPastRow(cfg, rows, ids) then Some(Permanent)
      else None
  }

  /** A normal answer: credit what was acknowledged, settle the rest. */
  function Absorb(server: Server, cfg: Config, valid: seq<Row>, reply: Reply, call: nat, h: History): (t: Tally)
    requires cfg.Valid() && AnswersProgress(server)
    requires Verdict(cfg, valid, reply) == None
    ensures h <= t.out.hist
  {
    var acks := Acks(valid, reply.ids, call, |valid|);
    var missing := Missing(valid, reply.ids, |valid|);
    var credits := Credits(cfg, acks, true);
    if |reply.ids| >= |valid| then
      Tally(Outcome(h, credits, [], acks), 1, 0)
    else if |valid| - |reply.ids| > 1 && !reply.perRow then
      var o := Outcome(h, credits, [], acks).Then(Fallback(server, cfg, missing, h));
      Tally(o.(idMap := o.idMap + credits), 1, |missing|)
    else
      Tally(Outcome(h, credits, missing, acks), 1, 0)
  }

  /** What the `try` statement makes of a chunk: whether it is done with, and the loop variables after it. */
  datatype Attempt = Attempt(done: Tally, consumed: bool, chunk: nat, conflicts: nat)

  function WorkerRequest(cfg: Config, valid: seq<Row>): (request: Request)
    requires forall i :: 0 <= i < |valid| ==> !TooShort(cfg, valid[i])
    ensures |request.lines| == |valid|
  {
    Request(WorkerHeader(cfg), WorkerLines(cfg, valid))
  }

  /** The `try` statement; `valid` are the rows of `current` that are sent. */
  function TryChunk(server: Server, cfg: Config, current: seq<Row>, valid: seq<Row>, chunk: nat, conflicts: nat,
                    h: History)
    : (a: Attempt)
    requires cfg.Valid() && AnswersProgress(server) && chunk >= 1
    requires forall i :: 0 <= i < |valid| ==> !TooShort(cfg, valid[i])
    ensures h <= a.done.out.hist && a.done.rounds == 1
    ensures 1 <= a.chunk <= chunk
    ensures !a.consumed ==> chunk > 1 && a.chunk == chunk / 2
  {
    var request := WorkerRequest(cfg, valid);
    var reply := server(h, request);
    var h' := h + [Exchange(request, reply)];
    var retry := Tally(Untouched(h'), 1, 0);
    var verdict := Verdict(cfg, valid, reply);
    if verdict == None then
      Attempt(Absorb(server, cfg, valid, reply, |h|, h'), true, chunk, 0)
    else if verdict == Some(ReadTimeout) || (verdict == Some(TooLarge) && chunk == 1) then
      Attempt(Tally(Outcome(h', map[], valid, []), 1, 0), true, chunk, conflicts)
    else if verdict == Some(TooLarge) || (verdict == Some(Transient(false)) && chunk > 1) then
      Attempt(retry, false, chunk / 2, conflicts)
    else if verdict == Some(Transient(true)) && chunk > 1 && conflicts + 1 < MAX_SERIALIZATION_RETRIES then
      Attempt(retry, false, chunk / 2, conflicts + 1)
    else
      var handed := Tally(Fallback(server, cfg, current, h'), 1, |current|);
      if verdict == Some(Transient(true)) && chunk > 1 then Attempt(handed, true, chunk / 2, 0)
      else Attempt(handed, true, chunk, conflicts)
  }

  /** One pass through `while lines_to_process`. */
  function Iterate(server: Server, cfg: Config, queue: seq<Row>, chunk: nat, conflicts: nat, h: History): (s: Step)
    requires cfg.Valid() && AnswersProgress(server) && queue != [] && chunk >= 1
    ensures h <= s.done.out.hist && s.done.rounds == 1
    ensures 1 <= s.chunk <= chunk
    ensures |s.queue| < |queue| || (s.queue == queue && chunk > 1 && s.chunk == chunk / 2)
  {
    var n := Min(chunk, |queue|);
    var current, rest := queue[..n], queue[n..];
    var valid := Sendable(cfg, current);
    var dropped := Outcome(h, map[], Dropped(cfg, current), []);
    if valid == [] then
      Step(Tally(dropped, 1, 0), rest, chunk, conflicts)
    else
      var a := TryChunk(server, cfg, current, valid, chunk, conflicts, h);
      Step(Tally(dropped, 0, 0).Then(a.done), if a.consumed then rest else queue, a.chunk, a.conflicts)
  }

  /** The loop, from any of its states. */
  function Work(server: Server, cfg: Config, queue: seq<Row>, chunk: nat, conflicts: nat, h: History): (t: Tally)
    requires cfg.Valid() && AnswersProgress(server) && (queue != [] ==> chunk >= 1)
    ensures h <= t.out.hist
    decreases |queue|, chunk
  {
    if queue == [] then Tally(Untouched(h), 0, 0)
    else
      var s := Iterate(server, cfg, queue, chunk, conflicts, h);
      s.done.Then(Work(server, cfg, s.queue, s.chunk, s.conflicts, s.done.out.hist))
  }

  /** The worker on a batch: the chunk starts as the whole batch, the retry counter at 0. */
  function Execute(server: Server, cfg: Config, batch: seq<Row>, forceCreate: bool, h: History): (t: Tally)
    requires cfg.Valid() && AnswersProgress(server)
    ensures h <= t.out.hist
  {
    if forceCreate then Tally(Singles(server, cfg, batch, h), 0, 0)
    else Work(server, cfg, batch, |batch|, 0, h)
  }

  lemma TallyAssociates(a: Tally, b: Tally, c: Tally)
    ensures a.Then(b).Then(c) == a.Then(b.Then(c))
  {
    ThenAssociates(a.out, b.out, c.out);
  }

  lemma TallyStart(t: Tally, h: History)
    ensures Tally(Untouched(h), 0, 0).Then(t) == t
    ensures h == t.out.hist ==> t.Then(Tally(Untouched(h), 0, 0)) == t
  {
    assert map[] + t.out.idMap == t.out.idMap && t.out.idMap + map[] == t.out.idMap;
    assert [] + t.out.failed == t.out.failed && t.out.failed + [] == t.out.failed;
    assert [] + t.out.acks == t.out.acks && t.out.acks + [] == t.out.acks;
  }

  method ExecuteLoadBatch(server: Server, cfg: Config, batchLines: seq<Row>, forceCreate: bool, hist: History)
    returns (idMap: map<string, int>, failed: seq<Row>, acks: seq<Ack>, hist': History,
             fallbackRecords: nat, success: bool, ghost rounds: nat)
    requires cfg.Valid() && AnswersProgress(server)
    ensures Tally(Outcome(hist', idMap, failed, acks), rounds, fallbackRecords)
         == Execute(server, cfg, batchLines, forceCreate, hist)
    ensures success == (!forceCreate || idMap != map[])
  {
    hide Iterate, Singles;
    rounds, fallbackRecords := 0, 0;
    if forceCreate {
      idMap, failed, acks, hist' := LoadRecordsIndividually(server, cfg, batchLines, hist);
      success := idMap != map[];
      return;
    }
    var queue := batchLines;
    var chunk: nat, conflicts: nat := |batchLines|, 0;
    idMap, failed, acks, hist' := map[], [], [], hist;
    ghost var t := Tally(Untouched(hist), 0, 0);
    TallyStart(Work(server, cfg, queue, chunk, conflicts, hist), hist);
    while queue != []
      invariant queue != [] ==> chunk >= 1
      invariant t == Tally(Outcome(hist', idMap, failed, acks), rounds, fallbackRecords)
      invariant t.Then(Work(server, cfg, queue, chunk, conflicts, hist'))
                == Execute(server, cfg, batchLines, false, hist)
      decreases |queue|, chunk
    {
      ghost var s := Iterate(server, cfg, queue, chunk, conflicts, hist');
      TallyAssociates(t, s.done, Work(server, cfg, s.queue, s.chunk, s.conflicts, s.done.out.hist));
      t := t.Then(s.done);
      var m, f, a, fb;
      m, f, a, hist', fb, queue, chunk, conflicts := LoadChunk(server, cfg, queue, chunk, conflicts, hist');
      idMap, failed, acks, fallbackRecords, rounds := idMap + m, failed + f, acks + a, fallbackRecords + fb, rounds + 1;
    }
    TallyStart(t, hist');
    success := true;
  }

  /** The body of the loop. */
  method LoadChunk(server: Server, cfg: Config, queue: seq<Row>, chunk: nat, conflicts: nat, hist: History)
    returns (idMap: map<string, int>, failed: seq<Row>, acks: seq<Ack>, hist': History, handed: nat,
             queue': seq<Row>, chunk': nat, conflicts': nat)
    requires cfg.Valid() && AnswersProgress(server) && queue != [] && chunk >= 1
    ensures Step(Tally(Outcome(hist', idMap, failed, acks), 1, handed), queue', chunk', conflicts')
         == Iterate(server, cfg, queue, chunk, conflicts, hist)
  {
    hide TryChunk;
    var n := Min(chunk, |queue|);
    var current := queue[..n];
    var valid, dropped := FilterChunk(cfg, current);
    if valid == [] {
      return map[], dropped, [], hist, 0, queue[n..], chunk, conflicts;
    }
    var consumed;
    idMap, failed, acks, hist', handed, consumed, chunk', conflicts' :=
      TryLoad(server, cfg, current, valid, chunk, conflicts, hist);
    assert map[] + idMap == idMap && [] + acks == acks;
    failed := dropped + failed;
    queue' := if consumed then queue[n..] else queue;
  }

  /** Keeping the rows long enough for the columns to be sent. */
  method FilterChunk(cfg: Config, rows: seq<Row>) returns (valid: seq<Row>, dropped: seq<Row>)
    ensures valid == Sendable(cfg, rows) && dropped == Dropped(cfg, rows)
  {
    valid, dropped := [], [];
    for i := 0 to |rows|
      invariant valid == Sendable(cfg, rows[..i]) && dropped == Dropped(cfg, rows[..i])
    {
      assert rows[..i + 1][..i] == rows[..i];
      if TooShort(cfg, rows[i]) {
        dropped := dropped + [rows[i]];
      } else {
        valid := valid + [rows[i]];
      }
    }
    assert rows[..|rows|] == rows;
  }

  /** The `try` statement and its handler. */
  method TryLoad(server: Server, cfg: Config, current: seq<Row>, valid: seq<Row>, chunk: nat, conflicts: nat,
                 hist: History)
    returns (idMap: map<string, int>, failed: seq<Row>, acks: seq<Ack>, hist': History, handed: nat,
             consumed: bool, chunk': nat, conflicts': nat)
    requires cfg.Valid() && AnswersProgress(server) && chunk >= 1
    requires forall i :: 0 <= i < |valid| ==> !TooShort(cfg, valid[i])
    ensures Attempt(Tally(Outcome(hist', idMap, failed, acks), 1, handed), consumed, chunk', conflicts')
         == TryChunk(server, cfg, current, valid, chunk, conflicts, hist)
  {
    hide Fallback, Absorb, WorkerRequest, ReadsPastRow;
    var request := WorkerRequest(cfg, valid);
    var reply := server(hist, request);
    idMap, failed, acks, hist', handed := map[], [], [], hist + [Exchange(request, reply)], 0;
    consumed, chunk', conflicts' := true, chunk, conflicts;
    var verdict := Verdict(cfg, valid, reply);
    if verdict == None {
      conflicts' := 0;
      idMap, failed, acks, hist', handed := AbsorbAnswer(server, cfg, valid, reply, |hist|, hist');
    } else if verdict == Some(ReadTimeout) || (verdict == Some(TooLarge) && chunk == 1) {
      failed := valid;
    } else if verdict == Some(TooLarge) || (verdict == Some(Transient(false)) && chunk > 1) {
      consumed, chunk' := false, chunk / 2;
    } else {
      if verdict == Some(Transient(true)) && chunk > 1 {
        chunk', conflicts' := chunk / 2, conflicts + 1;
        if conflicts' < MAX_SERIALIZATION_RETRIES {
          consumed := false;
          return;
        }
        conflicts' := 0;
      }
      idMap, failed, acks, hist' := LoadBatchWithBinaryFallback(server, cfg, current, hist');
      handed := |current|;
    }
  }

  /** The id map loop and the partial-failure branch of a normal answer. */
  method AbsorbAnswer(server: Server, cfg: Config, valid: seq<Row>, reply: Reply, call: nat, hist: History)
    returns (idMap: map<string, int>, failed: seq<Row>, acks: seq<Ack>, hist': History, handed: nat)
    requires cfg.Valid() && AnswersProgress(server)
    requires Verdict(cfg, valid, reply) == None
    ensures Tally(Outcome(hist', idMap, failed, acks), 1, handed) == Absorb(server, cfg, valid, reply, call, hist)
  {
    var missing, credits;
    acks, missing, credits := ReadAnswer(cfg, valid, reply.ids, call, true);
    idMap, failed, hist', handed := credits, [], hist, 0;
    if |reply.ids| < |valid| {
      if |valid| - |reply.ids| > 1 && !reply.perRow {
        var m, f, a;
        m, f, a, hist' := LoadBatchWithBinaryFallback(server, cfg, missing, hist);
        idMap, failed, acks, handed := idMap + m + credits, failed + f, acks + a, |missing|;
      } else {
        failed := missing;
      }
    }
  }
}
