/**
 The two fallbacks of Pass 1: loading rows one by one, and the recursive binary search that
 isolates the rows a failed batch owes its failure to.
 */
module LoadFallback {
  import opened Basics
  import opened XmlId
  import opened LoadProtocol

  /** Row `row` was line `pos` of call `call`, and that answer gave it database id `id`. */
  datatype Ack = Ack(row: Row, id: int, call: nat, pos: nat)

  /** What a load path returns, plus the history after it and the acknowledgements it relied on. */
  datatype Outcome = Outcome(hist: History, idMap: map<string, int>, failed: seq<Row>, acks: seq<Ack>) {
    /** Merging a later result: `update` the map, `extend` the lists. */
    function Then(next: Outcome): Outcome {
      Outcome(next.hist, idMap + next.idMap, failed + next.failed, acks + next.acks)
    }
  }

  function Untouched(h: History): Outcome {
    Outcome(h, map[], [], [])
  }

  /** Which of the first n lines of an answer were acknowledged. */
  function Acks(rows: seq<Row>, ids: seq<Option<int>>, call: nat, n: nat): (acks: seq<Ack>)
    requires n <= |rows|
    ensures forall j :: 0 <= j < |acks| ==>
              acks[j].pos < n && acks[j].row == rows[acks[j].pos] && acks[j].call == call &&
              Acked(ids, acks[j].pos) && ids[acks[j].pos] == Some(acks[j].id)
  {
    if n == 0 then []
    else
      var before := Acks(rows, ids, call, n - 1);
      if Acked(ids, n - 1) then before + [Ack(rows[n - 1], ids[n - 1].value, call, n - 1)] else before
  }

  /** Which of the first n rows an answer did not acknowledge. */
  function Missing(rows: seq<Row>, ids: seq<Option<int>>, n: nat): (missing: seq<Row>)
    requires n <= |rows|
    ensures |missing| <= n
    ensures forall k :: 0 <= k < n && Acked(ids, k) ==> |missing| < n
  {
    if n == 0 then []
    else
      var before := Missing(rows, ids, n - 1);
      if Acked(ids, n - 1) then before else before + [rows[n - 1]]
  }

  lemma NothingRead(cfg: Config, rows: seq<Row>, ids: seq<Option<int>>, call: nat, blanksToo: bool)
    ensures Acks(rows, ids, call, 0) == [] && Missing(rows, ids, 0) == [] && Credits(cfg, [], blanksToo) == map[]
  {
  }

  /** Reading one more line of an answer. */
  lemma AnswerStep(rows: seq<Row>, ids: seq<Option<int>>, call: nat, n: nat)
    requires n < |rows|
    ensures Acked(ids, n) ==>
              && Acks(rows, ids, call, n + 1) == Acks(rows, ids, call, n) + [Ack(rows[n], ids[n].value, call, n)]
              && Missing(rows, ids, n + 1) == Missing(rows, ids, n)
    ensures !Acked(ids, n) ==>
              && Acks(rows, ids, call, n + 1) == Acks(rows, ids, call, n)
              && Missing(rows, ids, n + 1) == Missing(rows, ids, n) + [rows[n]]
  {
  }

  lemma CreditsExtend(cfg: Config, acks: seq<Ack>, last: Ack, blanksToo: bool)
    requires cfg.uid < |last.row.cells| && forall i :: 0 <= i < |acks| ==> cfg.uid < |acks[i].row.cells|
    ensures Credits(cfg, acks + [last], blanksToo)
         == if Key(cfg, last.row) == "" && !blanksToo then Credits(cfg, acks, blanksToo)
            else Credits(cfg, acks, blanksToo)[Key(cfg, last.row) := last.id]
  {
    assert (acks + [last])[..|acks|] == acks;
  }

  /** The loop over the lines of an answer, in the worker and in the fallback. */
  method ReadAnswer(cfg: Config, rows: seq<Row>, ids: seq<Option<int>>, call: nat, blanksToo: bool)
    returns (acks: seq<Ack>, missing: seq<Row>, idMap: map<string, int>)
    requires forall i :: 0 <= i < |rows| && Acked(ids, i) ==> cfg.uid < |rows[i].cells|
    ensures acks == Acks(rows, ids, call, |rows|) && missing == Missing(rows, ids, |rows|)
    ensures idMap == Credits(cfg, acks, blanksToo)
  {
    hide Acks, Missing, Credits, ToXmlid;
    NothingRead(cfg, rows, ids, call, blanksToo);
    acks, missing, idMap := [], [], map[];
    for i := 0 to |rows|
      invariant acks == Acks(rows, ids, call, i) && missing == Missing(rows, ids, i)
      invariant forall j :: 0 <= j < |acks| ==> cfg.uid < |acks[j].row.cells|
      invariant idMap == Credits(cfg, acks, blanksToo)
    {
      AnswerStep(rows, ids, call, i);
      if Acked(ids, i) {
        var ack := Ack(rows[i], ids[i].value, call, i);
        CreditsExtend(cfg, acks, ack, blanksToo);
        acks := acks + [ack];
        var key := Key(cfg, rows[i]);
        if key != "" || blanksToo {
          idMap := idMap[key := ids[i].value];
        }
      } else {
        missing := missing + [rows[i]];
      }
    }
  }

  function WellFormed(cfg: Config, rows: seq<Row>): (r: seq<Row>)
    ensures |r| <= |rows|
    ensures AllWellFormed(cfg, r)
    ensures AllWellFormed(cfg, rows) ==> r == rows
  {
    if rows == [] then []
    else
      var init, last := rows[..|rows| - 1], rows[|rows| - 1];
      if Malformed(cfg, last) then WellFormed(cfg, init) else WellFormed(cfg, init) + [last]
  }

  function MalformedRows(cfg: Config, rows: seq<Row>): (r: seq<Row>)
    ensures AllWellFormed(cfg, rows) ==> r == []
  {
    if rows == [] then []
    else
      var init, last := rows[..|rows| - 1], rows[|rows| - 1];
      if Malformed(cfg, last) then MalformedRows(cfg, init) + [last] else MalformedRows(cfg, init)
  }

  predicate AllWellFormed(cfg: Config, rows: seq<Row>) {
    forall i :: 0 <= i < |rows| ==> !Malformed(cfg, rows[i])
  }

  /** The id map entries of acknowledged rows, later rows overriding earlier ones. */
  function Credits(cfg: Config, acks: seq<Ack>, blanksToo: bool): map<string, int>
    requires forall i :: 0 <= i < |acks| ==> cfg.uid < |acks[i].row.cells|
  {
    if acks == [] then map[]
    else
      var last := acks[|acks| - 1];
      var earlier := Credits(cfg, acks[..|acks| - 1], blanksToo);
      var key := Key(cfg, last.row);
      if key == "" && !blanksToo then earlier else earlier[key := last.id]
  }

  // ----- _load_records_individually -----

  function SingleRequest(cfg: Config, row: Row): Request
    requires cfg.Valid() && !Malformed(cfg, row)
  {
    Request(SingleHeader(cfg), [SingleLine(cfg, row)])
  }

  /** `res["ids"] and res["ids"][0]`: a missing, None or zero id is a failure. */
  predicate SingleLoaded(reply: Reply) {
    reply.Answer? && reply.ids != [] && reply.ids[0].Some? && reply.ids[0].value != 0
  }

  function Single(server: Server, cfg: Config, row: Row, h: History): (o: Outcome)
    requires cfg.Valid()
    ensures h <= o.hist
  {
    if Malformed(cfg, row) then Outcome(h, map[], [row], [])
    else
      var request := SingleRequest(cfg, row);
      var reply := server(h, request);
      var h' := h + [Exchange(request, reply)];
      if SingleLoaded(reply) then
        var id := reply.ids[0].value;
        Outcome(h', map[Key(cfg, row) := id], [], [Ack(row, id, |h|, 0)])
      else Outcome(h', map[], [row], [])
  }

  function Singles(server: Server, cfg: Config, rows: seq<Row>, h: History): (o: Outcome)
    requires cfg.Valid()
    ensures h <= o.hist
  {
    if rows == [] then Untouched(h)
    else
      var init := Singles(server, cfg, rows[..|rows| - 1], h);
      init.Then(Single(server, cfg, rows[|rows| - 1], init.hist))
  }

  lemma SinglesExtend(server: Server, cfg: Config, rows: seq<Row>, last: Row, h: History)
    requires cfg.Valid()
    ensures Singles(server, cfg, [], h) == Untouched(h)
    ensures Singles(server, cfg, rows + [last], h)
         == Singles(server, cfg, rows, h).Then(Single(server, cfg, last, Singles(server, cfg, rows, h).hist))
  {
    assert (rows + [last])[..|rows|] == rows;
  }

  method LoadRecordsIndividually(server: Server, cfg: Config, lines: seq<Row>, hist: History)
    returns (idMap: map<string, int>, failed: seq<Row>, acks: seq<Ack>, hist': History)
    requires cfg.Valid()
    ensures Outcome(hist', idMap, failed, acks) == Singles(server, cfg, lines, hist)
  {
    idMap, failed, acks, hist' := map[], [], [], hist;
    for i := 0 to |lines|
      invariant Outcome(hist', idMap, failed, acks) == Singles(server, cfg, lines[..i], hist)
    {
      SinglesExtend(server, cfg, lines[..i], lines[i], hist);
      assert lines[..i + 1] == lines[..i] + [lines[i]];
      var m, f, a, h := LoadRecord(server, cfg, lines[i], hist');
      idMap, failed, acks, hist' := idMap + m, failed + f, acks + a, h;
    }
    assert lines[..|lines|] == lines;
  }

  /** The body of the loop: one row, one `load` call at most. */
  method LoadRecord(server: Server, cfg: Config, line: Row, hist: History)
    returns (idMap: map<string, int>, failed: seq<Row>, acks: seq<Ack>, hist': History)
    requires cfg.Valid()
    ensures Outcome(hist', idMap, failed, acks) == Single(server, cfg, line, hist)
  {
    idMap, failed, acks, hist' := map[], [], [], hist;
    if Malformed(cfg, line) {
      failed := [line];
      return;
    }
    var request := SingleRequest(cfg, line);
    var reply := server(hist, request);
    hist' := hist + [Exchange(request, reply)];
    if SingleLoaded(reply) {
      var id := reply.ids[0].value;
      idMap := map[Key(cfg, line) := id];
      acks := [Ack(line, id, |hist|, 0)];
    } else {
      failed := [line];
    }
  }

  // ----- _load_batch_with_binary_fallback -----

  function FallbackLines(cfg: Config, rows: seq<Row>): (lines: seq<Row>)
    requires cfg.Valid() && AllWellFormed(cfg, rows)
    ensures |lines| == |rows|
  {
    seq(|rows|, i requires 0 <= i < |rows| => FallbackLine(cfg, rows[i]))
  }

  function FallbackCredits(cfg: Config, acks: seq<Ack>): map<string, int>
    requires forall i :: 0 <= i < |acks| ==> cfg.uid < |acks[i].row.cells|
  {
    if IndexOf(Kept(cfg, FallbackPath), cfg.uid).Some? then Credits(cfg, acks, false) else map[]
  }

  function BisectRequest(cfg: Config, valid: seq<Row>): (request: Request)
    requires cfg.Valid() && AllWellFormed(cfg, valid)
    ensures |request.lines| == |valid|
  {
    Request(FallbackHeader(cfg), FallbackLines(cfg, valid))
  }

  /** What a non-empty bulk answer settled by itself. */
  function BulkLoaded(cfg: Config, valid: seq<Row>, reply: Reply, h: History): (o: Outcome)
    requires cfg.Valid() && AllWellFormed(cfg, valid) && reply.Answer?
    ensures o.hist == h + [Exchange(BisectRequest(cfg, valid), reply)]
  {
    var acks := Acks(valid, reply.ids, |h|, |valid|);
    Outcome(h + [Exchange(BisectRequest(cfg, valid), reply)], FallbackCredits(cfg, acks), [], acks)
  }

  lemma MissingIsShorter(server: Server, h: History, request: Request, rows: seq<Row>)
    requires AnswersProgress(server) && |rows| == |request.lines| >= 2
    requires server(h, request).Answer? && server(h, request).ids != []
    ensures |Missing(rows, server(h, request).ids, |rows|)| < |rows|
  {
    var reply := server(h, request);
    assert ReplyProgresses(reply, |request.lines|);
    var i :| 0 <= i < |rows| && Acked(reply.ids, i);
  }

  lemma {:induction false} MissingKeepsWidth(cfg: Config, rows: seq<Row>, ids: seq<Option<int>>, n: nat)
    requires n <= |rows| && AllWellFormed(cfg, rows)
    ensures AllWellFormed(cfg, Missing(rows, ids, n))
  {
    if n > 0 {
      MissingKeepsWidth(cfg, rows, ids, n - 1);
    }
  }

  function Fallback(server: Server, cfg: Config, rows: seq<Row>, h: History): (o: Outcome)
    requires cfg.Valid() && AnswersProgress(server)
    ensures h <= o.hist
    decreases |rows|
  {
    var rejected := Outcome(h, map[], MalformedRows(cfg, rows), []);
    rejected.Then(Bisect(server, cfg, WellFormed(cfg, rows), h))
  }

  /** The fallback on rows of header width, which is what every recursive call gets. */
  function Bisect(server: Server, cfg: Config, valid: seq<Row>, h: History): (o: Outcome)
    requires cfg.Valid() && AnswersProgress(server) && AllWellFormed(cfg, valid)
    ensures h <= o.hist
    decreases |valid|
  {
    if |valid| <= 1 then Singles(server, cfg, valid, h)
    else
      var request := BisectRequest(cfg, valid);
      var reply := server(h, request);
      var h' := h + [Exchange(request, reply)];
      if reply.Answer? && reply.ids != [] then
        var missing := Missing(valid, reply.ids, |valid|);
        var loaded := BulkLoaded(cfg, valid, reply, h);
        if missing == [] then loaded
        else if |missing| == 1 then
          // the id map of this single load is not merged
          loaded.Then(Singles(server, cfg, missing, h').(idMap := map[]))
        else
          MissingIsShorter(server, h, request, valid);
          MissingKeepsWidth(cfg, valid, reply.ids, |valid|);
          loaded.Then(Bisect(server, cfg, missing, h'))
      else
        var mid := |valid| / 2;
        var left := Bisect(server, cfg, valid[..mid], h');
        var right := Bisect(server, cfg, valid[mid..], left.hist);
        left.Then(right)
  }

  lemma ThenAssociates(a: Outcome, b: Outcome, c: Outcome)
    ensures a.Then(b).Then(c) == a.Then(b.Then(c))
  {
    assert a.idMap + b.idMap + c.idMap == a.idMap + (b.idMap + c.idMap);
    assert a.failed + b.failed + c.failed == a.failed + (b.failed + c.failed);
    assert a.acks + b.acks + c.acks == a.acks + (b.acks + c.acks);
  }

  /** On rows of header width the fallback is its bisection. */
  lemma FallbackIsBisect(server: Server, cfg: Config, rows: seq<Row>, h: History)
    requires cfg.Valid() && AnswersProgress(server) && AllWellFormed(cfg, rows)
    ensures Fallback(server, cfg, rows, h) == Bisect(server, cfg, rows, h)
  {
    var o := Bisect(server, cfg, rows, h);
    assert map[] + o.idMap == o.idMap && [] + o.failed == o.failed && [] + o.acks == o.acks;
  }

  method LoadBatchWithBinaryFallback(server: Server, cfg: Config, lines: seq<Row>, hist: History)
    returns (idMap: map<string, int>, failed: seq<Row>, acks: seq<Ack>, hist': History)
    requires cfg.Valid() && AnswersProgress(server)
    ensures Outcome(hist', idMap, failed, acks) == Fallback(server, cfg, lines, hist)
    decreases |lines|, 1
  {
    var valid, rejected := SeparateMalformed(cfg, lines);
    idMap, failed, acks, hist' := LoadValid(server, cfg, valid, hist);
    assert map[] + idMap == idMap && [] + acks == acks;
    failed := rejected + failed;
  }

  /** The validation loop. */
  method SeparateMalformed(cfg: Config, lines: seq<Row>) returns (valid: seq<Row>, rejected: seq<Row>)
    ensures valid == WellFormed(cfg, lines) && rejected == MalformedRows(cfg, lines)
  {
    valid, rejected := [], [];
    for i := 0 to |lines|
      invariant valid == WellFormed(cfg, lines[..i]) && rejected == MalformedRows(cfg, lines[..i])
    {
      assert lines[..i + 1][..i] == lines[..i];
      if Malformed(cfg, lines[i]) {
        rejected := rejected + [lines[i]];
      } else {
        valid := valid + [lines[i]];
      }
    }
    assert lines[..|lines|] == lines;
  }

  /** The part of the fallback after the validation loop. */
  method LoadValid(server: Server, cfg: Config, valid: seq<Row>, hist: History)
    returns (idMap: map<string, int>, failed: seq<Row>, acks: seq<Ack>, hist': History)
    requires cfg.Valid() && AnswersProgress(server) && AllWellFormed(cfg, valid)
    ensures Outcome(hist', idMap, failed, acks) == Bisect(server, cfg, valid, hist)
    decreases |valid|, 0
  {
    hide FallbackHeader, FallbackLine, Acks, Missing, Credits, Singles, Fallback;
    if |valid| <= 1 {
      idMap, failed, acks, hist' := LoadRecordsIndividually(server, cfg, valid, hist);
      return;
    }
    var request := BisectRequest(cfg, valid);
    var reply := server(hist, request);
    hist' := hist + [Exchange(request, reply)];
    if reply.Answer? && reply.ids != [] {
      var missing;
      acks, missing, idMap := ReadAnswer(cfg, valid, reply.ids, |hist|, false);
      if IndexOf(Kept(cfg, FallbackPath), cfg.uid) == None {
        idMap := map[];
      }
      failed := [];
      if |missing| == 1 {
        var m, f, a, h := LoadRecordsIndividually(server, cfg, missing, hist');
        assert idMap + map[] == idMap;
        failed, acks, hist' := failed + f, acks + a, h;
      } else if |missing| > 1 {
        MissingIsShorter(server, hist, request, valid);
        MissingKeepsWidth(cfg, valid, reply.ids, |valid|);
        FallbackIsBisect(server, cfg, missing, hist');
        var m, f, a, h := LoadBatchWithBinaryFallback(server, cfg, missing, hist');
        idMap, failed, acks, hist' := idMap + m, failed + f, acks + a, h;
      }
    } else {
      var mid := |valid| / 2;
      FallbackIsBisect(server, cfg, valid[..mid], hist');
      idMap, failed, acks, hist' := LoadBatchWithBinaryFallback(server, cfg, valid[..mid], hist');
      FallbackIsBisect(server, cfg, valid[mid..], hist');
      var m, f, a, h := LoadBatchWithBinaryFallback(server, cfg, valid[mid..], hist');
      idMap, failed, acks, hist' := idMap + m, failed + f, acks + a, h;
    }
  }
}
