/** Against such a server the binary fallback is indistinguishable from loading row by row, and cheap. */
module FallbackRefinement {
  import opened Basics
  import opened Halving
  import opened XmlId
  import opened LoadProtocol
  import opened LoadFallback
  import opened FallbackFacts
  import opened Accounting
  import opened TargetStore

  /** What loading the rows one at a time amounts to. */
  datatype Result = Result(db: Db, idMap: map<string, int>, failed: seq<Row>) {
    function Then(next: Result): Result {
      Result(next.db, idMap + next.idMap, failed + next.failed)
    }
  }

  predicate Accepted(b: Backend, cfg: Config, row: Row)
    requires cfg.Valid() && !Malformed(cfg, row)
  {
    b.good(SingleHeader(cfg), SingleLine(cfg, row))
  }

  function One(b: Backend, cfg: Config, row: Row, db: Db): (r: Result)
    requires cfg.Valid() && !Malformed(cfg, row) && db.Valid()
    ensures r.db.Valid()
  {
    if Accepted(b, cfg, row) then
      var header, line := SingleHeader(cfg), SingleLine(cfg, row);
      Result(Upsert(db, header, line), map[Key(cfg, row) := IdOf(db, header, line)], [])
    else Result(db, map[], [row])
  }

  function OneByOne(b: Backend, cfg: Config, rows: seq<Row>, db: Db): (r: Result)
    requires cfg.Valid() && AllWellFormed(cfg, rows) && db.Valid()
    ensures r.db.Valid()
  {
    if rows == [] then Result(db, map[], [])
    else
      var init := OneByOne(b, cfg, rows[..|rows| - 1], db);
      init.Then(One(b, cfg, rows[|rows| - 1], init.db))
  }

  lemma OneByOneExtend(b: Backend, cfg: Config, rows: seq<Row>, last: Row, db: Db)
    requires cfg.Valid() && AllWellFormed(cfg, rows) && !Malformed(cfg, last) && db.Valid()
    ensures AllWellFormed(cfg, rows + [last])
    ensures OneByOne(b, cfg, rows + [last], db)
         == OneByOne(b, cfg, rows, db).Then(One(b, cfg, last, OneByOne(b, cfg, rows, db).db))
  {
    assert (rows + [last])[..|rows|] == rows;
  }

  lemma ResultAssociates(a: Result, b: Result, c: Result)
    ensures a.Then(b).Then(c) == a.Then(b.Then(c))
  {
    assert a.idMap + b.idMap + c.idMap == a.idMap + (b.idMap + c.idMap);
    assert a.failed + b.failed + c.failed == a.failed + (b.failed + c.failed);
  }

  lemma NothingMore(r: Result)
    ensures r.Then(Result(r.db, map[], [])) == r
  {
    assert r.idMap + map[] == r.idMap && r.failed + [] == r.failed;
  }

  lemma {:induction false} OneByOneAppend(b: Backend, cfg: Config, x: seq<Row>, y: seq<Row>, db: Db)
    requires cfg.Valid() && AllWellFormed(cfg, x) && AllWellFormed(cfg, y) && db.Valid()
    ensures AllWellFormed(cfg, x + y)
    ensures OneByOne(b, cfg, x + y, db)
         == OneByOne(b, cfg, x, db).Then(OneByOne(b, cfg, y, OneByOne(b, cfg, x, db).db))
  {
    hide One, Malformed;
    var rx := OneByOne(b, cfg, x, db);
    if y == [] {
      assert x + y == x;
      NothingMore(rx);
    } else {
      hide OneByOne;
      var init, last := y[..|y| - 1], y[|y| - 1];
      assert y == init + [last] && x + y == x + init + [last];
      OneByOneAppend(b, cfg, x, init, db);
      var ri := OneByOne(b, cfg, init, rx.db);
      OneByOneExtend(b, cfg, x + init, last, db);
      OneByOneExtend(b, cfg, init, last, rx.db);
      ResultAssociates(rx, ri, One(b, cfg, last, ri.db));
    }
  }

  /** The outcome is that of loading the rows one at a time, store included. */
  predicate Matches(b: Backend, o: Outcome, r: Result)
    requires b.start.Valid()
  {
    DbAfter(b, o.hist) == r.db && o.idMap == r.idMap && o.failed == r.failed
  }

  lemma SingleMatches(b: Backend, cfg: Config, row: Row, h: History)
    requires b.Valid() && cfg.Valid() && !Malformed(cfg, row)
    ensures Matches(b, Single(ServerOf(b), cfg, row, h), One(b, cfg, row, DbAfter(b, h)))
  {
    hide SingleLine, SingleHeader, ToXmlid, Upsert, IdOf, DbAfter;
    var request := SingleRequest(cfg, row);
    var reply := ServerOf(b)(h, request);
    OneMore(b, h, Exchange(request, reply));
    assert NoIds(b.refuse(h, request));
    assert AllGood(b, request) == Accepted(b, cfg, row);
    UpsertOne(DbAfter(b, h), request.header, request.lines);
  }

  lemma UpsertOne(db: Db, header: seq<string>, lines: seq<Row>)
    requires db.Valid() && |lines| == 1
    ensures UpsertLines(db, header, lines, 1) == Upsert(db, header, lines[0])
    ensures UpsertIds(db, header, lines, 1) == [Some(IdOf(db, header, lines[0]))]
  {
    assert UpsertLines(db, header, lines, 0) == db;
  }

  lemma {:induction false} SinglesMatch(b: Backend, cfg: Config, rows: seq<Row>, h: History)
    requires b.Valid() && cfg.Valid() && AllWellFormed(cfg, rows)
    ensures Matches(b, Singles(ServerOf(b), cfg, rows, h), OneByOne(b, cfg, rows, DbAfter(b, h)))
  {
    if rows == [] {
    } else {
      hide Singles, Single, OneByOne, One, ServerOf, Malformed;
      var init, last := rows[..|rows| - 1], rows[|rows| - 1];
      assert rows == init + [last];
      SinglesMatch(b, cfg, init, h);
      SinglesExtend(ServerOf(b), cfg, init, last, h);
      OneByOneExtend(b, cfg, init, last, DbAfter(b, h));
      SingleMatches(b, cfg, last, Singles(ServerOf(b), cfg, init, h).hist);
    }
  }

  // ----- The bulk load -----

  lemma BulkLine(cfg: Config, valid: seq<Row>, i: nat)
    requires FallbackPathsAgree(cfg) && AllWellFormed(cfg, valid) && i < |valid|
    ensures BisectRequest(cfg, valid).header == SingleHeader(cfg)
    ensures BisectRequest(cfg, valid).lines[i] == SingleLine(cfg, valid[i])
  {
    hide FallbackPathsAgree, SingleLine, SingleHeader, FallbackLine, FallbackHeader;
    SameLine(cfg, valid[i]);
  }

  predicate AllAccepted(b: Backend, cfg: Config, rows: seq<Row>)
    requires cfg.Valid() && AllWellFormed(cfg, rows)
  {
    forall i :: 0 <= i < |rows| ==> Accepted(b, cfg, rows[i])
  }

  lemma BulkAcceptance(b: Backend, cfg: Config, valid: seq<Row>)
    requires FallbackPathsAgree(cfg) && AllWellFormed(cfg, valid)
    ensures AllGood(b, BisectRequest(cfg, valid)) <==> AllAccepted(b, cfg, valid)
  {
    hide FallbackPathsAgree, SingleLine, SingleHeader, FallbackLine, FallbackHeader;
    AgreeingIsValid(cfg);
    var request := BisectRequest(cfg, valid);
    forall i | 0 <= i < |valid|
      ensures b.good(request.header, request.lines[i]) == Accepted(b, cfg, valid[i])
    {
      BulkLine(cfg, valid, i);
    }
  }

  /** After n lines the bulk load and the row-by-row load `r` agree. */
  predicate InStep(cfg: Config, valid: seq<Row>, db: Db, request: Request, ids: seq<Option<int>>, call: nat, n: nat,
                   r: Result)
    requires cfg.Valid() && AllWellFormed(cfg, valid) && db.Valid()
    requires n <= |valid| == |request.lines|
  {
    && UpsertLines(db, request.header, request.lines, n) == r.db
    && r.failed == []
    && Missing(valid, ids, n) == []
    && Credits(cfg, Acks(valid, ids, call, n), false) == r.idMap
  }

  lemma BulkStep(b: Backend, cfg: Config, valid: seq<Row>, db: Db, request: Request, ids: seq<Option<int>>, call: nat,
                 n: nat, r: Result)
    requires cfg.Valid() && AllWellFormed(cfg, valid) && db.Valid() && r.db.Valid()
    requires n < |valid| == |request.lines| == |ids|
    requires Keyed(cfg, valid[n]) && Accepted(b, cfg, valid[n])
    requires request.header == SingleHeader(cfg) && request.lines[n] == SingleLine(cfg, valid[n])
    requires InStep(cfg, valid, db, request, ids, call, n, r)
    requires ids[n] == Some(IdOf(r.db, request.header, request.lines[n]))
    ensures InStep(cfg, valid, db, request, ids, call, n + 1, r.Then(One(b, cfg, valid[n], r.db)))
  {
    hide ToXmlid, SingleLine, SingleHeader, Acks, Missing, Credits, Upsert, IdOf;
    var row := valid[n];
    var id := ids[n].value;
    AnswerStep(valid, ids, call, n);
    CreditsExtend(cfg, Acks(valid, ids, call, n), Ack(row, id, call, n), false);
    assert r.idMap + map[Key(cfg, row) := id] == r.idMap[Key(cfg, row) := id];
  }

  lemma {:induction false} BulkPrefix(b: Backend, cfg: Config, valid: seq<Row>, db: Db, call: nat, n: nat)
    requires FallbackPathsAgree(cfg) && cfg.Valid() && AllWellFormed(cfg, valid) && AllKeyed(cfg, valid)
    requires AllAccepted(b, cfg, valid) && db.Valid() && n <= |valid|
    ensures InStep(cfg, valid, db, BisectRequest(cfg, valid),
                   UpsertIds(db, BisectRequest(cfg, valid).header, BisectRequest(cfg, valid).lines, |valid|),
                   call, n, OneByOne(b, cfg, valid[..n], db))
  {
    hide FallbackPathsAgree, BisectRequest, OneByOne, Keyed, Accepted, Malformed, One, IdOf, InStep, UpsertLines;
    var request := BisectRequest(cfg, valid);
    var ids := UpsertIds(db, request.header, request.lines, |valid|);
    if n == 0 {
      BulkStart(b, cfg, valid, db, request, ids, call);
    } else {
      var r := OneByOne(b, cfg, valid[..n - 1], db);
      BulkPrefix(b, cfg, valid, db, call, n - 1);
      InStepDb(cfg, valid, db, request, ids, call, n - 1, r);
      BulkLine(cfg, valid, n - 1);
      BulkStep(b, cfg, valid, db, request, ids, call, n - 1, r);
      assert valid[..n] == valid[..n - 1] + [valid[n - 1]];
      OneByOneExtend(b, cfg, valid[..n - 1], valid[n - 1], db);
    }
  }

  lemma BulkStart(b: Backend, cfg: Config, valid: seq<Row>, db: Db, request: Request, ids: seq<Option<int>>, call: nat)
    requires cfg.Valid() && AllWellFormed(cfg, valid) && db.Valid() && |valid| == |request.lines|
    ensures InStep(cfg, valid, db, request, ids, call, 0, OneByOne(b, cfg, valid[..0], db))
  {
  }

  lemma InStepDb(cfg: Config, valid: seq<Row>, db: Db, request: Request, ids: seq<Option<int>>, call: nat, n: nat,
                 r: Result)
    requires cfg.Valid() && AllWellFormed(cfg, valid) && db.Valid() && n <= |valid| == |request.lines|
    requires InStep(cfg, valid, db, request, ids, call, n, r)
    ensures UpsertLines(db, request.header, request.lines, n) == r.db
  {
  }

  /** Such a server answers in full or not at all, so it never leaves a row out. */
  lemma StoreLeavesNoneOut(b: Backend)
    requires b.Valid()
    ensures LeftOutStaysOut(ServerOf(b))
  {
    hide UpsertLines, DbAfter;
    forall h: History, request: Request ensures StaysOut(ServerOf(b), h, request) {
      if h != [] {
        var e := h[|h| - 1];
        assert NoIds(b.refuse(h[..|h| - 1], e.request));
        if e.reply == ServerOf(b)(h[..|h| - 1], e.request) {
          assert forall i :: 0 <= i < |e.request.lines| && e.reply.Answer? && e.reply.ids != [] ==>
              Acked(e.reply.ids, i);
        }
      }
    }
  }

  // ----- The refinement -----

  lemma BulkMatches(b: Backend, cfg: Config, valid: seq<Row>, h: History)
    requires b.Valid() && FallbackPathsAgree(cfg) && cfg.Valid() && AllWellFormed(cfg, valid) && AllKeyed(cfg, valid)
    requires AllAccepted(b, cfg, valid) && valid != []
    ensures var reply := ServerOf(b)(h, BisectRequest(cfg, valid));
      && reply.Answer? && reply.ids != []
      && Missing(valid, reply.ids, |valid|) == []
      && Matches(b, BulkLoaded(cfg, valid, reply, h), OneByOne(b, cfg, valid, DbAfter(b, h)))
  {
    hide BisectRequest, OneByOne, Accepted, Malformed, UpsertLines, DbAfter, Kept, FallbackPathsAgree, Keyed, Acks,
         Missing, Credits;
    var request := BisectRequest(cfg, valid);
    BulkAcceptance(b, cfg, valid);
    var reply := ServerOf(b)(h, request);
    assert valid[..|valid|] == valid;
    BulkPrefix(b, cfg, valid, DbAfter(b, h), |h|, |valid|);
    OneMore(b, h, Exchange(request, reply));
    UidCredited(cfg);
  }

  lemma UidCredited(cfg: Config)
    requires FallbackPathsAgree(cfg)
    ensures IndexOf(Kept(cfg, FallbackPath), cfg.uid).Some?
  {
    hide KeptFrom;
    UidKept(cfg);
    SameKept(cfg, 0);
  }

  lemma RefusedStaysPut(b: Backend, cfg: Config, valid: seq<Row>, h: History)
    requires b.Valid() && FallbackPathsAgree(cfg) && cfg.Valid() && AllWellFormed(cfg, valid)
    requires !AllAccepted(b, cfg, valid)
    ensures var request := BisectRequest(cfg, valid);
      var reply := ServerOf(b)(h, request);
      NoIds(reply) && DbAfter(b, h + [Exchange(request, reply)]) == DbAfter(b, h)
  {
    hide BisectRequest, Accepted, Malformed, FallbackPathsAgree;
    var request := BisectRequest(cfg, valid);
    BulkAcceptance(b, cfg, valid);
    OneMore(b, h, Exchange(request, ServerOf(b)(h, request)));
    assert NoIds(b.refuse(h, request));
  }

  lemma BisectFew(server: Server, cfg: Config, valid: seq<Row>, h: History)
    requires cfg.Valid() && AnswersProgress(server) && AllWellFormed(cfg, valid) && |valid| <= 1
    ensures Bisect(server, cfg, valid, h) == Singles(server, cfg, valid, h)
  {
  }

  lemma BisectLoads(server: Server, cfg: Config, valid: seq<Row>, h: History)
    requires cfg.Valid() && AnswersProgress(server) && AllWellFormed(cfg, valid) && |valid| > 1
    requires var reply := server(h, BisectRequest(cfg, valid));
      reply.Answer? && reply.ids != [] && Missing(valid, reply.ids, |valid|) == []
    ensures Bisect(server, cfg, valid, h) == BulkLoaded(cfg, valid, server(h, BisectRequest(cfg, valid)), h)
  {
    hide BisectRequest, BulkLoaded, AnswersProgress;
  }

  lemma BisectSplits(server: Server, cfg: Config, valid: seq<Row>, h: History)
    requires cfg.Valid() && AnswersProgress(server) && AllWellFormed(cfg, valid) && |valid| > 1
    requires NoIds(server(h, BisectRequest(cfg, valid)))
    ensures var request := BisectRequest(cfg, valid);
      var h' := h + [Exchange(request, server(h, request))];
      var left := Bisect(server, cfg, valid[..|valid| / 2], h');
      Bisect(server, cfg, valid, h) == left.Then(Bisect(server, cfg, valid[|valid| / 2..], left.hist))
  {
    hide BisectRequest, BulkLoaded, AnswersProgress;
  }

  lemma {:induction false} BisectMatches(b: Backend, cfg: Config, valid: seq<Row>, h: History)
    requires b.Valid() && FallbackPathsAgree(cfg) && cfg.Valid() && AllWellFormed(cfg, valid) && AllKeyed(cfg, valid)
    requires AnswersProgress(ServerOf(b))
    ensures Matches(b, Bisect(ServerOf(b), cfg, valid, h), OneByOne(b, cfg, valid, DbAfter(b, h)))
    decreases |valid|
  {
    hide Bisect, BisectRequest, Singles, BulkLoaded, ServerOf, OneByOne, Malformed, Keyed, DbAfter, FallbackPathsAgree,
         AnswersProgress;
    if |valid| <= 1 {
      BisectFew(ServerOf(b), cfg, valid, h);
      SinglesMatch(b, cfg, valid, h);
    } else if AllAccepted(b, cfg, valid) {
      BulkMatches(b, cfg, valid, h);
      BisectLoads(ServerOf(b), cfg, valid, h);
    } else {
      RefusedStaysPut(b, cfg, valid, h);
      var request := BisectRequest(cfg, valid);
      var h' := h + [Exchange(request, ServerOf(b)(h, request))];
      var mid := |valid| / 2;
      var left := Bisect(ServerOf(b), cfg, valid[..mid], h');
      BisectSplits(ServerOf(b), cfg, valid, h);
      BisectMatches(b, cfg, valid[..mid], h');
      BisectMatches(b, cfg, valid[mid..], left.hist);
      assert valid[..mid] + valid[mid..] == valid;
      OneByOneAppend(b, cfg, valid[..mid], valid[mid..], DbAfter(b, h));
    }
  }

  // ----- The cost -----

  /** The number of rows the server refuses. */
  function Bad(b: Backend, cfg: Config, rows: seq<Row>): (k: nat)
    requires cfg.Valid() && AllWellFormed(cfg, rows)
    ensures k == 0 <==> AllAccepted(b, cfg, rows)
  {
    if rows == [] then 0
    else Bad(b, cfg, rows[..|rows| - 1]) + if Accepted(b, cfg, rows[|rows| - 1]) then 0 else 1
  }

  lemma {:induction false} BadAppend(b: Backend, cfg: Config, x: seq<Row>, y: seq<Row>)
    requires cfg.Valid() && AllWellFormed(cfg, x) && AllWellFormed(cfg, y)
    ensures AllWellFormed(cfg, x + y) && Bad(b, cfg, x + y) == Bad(b, cfg, x) + Bad(b, cfg, y)
  {
    hide Malformed, Accepted;
    if y == [] {
      assert x + y == x;
    } else {
      BadAppend(b, cfg, x, y[..|y| - 1]);
      assert (x + y)[..|x + y| - 1] == x + y[..|y| - 1];
    }
  }

  ghost predicate CheapOn(b: Backend, cfg: Config, valid: seq<Row>, h: History)
    requires b.Valid() && cfg.Valid() && AllWellFormed(cfg, valid) && AnswersProgress(ServerOf(b))
  {
    |Bisect(ServerOf(b), cfg, valid, h).hist| <= |h| + CallBound(|valid|, Bad(b, cfg, valid))
  }

  lemma CheapHalves(b: Backend, cfg: Config, valid: seq<Row>, h: History, h': History, mid: nat)
    requires b.Valid() && FallbackPathsAgree(cfg) && cfg.Valid() && AllWellFormed(cfg, valid)
    requires AnswersProgress(ServerOf(b)) && |valid| > 1 && !AllAccepted(b, cfg, valid)
    requires h' == h + [Exchange(BisectRequest(cfg, valid), ServerOf(b)(h, BisectRequest(cfg, valid)))]
    requires mid == |valid| / 2 && CheapOn(b, cfg, valid[..mid], h')
    requires CheapOn(b, cfg, valid[mid..], Bisect(ServerOf(b), cfg, valid[..mid], h').hist)
    ensures CheapOn(b, cfg, valid, h)
  {
    hide Bisect, BisectRequest, ServerOf, Malformed, FallbackPathsAgree, AnswersProgress, CallBound, Bad;
    RefusedStaysPut(b, cfg, valid, h);
    BisectSplits(ServerOf(b), cfg, valid, h);
    assert valid[..mid] + valid[mid..] == valid;
    BadAppend(b, cfg, valid[..mid], valid[mid..]);
    CallsAddUp(|valid|, Bad(b, cfg, valid[..mid]), Bad(b, cfg, valid[mid..]));
  }

  lemma {:induction false} BisectCost(b: Backend, cfg: Config, valid: seq<Row>, h: History)
    requires b.Valid() && FallbackPathsAgree(cfg) && cfg.Valid() && AllWellFormed(cfg, valid) && AllKeyed(cfg, valid)
    requires AnswersProgress(ServerOf(b)) && valid != []
    ensures CheapOn(b, cfg, valid, h)
    decreases |valid|
  {
    hide Bisect, BisectRequest, Singles, ServerOf, BulkLoaded, Malformed, Keyed, FallbackPathsAgree, AnswersProgress,
         CallBound, Bad;
    AtLeastOne(|valid|, Bad(b, cfg, valid));
    if |valid| <= 1 {
      BisectFew(ServerOf(b), cfg, valid, h);
      SinglesSettle(ServerOf(b), cfg, valid, h);
    } else if AllAccepted(b, cfg, valid) {
      BulkMatches(b, cfg, valid, h);
      BisectLoads(ServerOf(b), cfg, valid, h);
    } else {
      hide CheapOn;
      var request := BisectRequest(cfg, valid);
      var h' := h + [Exchange(request, ServerOf(b)(h, request))];
      var mid := |valid| / 2;
      BisectCost(b, cfg, valid[..mid], h');
      BisectCost(b, cfg, valid[mid..], Bisect(ServerOf(b), cfg, valid[..mid], h').hist);
      CheapHalves(b, cfg, valid, h, h', mid);
    }
  }

  lemma AtLeastOne(n: nat, k: nat)
    ensures CallBound(n, k) >= 1
  {
  }

  lemma RefinesOnWellFormed(b: Backend, cfg: Config, rows: seq<Row>, h: History)
    requires b.Valid() && FallbackPathsAgree(cfg) && cfg.Valid() && AllWellFormed(cfg, rows) && AllKeyed(cfg, rows)
    requires AnswersProgress(ServerOf(b))
    ensures var fast, slow := Bisect(ServerOf(b), cfg, rows, h), Singles(ServerOf(b), cfg, rows, h);
      fast.idMap == slow.idMap && fast.failed == slow.failed && DbAfter(b, fast.hist) == DbAfter(b, slow.hist)
    ensures rows != [] ==>
      |Bisect(ServerOf(b), cfg, rows, h).hist| - |h| <= 1 + 2 * Bad(b, cfg, rows) * CeilLog2(|rows|)
  {
    hide Bisect, Singles, ServerOf, DbAfter, OneByOne, Malformed, Keyed, FallbackPathsAgree, AnswersProgress, Bad;
    BisectMatches(b, cfg, rows, h);
    SinglesMatch(b, cfg, rows, h);
    if rows != [] {
      BisectCost(b, cfg, rows, h);
    }
  }

  /** Row by row, a malformed row only adds itself to the failures. */
  lemma {:induction false} SinglesSkipMalformed(server: Server, cfg: Config, rows: seq<Row>, h: History)
    requires cfg.Valid()
    ensures SkipsTo(cfg, rows, Singles(server, cfg, rows, h), Singles(server, cfg, WellFormed(cfg, rows), h))
  {
    hide Singles, Single, Malformed;
    if rows == [] {
      SkipNothing(cfg, Singles(server, cfg, [], h));
    } else {
      hide SkipsTo;
      var init, last := rows[..|rows| - 1], rows[|rows| - 1];
      assert rows == init + [last];
      SinglesSkipMalformed(server, cfg, init, h);
      SinglesExtend(server, cfg, init, last, h);
      var all, valid := Singles(server, cfg, init, h), Singles(server, cfg, WellFormed(cfg, init), h);
      SinglesExtend(server, cfg, WellFormed(cfg, init), last, h);
      SkipOneMore(server, cfg, init, last, all, valid);
    }
  }

  /** The outcome on all rows against that on the rows of header width. */
  ghost predicate SkipsTo(cfg: Config, rows: seq<Row>, all: Outcome, valid: Outcome) {
    && all.hist == valid.hist && all.idMap == valid.idMap
    && multiset(all.failed) == multiset(MalformedRows(cfg, rows)) + multiset(valid.failed)
  }

  lemma SkipNothing(cfg: Config, o: Outcome)
    ensures SkipsTo(cfg, [], o, o)
  {
  }

  lemma SkipOneMore(server: Server, cfg: Config, init: seq<Row>, last: Row, all: Outcome, valid: Outcome)
    requires cfg.Valid() && SkipsTo(cfg, init, all, valid)
    ensures SkipsTo(cfg, init + [last], all.Then(Single(server, cfg, last, all.hist)),
                    if Malformed(cfg, last) then valid else valid.Then(Single(server, cfg, last, valid.hist)))
  {
    hide Single, Malformed, MalformedRows;
    var single := Single(server, cfg, last, all.hist);
    OneRowMore(cfg, init, last);
    if Malformed(cfg, last) {
      MalformedSingle(server, cfg, last, all.hist);
      assert all.idMap + map[] == all.idMap;
      assert multiset(all.failed + [last]) == multiset(all.failed) + multiset{last};
      SkipBags(multiset(MalformedRows(cfg, init)), multiset(valid.failed), multiset{last});
    } else {
      assert multiset(all.failed + single.failed) == multiset(all.failed) + multiset(single.failed);
      assert multiset(valid.failed + single.failed) == multiset(valid.failed) + multiset(single.failed);
      SkipBags(multiset(MalformedRows(cfg, init)), multiset(valid.failed), multiset(single.failed));
    }
  }

  lemma OneRowMore(cfg: Config, init: seq<Row>, last: Row)
    ensures multiset(MalformedRows(cfg, init + [last]))
            == if Malformed(cfg, last) then multiset(MalformedRows(cfg, init)) + multiset{last}
                else multiset(MalformedRows(cfg, init))
  {
    assert (init + [last])[..|init|] == init;
  }

  lemma MalformedSingle(server: Server, cfg: Config, row: Row, h: History)
    requires cfg.Valid() && Malformed(cfg, row)
    ensures Single(server, cfg, row, h) == Outcome(h, map[], [row], [])
  {
  }

  lemma SkipBags<T>(a: multiset<T>, b: multiset<T>, c: multiset<T>)
    ensures a + b + c == a + (b + c) == (a + c) + b
  {
  }

  /**
   The binary fallback refines loading one by one, for rows with non-blank ids: the same id map, the
   same store, the same failed rows - in the same order when no row is malformed, and otherwise with
   the malformed rows moved to the front - for at most 1 + 2k * ceil(log2 n) calls, where n rows of
   header width contain k bad ones.
   */
  lemma FallbackRefinesSingles(b: Backend, cfg: Config, rows: seq<Row>, h: History)
    requires b.Valid() && FallbackPathsAgree(cfg) && cfg.Valid() && AllKeyed(cfg, rows)
    ensures AnswersProgress(ServerOf(b))
    ensures var fast, slow := Fallback(ServerOf(b), cfg, rows, h), Singles(ServerOf(b), cfg, rows, h);
      var valid := WellFormed(cfg, rows);
      && fast.idMap == slow.idMap && DbAfter(b, fast.hist) == DbAfter(b, slow.hist)
      && fast.failed == MalformedRows(cfg, rows) + Singles(ServerOf(b), cfg, valid, h).failed
      && multiset(fast.failed) == multiset(slow.failed)
      && (AllWellFormed(cfg, rows) ==> fast.failed == slow.failed)
      && (valid != [] ==> |fast.hist| - |h| <= 1 + 2 * Bad(b, cfg, valid) * CeilLog2(|valid|))
  {
    hide Bisect, Singles, ServerOf, DbAfter, Malformed, Keyed, FallbackPathsAgree, AnswersProgress, Bad;
    ServerIsHonest(b);
    var valid := WellFormed(cfg, rows);
    WellFormedKeyed(cfg, rows);
    RefinesOnWellFormed(b, cfg, valid, h);
    SinglesSkipMalformed(ServerOf(b), cfg, rows, h);
    var o := Bisect(ServerOf(b), cfg, valid, h);
    assert map[] + o.idMap == o.idMap;
    if AllWellFormed(cfg, rows) {
      assert valid == rows && [] + o.failed == o.failed;
    }
  }
}
