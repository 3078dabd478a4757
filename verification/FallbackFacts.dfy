/** What the two fallbacks guarantee against any server. */
module FallbackFacts {
  import opened Basics
  import opened XmlId
  import opened LoadProtocol
  import opened LoadFallback

  /** The acknowledged rows, with multiplicity. */
  function AckedRows(acks: seq<Ack>): multiset<Row> {
    if acks == [] then multiset{} else AckedRows(acks[..|acks| - 1]) + multiset{acks[|acks| - 1].row}
  }

  lemma {:induction false} AckedRowsAppend(a: seq<Ack>, b: seq<Ack>)
    ensures AckedRows(a + b) == AckedRows(a) + AckedRows(b)
  {
    if b == [] {
      assert a + b == a;
    } else {
      var ab, init, last := a + b, b[..|b| - 1], b[|b| - 1].row;
      assert ab[..|ab| - 1] == a + init;
      AckedRowsAppend(a, init);
      var before, rest := AckedRows(a), AckedRows(init);
      assert AckedRows(ab) == before + rest + multiset{last};
      assert AckedRows(b) == rest + multiset{last};
    }
  }

  /** The rows an outcome accounts for: those it failed and those an answer acknowledged. */
  function Handled(o: Outcome): multiset<Row> {
    multiset(o.failed) + AckedRows(o.acks)
  }

  lemma ThenHandles(a: Outcome, b: Outcome)
    ensures Handled(a.Then(b)) == Handled(a) + Handled(b)
  {
    AckedRowsAppend(a.acks, b.acks);
  }

  lemma {:induction false} AnswerSplits(rows: seq<Row>, ids: seq<Option<int>>, call: nat, n: nat)
    requires n <= |rows|
    ensures AckedRows(Acks(rows, ids, call, n)) + multiset(Missing(rows, ids, n)) == multiset(rows[..n])
  {
    if n == 0 {
      assert rows[..0] == [];
    } else {
      hide Acks, Missing, AckedRows;
      AnswerSplits(rows, ids, call, n - 1);
      AnswerStep(rows, ids, call, n - 1);
      var row := rows[n - 1];
      assert rows[..n] == rows[..n - 1] + [row];
      Appended(row, rows[..n - 1]);
      var acks, missing := Acks(rows, ids, call, n - 1), Missing(rows, ids, n - 1);
      Regrouped(AckedRows(acks), multiset(missing), multiset{row});
      if Acked(ids, n - 1) {
        AckAppended(Ack(row, ids[n - 1].value, call, n - 1), acks);
      } else {
        Appended(row, missing);
      }
    }
  }

  lemma Regrouped<T>(a: multiset<T>, b: multiset<T>, c: multiset<T>)
    ensures a + b + c == a + (b + c) == a + c + b
  {
  }

  lemma Appended(row: Row, rows: seq<Row>)
    ensures multiset(rows + [row]) == multiset(rows) + multiset{row}
  {
  }

  lemma AckAppended(ack: Ack, acks: seq<Ack>)
    ensures AckedRows(acks + [ack]) == AckedRows(acks) + multiset{ack.row}
  {
    assert (acks + [ack])[..|acks|] == acks;
  }

  lemma {:induction false} SeparationSplits(cfg: Config, rows: seq<Row>)
    ensures multiset(WellFormed(cfg, rows)) + multiset(MalformedRows(cfg, rows)) == multiset(rows)
  {
    if rows != [] {
      SeparationSplits(cfg, rows[..|rows| - 1]);
      assert rows == rows[..|rows| - 1] + [rows[|rows| - 1]];
    }
  }

  // ----- Exactly-once settlement and call bounds -----

  lemma {:induction false} SinglesSettle(server: Server, cfg: Config, rows: seq<Row>, h: History)
    requires cfg.Valid()
    ensures Handled(Singles(server, cfg, rows, h)) == multiset(rows)
    ensures |Singles(server, cfg, rows, h).hist| <= |h| + |rows|
  {
    if rows == [] {
    } else {
      hide Handled, Singles, Single;
      var init, last := rows[..|rows| - 1], rows[|rows| - 1];
      assert rows == init + [last];
      SinglesSettle(server, cfg, init, h);
      SinglesExtend(server, cfg, init, last, h);
      var a := Singles(server, cfg, init, h);
      SingleSettles(server, cfg, last, a.hist);
      ThenHandles(a, Single(server, cfg, last, a.hist));
      Appended(last, init);
    }
  }

  lemma SingleSettles(server: Server, cfg: Config, row: Row, h: History)
    requires cfg.Valid()
    ensures Handled(Single(server, cfg, row, h)) == multiset{row}
    ensures |Single(server, cfg, row, h).hist| <= |h| + 1
  {
    hide SingleRequest;
    var o := Single(server, cfg, row, h);
    if o.acks != [] {
      assert o.acks[..0] == [];
      assert AckedRows(o.acks) == multiset{} + multiset{row};
    }
  }

  lemma {:induction false} BisectSettles(server: Server, cfg: Config, valid: seq<Row>, h: History)
    requires cfg.Valid() && AnswersProgress(server) && AllWellFormed(cfg, valid)
    ensures Handled(Bisect(server, cfg, valid, h)) == multiset(valid)
    decreases |valid|
  {
    hide Handled, BisectRequest, Missing, Singles, AnswersProgress, BulkLoaded;
    if |valid| <= 1 {
      SinglesSettle(server, cfg, valid, h);
      return;
    }
    var request := BisectRequest(cfg, valid);
    var reply := server(h, request);
    var h' := h + [Exchange(request, reply)];
    if reply.Answer? && reply.ids != [] {
      var missing := Missing(valid, reply.ids, |valid|);
      var loaded := BulkLoaded(cfg, valid, reply, h);
      BulkSplits(cfg, valid, reply, h);
      MissingIsShorter(server, h, request, valid);
      MissingKeepsWidth(cfg, valid, reply.ids, |valid|);
      if |missing| == 1 {
        SinglesSettle(server, cfg, missing, h');
        var rest := Singles(server, cfg, missing, h');
        MapIsAside(rest, map[]);
        ThenHandles(loaded, rest.(idMap := map[]));
      } else if |missing| > 1 {
        BisectSettles(server, cfg, missing, h');
        ThenHandles(loaded, Bisect(server, cfg, missing, h'));
      }
    } else {
      var mid := |valid| / 2;
      var left := Bisect(server, cfg, valid[..mid], h');
      BisectSettles(server, cfg, valid[..mid], h');
      BisectSettles(server, cfg, valid[mid..], left.hist);
      ThenHandles(left, Bisect(server, cfg, valid[mid..], left.hist));
      SplitMultiset(valid, mid);
    }
  }

  lemma BulkSplits(cfg: Config, valid: seq<Row>, reply: Reply, h: History)
    requires cfg.Valid() && AllWellFormed(cfg, valid) && reply.Answer?
    ensures Handled(BulkLoaded(cfg, valid, reply, h)) + multiset(Missing(valid, reply.ids, |valid|)) == multiset(valid)
  {
    hide Missing, BisectRequest, FallbackCredits;
    AnswerSplits(valid, reply.ids, |h|, |valid|);
    assert valid[..|valid|] == valid;
    assert BulkLoaded(cfg, valid, reply, h).failed == [];
  }

  lemma MapIsAside(o: Outcome, idMap: map<string, int>)
    ensures Handled(o.(idMap := idMap)) == Handled(o)
  {
  }

  /** 2n - 1 calls at most: the nodes of a binary tree with n leaves. */
  function BisectCalls(n: nat): nat {
    if n == 0 then 0 else 2 * n - 1
  }

  lemma {:induction false} BisectCallBound(server: Server, cfg: Config, valid: seq<Row>, h: History)
    requires cfg.Valid() && AnswersProgress(server) && AllWellFormed(cfg, valid)
    ensures |Bisect(server, cfg, valid, h).hist| <= |h| + BisectCalls(|valid|)
    decreases |valid|
  {
    hide BisectRequest, Missing, Singles, AnswersProgress, BulkLoaded;
    if |valid| <= 1 {
      SinglesSettle(server, cfg, valid, h);
      return;
    }
    var request := BisectRequest(cfg, valid);
    var reply := server(h, request);
    var h' := h + [Exchange(request, reply)];
    if reply.Answer? && reply.ids != [] {
      var missing := Missing(valid, reply.ids, |valid|);
      MissingIsShorter(server, h, request, valid);
      MissingKeepsWidth(cfg, valid, reply.ids, |valid|);
      if |missing| == 1 {
        SinglesSettle(server, cfg, missing, h');
      } else if |missing| > 1 {
        BisectCallBound(server, cfg, missing, h');
      }
    } else {
      var mid := |valid| / 2;
      BisectCallBound(server, cfg, valid[..mid], h');
      BisectCallBound(server, cfg, valid[mid..], Bisect(server, cfg, valid[..mid], h').hist);
    }
  }

  /** Every row given to the fallback, malformed or not, is settled exactly once. */
  lemma FallbackSettles(server: Server, cfg: Config, rows: seq<Row>, h: History)
    requires cfg.Valid() && AnswersProgress(server)
    ensures Handled(Fallback(server, cfg, rows, h)) == multiset(rows)
    ensures |Fallback(server, cfg, rows, h).hist| <= |h| + BisectCalls(|rows|)
  {
    BisectCallBound(server, cfg, WellFormed(cfg, rows), h);
    var rejected := Outcome(h, map[], MalformedRows(cfg, rows), []);
    var valid := WellFormed(cfg, rows);
    BisectSettles(server, cfg, valid, h);
    ThenHandles(rejected, Bisect(server, cfg, valid, h));
    SeparationSplits(cfg, rows);
  }

  // ----- Every id map entry is what the server returned for that row -----

  /** Line `pos` of the request is `row`, prepared by one of the three load paths. */
  predicate Carries(cfg: Config, request: Request, pos: nat, row: Row)
    requires cfg.Valid()
  {
    && pos < |request.lines|
    && var line := request.lines[pos];
    || (!TooShort(cfg, row) && request.header == WorkerHeader(cfg) && line == WorkerLine(cfg, row))
    || (!Malformed(cfg, row) && request.header == FallbackHeader(cfg) && line == FallbackLine(cfg, row))
    || (!Malformed(cfg, row) && request.header == SingleHeader(cfg) && line == SingleLine(cfg, row))
  }

  predicate Evident(cfg: Config, h: History, a: Ack)
    requires cfg.Valid()
  {
    && a.call < |h|
    && h[a.call].reply.Answer?
    && Acked(h[a.call].reply.ids, a.pos)
    && h[a.call].reply.ids[a.pos] == Some(a.id)
    && Carries(cfg, h[a.call].request, a.pos, a.row)
  }

  predicate CreditedBy(cfg: Config, acks: seq<Ack>, key: string, id: int) {
    exists i :: 0 <= i < |acks| && cfg.uid < |acks[i].row.cells| && Key(cfg, acks[i].row) == key && acks[i].id == id
  }

  ghost predicate Justified(cfg: Config, o: Outcome)
    requires cfg.Valid()
  {
    && (forall i :: 0 <= i < |o.acks| ==> Evident(cfg, o.hist, o.acks[i]))
    && (forall key :: key in o.idMap ==> CreditedBy(cfg, o.acks, key, o.idMap[key]))
  }

  lemma EvidenceStays(cfg: Config, h: History, h': History, a: Ack)
    requires cfg.Valid() && h <= h' && Evident(cfg, h, a)
    ensures Evident(cfg, h', a)
  {
    assert h'[a.call] == h[a.call];
  }

  lemma CreditStays(cfg: Config, acks: seq<Ack>, acks': seq<Ack>, key: string, id: int)
    requires CreditedBy(cfg, acks, key, id)
    ensures CreditedBy(cfg, acks + acks', key, id) && CreditedBy(cfg, acks' + acks, key, id)
  {
    var i :| 0 <= i < |acks| && cfg.uid < |acks[i].row.cells| && Key(cfg, acks[i].row) == key && acks[i].id == id;
    assert (acks + acks')[i] == acks[i];
    assert (acks' + acks)[|acks'| + i] == acks[i];
  }

  lemma LastCredit(cfg: Config, acks: seq<Ack>)
    requires acks != [] && cfg.uid < |acks[|acks| - 1].row.cells|
    ensures CreditedBy(cfg, acks, Key(cfg, acks[|acks| - 1].row), acks[|acks| - 1].id)
  {
  }

  lemma ThenJustified(cfg: Config, a: Outcome, b: Outcome)
    requires cfg.Valid() && Justified(cfg, a) && Justified(cfg, b) && a.hist <= b.hist
    ensures Justified(cfg, a.Then(b))
  {
    var o := a.Then(b);
    forall i | 0 <= i < |o.acks| ensures Evident(cfg, o.hist, o.acks[i]) {
      if i < |a.acks| {
        EvidenceStays(cfg, a.hist, b.hist, a.acks[i]);
      }
    }
    forall key | key in o.idMap ensures CreditedBy(cfg, o.acks, key, o.idMap[key]) {
      if key in b.idMap {
        CreditStays(cfg, b.acks, a.acks, key, b.idMap[key]);
      } else {
        CreditStays(cfg, a.acks, b.acks, key, a.idMap[key]);
      }
    }
  }

  lemma {:induction false} CreditsJustified(cfg: Config, acks: seq<Ack>, blanksToo: bool)
    requires forall i :: 0 <= i < |acks| ==> cfg.uid < |acks[i].row.cells|
    ensures forall key :: key in Credits(cfg, acks, blanksToo) ==>
              CreditedBy(cfg, acks, key, Credits(cfg, acks, blanksToo)[key])
  {
    hide ToXmlid, CreditedBy;
    if acks != [] {
      var init, last := acks[..|acks| - 1], acks[|acks| - 1];
      CreditsJustified(cfg, init, blanksToo);
      var earlier, m := Credits(cfg, init, blanksToo), Credits(cfg, acks, blanksToo);
      assert acks == init + [last];
      forall key | key in m ensures CreditedBy(cfg, acks, key, m[key]) {
        if key in earlier && m[key] == earlier[key] {
          CreditStays(cfg, init, [last], key, earlier[key]);
        } else {
          LastCredit(cfg, acks);
        }
      }
    }
  }

  lemma SingleJustified(server: Server, cfg: Config, row: Row, h: History)
    requires cfg.Valid()
    ensures Justified(cfg, Single(server, cfg, row, h))
  {
    hide ToXmlid, SingleLine, SingleHeader, TooShort;
    var o := Single(server, cfg, row, h);
    if o.acks != [] {
      var request := SingleRequest(cfg, row);
      assert o.hist[|h|].request == request;
      assert Carries(cfg, request, 0, row);
      LastCredit(cfg, o.acks);
    }
  }

  lemma {:induction false} SinglesJustified(server: Server, cfg: Config, rows: seq<Row>, h: History)
    requires cfg.Valid()
    ensures Justified(cfg, Singles(server, cfg, rows, h))
  {
    if rows == [] {
    } else {
      hide Justified, Single;
      var init, last := rows[..|rows| - 1], rows[|rows| - 1];
      SinglesJustified(server, cfg, init, h);
      var a := Singles(server, cfg, init, h);
      SingleJustified(server, cfg, last, a.hist);
      ThenJustified(cfg, a, Single(server, cfg, last, a.hist));
    }
  }

  lemma AckEvident(cfg: Config, valid: seq<Row>, h: History, request: Request, reply: Reply, i: nat)
    requires cfg.Valid() && AllWellFormed(cfg, valid) && reply.Answer?
    requires request == BisectRequest(cfg, valid)
    requires i < |Acks(valid, reply.ids, |h|, |valid|)|
    ensures Evident(cfg, h + [Exchange(request, reply)], Acks(valid, reply.ids, |h|, |valid|)[i])
  {
    hide FallbackLine, FallbackHeader, TooShort, WorkerLine, WorkerHeader, SingleLine, SingleHeader;
    var ack := Acks(valid, reply.ids, |h|, |valid|)[i];
    assert (h + [Exchange(request, reply)])[|h|] == Exchange(request, reply);
    assert request.lines[ack.pos] == FallbackLine(cfg, ack.row);
  }

  lemma BulkJustified(cfg: Config, valid: seq<Row>, reply: Reply, h: History)
    requires cfg.Valid() && AllWellFormed(cfg, valid) && reply.Answer?
    ensures Justified(cfg, BulkLoaded(cfg, valid, reply, h))
  {
    hide BisectRequest, Evident, CreditedBy, Credits;
    var acks := Acks(valid, reply.ids, |h|, |valid|);
    CreditsJustified(cfg, acks, false);
    forall i | 0 <= i < |acks| {
      AckEvident(cfg, valid, h, BisectRequest(cfg, valid), reply, i);
    }
  }

  lemma ForgottenJustified(cfg: Config, o: Outcome)
    requires cfg.Valid() && Justified(cfg, o)
    ensures Justified(cfg, o.(idMap := map[]))
  {
  }

  lemma {:induction false} BisectJustified(server: Server, cfg: Config, valid: seq<Row>, h: History)
    requires cfg.Valid() && AnswersProgress(server) && AllWellFormed(cfg, valid)
    ensures Justified(cfg, Bisect(server, cfg, valid, h))
    decreases |valid|
  {
    hide BisectRequest, Missing, Singles, Justified, AnswersProgress, BulkLoaded;
    if |valid| <= 1 {
      SinglesJustified(server, cfg, valid, h);
      return;
    }
    var request := BisectRequest(cfg, valid);
    var reply := server(h, request);
    var h' := h + [Exchange(request, reply)];
    if reply.Answer? && reply.ids != [] {
      var missing := Missing(valid, reply.ids, |valid|);
      var loaded := BulkLoaded(cfg, valid, reply, h);
      BulkJustified(cfg, valid, reply, h);
      MissingIsShorter(server, h, request, valid);
      MissingKeepsWidth(cfg, valid, reply.ids, |valid|);
      if |missing| == 1 {
        SinglesJustified(server, cfg, missing, h');
        ForgottenJustified(cfg, Singles(server, cfg, missing, h'));
        ThenJustified(cfg, loaded, Singles(server, cfg, missing, h').(idMap := map[]));
      } else if |missing| > 1 {
        BisectJustified(server, cfg, missing, h');
        ThenJustified(cfg, loaded, Bisect(server, cfg, missing, h'));
      }
    } else {
      var mid := |valid| / 2;
      var left := Bisect(server, cfg, valid[..mid], h');
      BisectJustified(server, cfg, valid[..mid], h');
      BisectJustified(server, cfg, valid[mid..], left.hist);
      ThenJustified(cfg, left, Bisect(server, cfg, valid[mid..], left.hist));
    }
  }

  lemma FallbackJustified(server: Server, cfg: Config, rows: seq<Row>, h: History)
    requires cfg.Valid() && AnswersProgress(server)
    ensures Justified(cfg, Fallback(server, cfg, rows, h))
  {
    BisectJustified(server, cfg, WellFormed(cfg, rows), h);
    var o := Bisect(server, cfg, WellFormed(cfg, rows), h);
    assert map[] + o.idMap == o.idMap && [] + o.acks == o.acks;
  }
}
