/**
 The two ways a row can go missing from the report, each met by some server for every batch of two rows
 or more: a hole in a full-length answer, and a single load whose id map is dropped.
 */
module Assumptions {
  import opened Basics
  import opened LoadProtocol
  import opened LoadFallback
  import opened LoadWorker
  import opened FallbackFacts
  import opened WorkerFacts
  import opened Accounting

  /** Always a full-length answer whose first id alone is set. */
  function Holey(h: History, request: Request): Reply {
    Answer(seq(|request.lines|, i => if i == 0 then Some(1) else None), None, false)
  }

  lemma HoleyProgresses()
    ensures AnswersProgress(Holey)
  {
    forall h: History, request: Request ensures ReplyProgresses(Holey(h, request), |request.lines|) {
      if request.lines != [] {
        assert Acked(Holey(h, request).ids, 0);
      }
    }
  }

  lemma {:induction false} FirstOnly(rows: seq<Row>, ids: seq<Option<int>>, call: nat, n: nat)
    requires n <= |rows| && forall i :: 1 <= i < n ==> !Acked(ids, i)
    ensures |Acks(rows, ids, call, n)| <= 1
    ensures n >= 1 && Acked(ids, 0) ==> |Acks(rows, ids, call, n)| == 1
  {
    if n > 1 {
      FirstOnly(rows, ids, call, n - 1);
    }
  }

  lemma {:induction false} CreditsCount(cfg: Config, acks: seq<Ack>, blanksToo: bool)
    requires forall i :: 0 <= i < |acks| ==> cfg.uid < |acks[i].row.cells|
    ensures |Credits(cfg, acks, blanksToo)| <= |acks|
  {
    hide Key;
    if acks != [] {
      CreditsCount(cfg, acks[..|acks| - 1], blanksToo);
    }
  }

  /**
   Without the assumption on holes: a full-length answer with a None in it makes the worker forget rows.
   At most one record is created, none fails, and all but one are reported nowhere.
   */
  lemma HolesLoseRows(cfg: Config, batch: seq<Row>)
    requires cfg.Valid() && AllWellFormed(cfg, batch) && NoneTooShort(cfg, batch) && |batch| >= 2
    ensures AnswersProgress(Holey) && !AnswersWithoutHoles(Holey)
    ensures var o := Execute(Holey, cfg, batch, false, []).out; o.failed == [] && |o.idMap| <= 1
    ensures |ForgottenRows(Holey, cfg, batch, false, [])| == |batch| - 1
  {
    hide TooShort, WorkerLine, WorkerHeader, Key, Credits, WorkForgotten;
    HoleyProgresses();
    var request := WorkerRequest(cfg, batch);
    var reply := Holey([], request);
    assert !ReplyHasNoHole(reply, |request.lines|) by {
      assert !Acked(reply.ids, 1);
    }
    assert Verdict(cfg, batch, reply) == None by {
      assert cfg.uid < |cfg.header|;
    }
    FirstOnly(batch, reply.ids, 0, |batch|);
    CreditsCount(cfg, Acks(batch, reply.ids, 0, |batch|), true);
    SettledAtOnce(Holey, cfg, batch);
    BatchKeeps(Holey, cfg, batch, false, []);
    var o, lost := Execute(Holey, cfg, batch, false, []).out, ForgottenRows(Holey, cfg, batch, false, []);
    KeySetSize(cfg, o.acks);
    ThreeSizes(multiset(o.failed), AckedRows(o.acks), multiset(lost), multiset(batch));
  }

  /** Refuses the worker's batch, acknowledges all but the last row of the fallback's, then loads that row alone. */
  function Forgetful(h: History, request: Request): Reply {
    if h == [] || request.lines == [] then Raised(Permanent)
    else Answer(seq(if |request.lines| == 1 then 1 else |request.lines| - 1, i => Some(1)), None, false)
  }

  lemma ForgetfulIsHonest()
    ensures AnswersProgress(Forgetful) && AnswersWithoutHoles(Forgetful)
  {
    forall h: History, request: Request
      ensures ReplyProgresses(Forgetful(h, request), |request.lines|)
      ensures ReplyHasNoHole(Forgetful(h, request), |request.lines|)
    {
      if h != [] && request.lines != [] {
        assert Acked(Forgetful(h, request).ids, 0);
      }
    }
  }

  lemma SingleLoads(cfg: Config, row: Row, h: History)
    requires cfg.Valid() && !Malformed(cfg, row) && h != []
    ensures var o := Singles(Forgetful, cfg, [row], h);
      o.failed == [] && o.acks == [Ack(row, 1, |h|, 0)]
  {
    hide SingleLine, SingleHeader, Key;
    assert [row][..0] == [];
    assert Singles(Forgetful, cfg, [row][..0], h) == Untouched(h);
  }

  lemma FallbackForgets(cfg: Config, batch: seq<Row>, h: History)
    requires cfg.Valid() && AllWellFormed(cfg, batch) && |batch| >= 2 && h != [] && AnswersProgress(Forgetful)
    ensures Bisect(Forgetful, cfg, batch, h).failed == [] && |BisectDropped(Forgetful, cfg, batch, h)| == 1
  {
    hide FallbackLine, FallbackHeader, Key, Singles, Credits, Acks, Malformed;
    var request, n := BisectRequest(cfg, batch), |batch|;
    var reply := Forgetful(h, request);
    FullAnswerMissesNone(batch, reply.ids, n - 1);
    assert Missing(batch, reply.ids, n) == [batch[n - 1]];
    SingleLoads(cfg, batch[n - 1], h + [Exchange(request, reply)]);
  }

  /**
   Without the assumption on left-out rows, for every batch of two rows or more: nothing fails, every row
   is created on the server, and one is reported nowhere, the one whose single load was dropped.
   */
  lemma LateCreationIsLost(cfg: Config, batch: seq<Row>)
    requires FallbackPathsAgree(cfg) && AllWellFormed(cfg, batch) && NoneTooShort(cfg, batch) && |batch| >= 2
    requires AllKeyed(cfg, batch) && DistinctKeys(cfg, batch)
    ensures cfg.Valid() && AnswersProgress(Forgetful) && AnswersWithoutHoles(Forgetful) && !LeftOutStaysOut(Forgetful)
    ensures |DroppedLoads(Forgetful, cfg, batch, false, [])| == 1
    ensures var o := Execute(Forgetful, cfg, batch, false, []).out;
      o.failed == [] && |o.idMap| + |o.failed| == |batch| - 1
  {
    hide TooShort, WorkerLine, WorkerHeader, Bisect, BisectDropped, Malformed, FallbackPathsAgree, AllKeyed,
         DistinctKeys;
    AgreeingIsValid(cfg);
    ForgetfulIsHonest();
    var request := WorkerRequest(cfg, batch);
    var none: History := [];
    var h' := none + [Exchange(request, Raised(Permanent))];
    FallbackIsBisect(Forgetful, cfg, batch, h');
    FallbackForgets(cfg, batch, h');
    SettledAtOnce(Forgetful, cfg, batch);
    assert WellFormed(cfg, batch) == batch;
    DroppedAtOnce(Forgetful, cfg, batch);
    BatchReconciles(Forgetful, cfg, batch, false);
    NothingForgotten(Forgetful, cfg, batch, |batch|, 0, []);
    if LeftOutStaysOut(Forgetful) {
      DropsNone(Forgetful, cfg, batch, false, []);
    }
  }

  /** The dropped loads of a batch that its first request settles. */
  lemma DroppedAtOnce(server: Server, cfg: Config, batch: seq<Row>)
    requires cfg.Valid() && AnswersProgress(server) && batch != [] && NoneTooShort(cfg, batch)
    requires TryChunk(server, cfg, batch, batch, |batch|, 0, []).consumed
    ensures DroppedLoads(server, cfg, batch, false, []) == ChunkDropped(server, cfg, batch, batch, |batch|, 0, [])
  {
    hide TryChunk, TooShort, ChunkDropped;
    NothingDropped(cfg, batch);
    assert batch[..|batch|] == batch && batch[|batch|..] == [];
    var s := Iterate(server, cfg, batch, |batch|, 0, []);
    assert s.queue == [];
    assert WorkDropped(server, cfg, s.queue, s.chunk, s.conflicts, s.done.out.hist) == [];
    assert WorkDropped(server, cfg, batch, |batch|, 0, [])
        == ChunkDropped(server, cfg, batch, batch, |batch|, 0, []) + [];
  }
}
