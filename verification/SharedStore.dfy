/**
 Several Pass 1 workers on one server: an interleaving of their calls, what each of them computes from its
 own part of it, and the outcome of the pass as a whole.
 */
module SharedStore {
  import opened Basics
  import opened XmlId
  import opened LoadProtocol
  import opened LoadFallback
  import opened FallbackFacts
  import opened LoadWorker
  import opened WorkerFacts
  import opened HistoryFacts

  /** One exchange, and which worker had it. */
  datatype Call = Call(worker: nat, exchange: Exchange)
  type Trace = seq<Call>

  /** The batches, one worker each, and the server as each worker sees it. */
  datatype Crew = Crew(batches: seq<seq<Row>>, views: seq<Server>) {
    ghost predicate Valid() {
      |views| == |batches| && forall i :: 0 <= i < |views| ==> AnswersProgress(views[i])
    }
  }

  /** All exchanges in the order the server had them. */
  function Whole(trace: Trace): (h: History)
    ensures |h| == |trace|
  {
    seq(|trace|, n requires 0 <= n < |trace| => trace[n].exchange)
  }

  /** The exchanges of one worker. */
  function Own(trace: Trace, i: nat): History {
    if trace == [] then []
    else
      var before, last := Own(trace[..|trace| - 1], i), trace[|trace| - 1];
      if last.worker == i then before + [last.exchange] else before
  }

  /** Where in the trace a worker had its k-th exchange. */
  function Place(trace: Trace, i: nat, k: nat): (n: nat)
    requires k < |Own(trace, i)|
    ensures n < |trace| && trace[n] == Call(i, Own(trace, i)[k])
  {
    var init := trace[..|trace| - 1];
    if k < |Own(init, i)| then Place(init, i, k) else |trace| - 1
  }

  lemma {:induction false} OwnHas(trace: Trace, n: nat) returns (k: nat)
    requires n < |trace|
    ensures k < |Own(trace, trace[n].worker)| && Own(trace, trace[n].worker)[k] == trace[n].exchange
  {
    var init := trace[..|trace| - 1];
    if n < |trace| - 1 {
      k := OwnHas(init, n);
    } else {
      k := |Own(init, trace[n].worker)|;
    }
  }

  lemma OwnExtend(trace: Trace, call: Call, i: nat)
    ensures Own(trace + [call], i) == if call.worker == i then Own(trace, i) + [call.exchange] else Own(trace, i)
    ensures Whole(trace + [call]) == Whole(trace) + [call.exchange]
  {
    assert (trace + [call])[..|trace|] == trace;
  }

  function WorkerOutcome(cfg: Config, crew: Crew, i: nat): Outcome
    requires cfg.Valid() && i < |crew.batches| && |crew.views| == |crew.batches| && AnswersProgress(crew.views[i])
  {
    Execute(crew.views[i], cfg, crew.batches[i], false, []).out
  }

  /** Each worker has made the calls the code makes, up to some point. */
  ghost predicate Obeys(cfg: Config, crew: Crew, trace: Trace)
    requires cfg.Valid() && crew.Valid()
  {
    && (forall n :: 0 <= n < |trace| ==> trace[n].worker < |crew.batches|)
    && (forall i :: 0 <= i < |crew.batches| ==> Own(trace, i) <= WorkerOutcome(cfg, crew, i).hist)
  }

  /** Each worker has come to its end. */
  ghost predicate Ended(cfg: Config, crew: Crew, trace: Trace)
    requires cfg.Valid() && crew.Valid()
  {
    && (forall n :: 0 <= n < |trace| ==> trace[n].worker < |crew.batches|)
    && (forall i :: 0 <= i < |crew.batches| ==> Own(trace, i) == WorkerOutcome(cfg, crew, i).hist)
  }

  /** One server gave all the replies, in the order of the trace. */
  ghost predicate ServedBy(server: Server, trace: Trace) {
    forall n :: 0 <= n < |trace| ==> trace[n].exchange.reply == server(Whole(trace)[..n], trace[n].exchange.request)
  }

  lemma BatchIsWithin(batches: seq<seq<Row>>, i: nat)
    requires i < |batches|
    ensures Within(batches[i], Flatten(batches))
  {
    forall j | 0 <= j < |batches[i]| ensures batches[i][j] in Flatten(batches) {
      PartOfFlatten(batches, i, batches[i][j]);
    }
  }

  lemma WorkerRequestsOwnRows(cfg: Config, crew: Crew, i: nat, k: nat)
    requires cfg.Valid() && crew.Valid() && i < |crew.batches| && k < |WorkerOutcome(cfg, crew, i).hist|
    ensures FromBatch(cfg, Flatten(crew.batches), WorkerOutcome(cfg, crew, i).hist[k].request)
  {
    hide Work, FromBatch, AnswersProgress, Within;
    BatchIsWithin(crew.batches, i);
    WorkGenuine(crew.views[i], cfg, crew.batches[i], Flatten(crew.batches), |crew.batches[i]|, 0, []);
  }

  /** Every request of the trace carries rows of the pass, and every reply is the server's. */
  lemma TraceIsGenuine(server: Server, cfg: Config, crew: Crew, trace: Trace)
    requires cfg.Valid() && crew.Valid() && Obeys(cfg, crew, trace) && ServedBy(server, trace)
    ensures Genuine(server, cfg, Flatten(crew.batches), [], Whole(trace))
  {
    hide WorkerOutcome, FromBatch, Own;
    var h := Whole(trace);
    forall n | 0 <= n < |h|
      ensures h[n].reply == server(h[..n], h[n].request) && FromBatch(cfg, Flatten(crew.batches), h[n].request)
    {
      var i := trace[n].worker;
      var k := OwnHas(trace, n);
      assert Own(trace, i) <= WorkerOutcome(cfg, crew, i).hist;
      WorkerRequestsOwnRows(cfg, crew, i, k);
    }
  }

  // ----- The pass as one outcome -----

  function Relabelled(trace: Trace, i: nat, a: Ack): Ack {
    a.(call := if a.call < |Own(trace, i)| then Place(trace, i, a.call) else a.call)
  }

  function RelabelAll(trace: Trace, i: nat, acks: seq<Ack>): (r: seq<Ack>)
    ensures |r| == |acks| && forall j :: 0 <= j < |acks| ==> r[j] == Relabelled(trace, i, acks[j])
  {
    seq(|acks|, j requires 0 <= j < |acks| => Relabelled(trace, i, acks[j]))
  }

  /** One worker's outcome, in terms of the whole trace. */
  function InTrace(cfg: Config, crew: Crew, trace: Trace, i: nat): Outcome
    requires cfg.Valid() && i < |crew.batches| && |crew.views| == |crew.batches| && AnswersProgress(crew.views[i])
  {
    var o := WorkerOutcome(cfg, crew, i);
    Outcome(Whole(trace), o.idMap, o.failed, RelabelAll(trace, i, o.acks))
  }

  /** The first n workers' outcomes merged. */
  ghost function Joined(cfg: Config, crew: Crew, trace: Trace, n: nat): Outcome
    requires cfg.Valid() && crew.Valid() && n <= |crew.batches|
  {
    if n == 0 then Untouched(Whole(trace)) else Joined(cfg, crew, trace, n - 1).Then(InTrace(cfg, crew, trace, n - 1))
  }

  lemma {:induction false} RelabelRows(trace: Trace, i: nat, acks: seq<Ack>)
    ensures AckedRows(RelabelAll(trace, i, acks)) == AckedRows(acks)
  {
    hide Place, Own;
    if acks != [] {
      RelabelRows(trace, i, acks[..|acks| - 1]);
      assert RelabelAll(trace, i, acks)[..|acks| - 1] == RelabelAll(trace, i, acks[..|acks| - 1]);
    }
  }

  lemma RelabelEvidence(cfg: Config, trace: Trace, i: nat, a: Ack)
    requires cfg.Valid() && Evident(cfg, Own(trace, i), a)
    ensures Evident(cfg, Whole(trace), Relabelled(trace, i, a))
  {
    hide Carries;
  }

  lemma RelabelCredit(cfg: Config, trace: Trace, i: nat, acks: seq<Ack>, key: string, id: int)
    requires CreditedBy(cfg, acks, key, id)
    ensures CreditedBy(cfg, RelabelAll(trace, i, acks), key, id)
  {
    hide ToXmlid, Place, Own;
    var j :| 0 <= j < |acks| && cfg.uid < |acks[j].row.cells| && Key(cfg, acks[j].row) == key && acks[j].id == id;
    assert RelabelAll(trace, i, acks)[j].row == acks[j].row;
  }

  lemma InTraceJustified(cfg: Config, crew: Crew, trace: Trace, i: nat)
    requires cfg.Valid() && crew.Valid() && Ended(cfg, crew, trace) && i < |crew.batches|
    ensures Justified(cfg, InTrace(cfg, crew, trace, i))
    ensures Handled(InTrace(cfg, crew, trace, i)) == Handled(WorkerOutcome(cfg, crew, i))
  {
    hide Execute, Evident, CreditedBy, AnswersProgress, Own, Whole, Relabelled;
    var o, r := WorkerOutcome(cfg, crew, i), InTrace(cfg, crew, trace, i);
    BatchJustified(crew.views[i], cfg, crew.batches[i], false, []);
    RelabelRows(trace, i, o.acks);
    forall j | 0 <= j < |r.acks| ensures Evident(cfg, r.hist, r.acks[j]) {
      RelabelEvidence(cfg, trace, i, o.acks[j]);
    }
    forall key | key in r.idMap ensures CreditedBy(cfg, r.acks, key, r.idMap[key]) {
      RelabelCredit(cfg, trace, i, o.acks, key, o.idMap[key]);
    }
  }

  /** The merged outcome settles what its workers settle, with evidence in the trace. */
  lemma {:induction false} JoinedFacts(cfg: Config, crew: Crew, trace: Trace, n: nat)
    requires cfg.Valid() && crew.Valid() && Ended(cfg, crew, trace) && n <= |crew.batches|
    requires forall i :: 0 <= i < |crew.batches| ==> Handled(WorkerOutcome(cfg, crew, i)) == multiset(crew.batches[i])
    ensures var o := Joined(cfg, crew, trace, n);
      o.hist == Whole(trace) && Justified(cfg, o) && Handled(o) == multiset(Flatten(crew.batches[..n]))
  {
    hide WorkerOutcome, Handled, Justified, Own, Whole, AnswersProgress;
    if n == 0 {
      AllFailed(Whole(trace), []);
      NothingJustified(cfg, Whole(trace), []);
      assert crew.batches[..0] == [];
    } else {
      JoinedFacts(cfg, crew, trace, n - 1);
      var before, o := Joined(cfg, crew, trace, n - 1), InTrace(cfg, crew, trace, n - 1);
      InTraceJustified(cfg, crew, trace, n - 1);
      assert o.hist == before.hist;
      ThenJustified(cfg, before, o);
      ThenHandles(before, o);
      assert crew.batches[..n] == crew.batches[..n - 1] + [crew.batches[n - 1]];
      FlattenAppend(crew.batches[..n - 1], [crew.batches[n - 1]]);
      FlattenOne(crew.batches[n - 1]);
    }
  }

  // ----- One worker after the other: every list of batches has such a trace -----

  /** The server as seen after a history. */
  function Shifted(server: Server, h: History): Server {
    (h': History, request: Request) => server(h + h', request)
  }

  lemma ShiftedIsHonest(server: Server, h: History)
    ensures AnswersProgress(server) ==> AnswersProgress(Shifted(server, h))
    ensures AnswersWithoutHoles(server) ==> AnswersWithoutHoles(Shifted(server, h))
  {
    if AnswersProgress(server) {
      forall h': History, request: Request ensures ReplyProgresses(Shifted(server, h)(h', request), |request.lines|) {
        assert ReplyProgresses(server(h + h', request), |request.lines|);
      }
    }
    if AnswersWithoutHoles(server) {
      forall h': History, request: Request ensures ReplyHasNoHole(Shifted(server, h)(h', request), |request.lines|) {
        assert ReplyHasNoHole(server(h + h', request), |request.lines|);
      }
    }
  }

  function Labels(h: History, i: nat): (trace: Trace)
    ensures |trace| == |h|
  {
    seq(|h|, n requires 0 <= n < |h| => Call(i, h[n]))
  }

  /** The trace of the first n batches, each begun when the one before it has ended. */
  function InTurn(server: Server, cfg: Config, batches: seq<seq<Row>>, n: nat): Trace
    requires cfg.Valid() && AnswersProgress(server) && n <= |batches|
  {
    if n == 0 then []
    else
      var before := InTurn(server, cfg, batches, n - 1);
      ShiftedIsHonest(server, Whole(before));
      before + Labels(Execute(Shifted(server, Whole(before)), cfg, batches[n - 1], false, []).out.hist, n - 1)
  }

  function CrewInTurn(server: Server, cfg: Config, batches: seq<seq<Row>>): (crew: Crew)
    requires cfg.Valid() && AnswersProgress(server)
    ensures |crew.views| == |crew.batches| == |batches|
  {
    Crew(batches, seq(|batches|, i requires 0 <= i < |batches| =>
                        Shifted(server, Whole(InTurn(server, cfg, batches, i)))))
  }

  lemma CrewInTurnIsValid(server: Server, cfg: Config, batches: seq<seq<Row>>)
    requires cfg.Valid() && AnswersProgress(server)
    ensures CrewInTurn(server, cfg, batches).Valid()
  {
    hide AnswersProgress, InTurn;
    var crew := CrewInTurn(server, cfg, batches);
    forall i | 0 <= i < |batches| ensures AnswersProgress(crew.views[i]) {
      ShiftedIsHonest(server, Whole(InTurn(server, cfg, batches, i)));
    }
  }

  lemma {:induction false} OwnLabels(h: History, i: nat, j: nat)
    ensures Own(Labels(h, i), j) == if i == j then h else []
  {
    if h != [] {
      OwnLabels(h[..|h| - 1], i, j);
      assert Labels(h, i)[..|h| - 1] == Labels(h[..|h| - 1], i);
      assert h == h[..|h| - 1] + [h[|h| - 1]];
    }
  }

  lemma {:induction false} OwnAppend(a: Trace, b: Trace, i: nat)
    ensures Own(a + b, i) == Own(a, i) + Own(b, i)
  {
    if b == [] {
      assert a + b == a;
    } else {
      assert (a + b)[..|a + b| - 1] == a + b[..|b| - 1];
      OwnAppend(a, b[..|b| - 1], i);
    }
  }

  lemma WholeLabels(a: Trace, h: History, i: nat)
    ensures Whole(a + Labels(h, i)) == Whole(a) + h
  {
  }

  lemma {:induction false} InTurnOwn(server: Server, cfg: Config, batches: seq<seq<Row>>, n: nat, i: nat)
    requires cfg.Valid() && AnswersProgress(server) && n <= |batches| && i < |batches|
    requires CrewInTurn(server, cfg, batches).Valid()
    ensures Own(InTurn(server, cfg, batches, n), i)
            == if i < n then WorkerOutcome(cfg, CrewInTurn(server, cfg, batches), i).hist else []
  {
    hide WorkerOutcome, InTurn, Own, AnswersProgress, Labels, ServedBy, CrewInTurn;
    InTurnStep(server, cfg, batches, n);
    if n == 0 {
      NothingOwn(i);
    } else {
      InTurnOwn(server, cfg, batches, n - 1, i);
      var h := WorkerOutcome(cfg, CrewInTurn(server, cfg, batches), n - 1).hist;
      OwnWithLabels(InTurn(server, cfg, batches, n - 1), h, n - 1, i);
    }
  }

  lemma OwnWithLabels(before: Trace, h: History, j: nat, i: nat)
    requires i == j ==> Own(before, i) == []
    ensures Own(before + Labels(h, j), i) == if i == j then h else Own(before, i)
  {
    hide Own, Labels;
    OwnAppend(before, Labels(h, j), i);
    OwnLabels(h, j, i);
    assert Own(before, i) + [] == Own(before, i) && [] + h == h;
  }

  lemma {:induction false} InTurnServed(server: Server, cfg: Config, batches: seq<seq<Row>>, n: nat)
    requires cfg.Valid() && AnswersProgress(server) && n <= |batches| && CrewInTurn(server, cfg, batches).Valid()
    ensures ServedBy(server, InTurn(server, cfg, batches, n))
    ensures forall k :: 0 <= k < |InTurn(server, cfg, batches, n)| ==> InTurn(server, cfg, batches, n)[k].worker < n
  {
    hide WorkerOutcome, InTurn, AnswersProgress, Labels, ServedBy, CrewInTurn;
    InTurnStep(server, cfg, batches, n);
    if n > 0 {
      InTurnServed(server, cfg, batches, n - 1);
      var before, h := InTurn(server, cfg, batches, n - 1),
          WorkerOutcome(cfg, CrewInTurn(server, cfg, batches), n - 1).hist;
      LabelsOf(before, h, n - 1);
      ServedInTurn(server, cfg, batches, n, before, h);
    }
  }

  lemma LabelsOf(before: Trace, h: History, i: nat)
    requires forall k :: 0 <= k < |before| ==> before[k].worker < i
    ensures forall k :: 0 <= k < |before + Labels(h, i)| ==> (before + Labels(h, i))[k].worker < i + 1
  {
  }

  lemma InTurnStep(server: Server, cfg: Config, batches: seq<seq<Row>>, n: nat)
    requires cfg.Valid() && AnswersProgress(server) && n <= |batches| && CrewInTurn(server, cfg, batches).Valid()
    ensures n == 0 ==> InTurn(server, cfg, batches, n) == [] && ServedBy(server, InTurn(server, cfg, batches, n))
    ensures n > 0 ==>
              var before := InTurn(server, cfg, batches, n - 1);
              var h := WorkerOutcome(cfg, CrewInTurn(server, cfg, batches), n - 1).hist;
              && InTurn(server, cfg, batches, n) == before + Labels(h, n - 1)
              && AnswersProgress(Shifted(server, Whole(before)))
              && h == Execute(Shifted(server, Whole(before)), cfg, batches[n - 1], false, []).out.hist
  {
    hide Execute, AnswersProgress;
    if n > 0 {
      ShiftedIsHonest(server, Whole(InTurn(server, cfg, batches, n - 1)));
    }
  }

  lemma NothingOwn(i: nat)
    ensures Own([], i) == []
  {
  }

  lemma ServedInTurn(server: Server, cfg: Config, batches: seq<seq<Row>>, n: nat, before: Trace, h: History)
    requires cfg.Valid() && AnswersProgress(server) && 0 < n <= |batches| && ServedBy(server, before)
    requires AnswersProgress(Shifted(server, Whole(before)))
    requires h == Execute(Shifted(server, Whole(before)), cfg, batches[n - 1], false, []).out.hist
    ensures ServedBy(server, before + Labels(h, n - 1))
  {
    hide Execute, AnswersProgress, FromBatch;
    var view, trace := Shifted(server, Whole(before)), before + Labels(h, n - 1);
    BatchGenuine(view, cfg, batches[n - 1], false, []);
    WholeLabels(before, h, n - 1);
    forall k | 0 <= k < |trace|
      ensures trace[k].exchange.reply == server(Whole(trace)[..k], trace[k].exchange.request)
    {
      if k < |before| {
        assert Whole(trace)[..k] == Whole(before)[..k];
      } else {
        var m := k - |before|;
        assert h[m].reply == view(h[..m], h[m].request);
        assert Whole(trace)[..k] == Whole(before) + h[..m];
      }
    }
  }

  /** So a crew that works in turn is a crew: the model of interleavings contains the sequential run. */
  lemma InTurnEnds(server: Server, cfg: Config, batches: seq<seq<Row>>)
    requires cfg.Valid() && AnswersProgress(server)
    ensures var trace, crew := InTurn(server, cfg, batches, |batches|), CrewInTurn(server, cfg, batches);
      crew.Valid() && ServedBy(server, trace) && Ended(cfg, crew, trace)
  {
    hide Own, WorkerOutcome, InTurn, AnswersProgress, CrewInTurn, ServedBy;
    CrewInTurnIsValid(server, cfg, batches);
    CrewOf(server, cfg, batches);
    InTurnServed(server, cfg, batches, |batches|);
    forall i | 0 <= i < |batches|
      ensures Own(InTurn(server, cfg, batches, |batches|), i)
              == WorkerOutcome(cfg, CrewInTurn(server, cfg, batches), i).hist
    {
      InTurnOwn(server, cfg, batches, |batches|, i);
    }
  }

  lemma CrewOf(server: Server, cfg: Config, batches: seq<seq<Row>>)
    requires cfg.Valid() && AnswersProgress(server)
    ensures CrewInTurn(server, cfg, batches).batches == batches
  {
  }
}
