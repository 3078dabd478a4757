/**
 Pass 1 as a whole: `_orchestrate_pass_1` and `_run_threaded_pass`. Batches are re-split to the size
 the throttle recommends, run by workers that complete in any order, and merged as they complete.
 */
module PassOne {
  import opened Basics
  import opened LoadProtocol
  import opened LoadFallback
  import opened LoadWorker
  import opened FallbackFacts
  import opened WorkerFacts
  import opened Accounting
  import opened Batching
  import opened BatchingFacts

  const ABORT_AFTER := 50

  /** The connection a worker uses: its own adversary, since any interleaving gives some sequence of replies. */
  type Servers = nat -> Server

  ghost predicate AllProgress(servers: Servers) {
    forall i: nat :: AnswersProgress(servers(i))
  }

  ghost predicate AllWithoutHoles(servers: Servers) {
    forall i: nat :: AnswersWithoutHoles(servers(i))
  }

  ghost predicate AllConsistent(servers: Servers) {
    forall i: nat :: LeftOutStaysOut(servers(i))
  }

  // ----- Facts about rows spread over sub-batches -----

  lemma {:induction false} FewerParts<T>(parts: seq<seq<T>>, k: nat, x: T)
    requires k < |parts| && x in Flatten(parts[..k] + parts[k + 1..])
    ensures x in Flatten(parts)
  {
    TakeOne(parts, k);
    assert x in multiset(Flatten(parts[..k] + parts[k + 1..]));
    assert x in multiset(Flatten(parts));
  }

  // ----- One completed future merged into the running totals -----

  /** Every row is settled, forgotten, or in a future that is still pending. */
  ghost predicate Balanced(data: seq<Row>, o: Outcome, forgotten: seq<Row>, pending: seq<seq<Row>>) {
    Handled(o) + multiset(forgotten) + multiset(Flatten(pending)) == multiset(data)
  }

  ghost predicate KeysJustified(cfg: Config, acks: seq<Ack>, idMap: map<string, int>) {
    forall key :: key in idMap ==> CreditedBy(cfg, acks, key, idMap[key])
  }

  lemma MergeBalanced(data: seq<Row>, sum: Outcome, forgotten: seq<Row>, pending: seq<seq<Row>>, k: nat, o: Outcome,
                      lost: seq<Row>)
    requires Balanced(data, sum, forgotten, pending) && k < |pending|
    requires Handled(o) + multiset(lost) == multiset(pending[k])
    ensures Balanced(data, sum.Then(o), forgotten + lost, pending[..k] + pending[k + 1..])
  {
    hide Handled;
    TakeOne(pending, k);
    ThenHandles(sum, o);
    assert multiset(forgotten + lost) == multiset(forgotten) + multiset(lost);
    FiveBags(Handled(sum), Handled(o), multiset(forgotten), multiset(lost),
        multiset(Flatten(pending[..k] + pending[k + 1..])));
  }

  lemma FiveBags<T>(f: multiset<T>, f': multiset<T>, a: multiset<T>, a': multiset<T>, rest: multiset<T>)
    ensures f + f' + (a + a') + rest == f + a + (rest + (f' + a'))
  {
  }

  lemma MergeKeys(cfg: Config, acks: seq<Ack>, idMap: map<string, int>, acks': seq<Ack>, idMap': map<string, int>)
    requires KeysJustified(cfg, acks, idMap) && KeysJustified(cfg, acks', idMap')
    ensures KeysJustified(cfg, acks + acks', idMap + idMap')
  {
    hide CreditedBy;
    forall key | key in idMap + idMap'
      ensures CreditedBy(cfg, acks + acks', key, (idMap + idMap')[key])
    {
      if key in idMap' {
        CreditStays(cfg, acks', acks, key, idMap'[key]);
      } else {
        CreditStays(cfg, acks, acks', key, idMap[key]);
      }
    }
  }

  // ----- When a pass is aborted -----

  /** A completed future: the rows it was given and what its worker made of them. */
  datatype Future = Future(rows: seq<Row>, out: Outcome)

  predicate LoadedNothing(f: Future) {
    f.out.idMap == map[]
  }

  predicate AllLoadedNothing(done: seq<Future>) {
    forall j :: 0 <= j < |done| ==> LoadedNothing(done[j])
  }

  /** Somewhere n futures completed one after the other and none of them loaded a row. */
  predicate Streak(done: seq<Future>, n: nat) {
    exists i: nat :: i + n <= |done| && NothingFrom(done, i, n)
  }

  predicate NothingFrom(done: seq<Future>, i: nat, n: nat)
    requires i + n <= |done|
  {
    forall j :: i <= j < i + n ==> LoadedNothing(done[j])
  }

  /** The last n futures loaded nothing, the one before them did. */
  predicate EndsWith(done: seq<Future>, n: nat) {
    && n <= |done| && NothingFrom(done, |done| - n, n)
    && (n < |done| ==> !LoadedNothing(done[|done| - n - 1]))
  }

  lemma StreakGrows(done: seq<Future>, f: Future, n: nat, count: nat)
    requires n >= 1 && !Streak(done, n) && EndsWith(done, count) && count < n
    ensures EndsWith(done + [f], if LoadedNothing(f) then count + 1 else 0)
    ensures Streak(done + [f], n) <==> LoadedNothing(f) && count + 1 == n
  {
    var all := done + [f];
    if count < |done| {
      assert all[|done| - count - 1] == done[|done| - count - 1];
    }
    if LoadedNothing(f) && count + 1 == n {
      assert NothingFrom(all, |all| - n, n);
    }
    if Streak(all, n) {
      var i: nat :| i + n <= |all| && NothingFrom(all, i, n);
      if i + n <= |done| {
        assert NothingFrom(done, i, n) by {
          forall j | i <= j < i + n ensures LoadedNothing(done[j]) {
            assert all[j] == done[j];
          }
        }
        assert false;
      }
      assert all[|done|] == f;
    }
  }

  /** The counters of the loop that merges completed futures. */
  predicate Counted(done: seq<Future>, forceCreate: bool, successes: nat, consecutive: nat, aborted: bool) {
    && (successes == 0 <==> done == [] || (forceCreate && AllLoadedNothing(done)))
    && (aborted <==> forceCreate && Streak(done, 50))
    && (!forceCreate ==> consecutive == 0)
    && (forceCreate && !aborted ==> EndsWith(done, consecutive) && consecutive < 50)
    && (forceCreate && done != [] ==> !Streak(done[..|done| - 1], 50))
  }

  lemma CountOne(done: seq<Future>, f: Future, forceCreate: bool, successes: nat, consecutive: nat)
    requires Counted(done, forceCreate, successes, consecutive, false)
    ensures !forceCreate || !LoadedNothing(f) ==> Counted(done + [f], forceCreate, successes + 1, 0, false)
    ensures forceCreate && LoadedNothing(f) ==>
              Counted(done + [f], forceCreate, successes, consecutive + 1, consecutive + 1 >= 50)
  {
    hide Streak, EndsWith;
    var all := done + [f];
    assert all[..|done|] == done && all[|done|] == f;
    assert forall j :: 0 <= j < |done| ==> all[j] == done[j];
    if forceCreate {
      StreakGrows(done, f, 50, consecutive);
    }
  }

  lemma NothingCounted(forceCreate: bool)
    ensures Counted([], forceCreate, 0, 0, false)
  {
  }

  /** What the summaries of the completed futures add up to. */
  function Totals(done: seq<Future>): Outcome {
    if done == [] then Outcome([], map[], [], []) else Totals(done[..|done| - 1]).Then(done[|done| - 1].out)
  }

  function RowsOf(done: seq<Future>): seq<Row> {
    if done == [] then [] else RowsOf(done[..|done| - 1]) + done[|done| - 1].rows
  }

  function Ran(server: Server, cfg: Config, rows: seq<Row>, forceCreate: bool): Future
    requires cfg.Valid() && AnswersProgress(server)
  {
    Future(rows, Execute(server, cfg, rows, forceCreate, []).out)
  }

  ghost predicate Executed(servers: Servers, cfg: Config, done: seq<Future>, forceCreate: bool)
    requires cfg.Valid() && AllProgress(servers)
  {
    forall i: nat :: i < |done| ==> ExecutedBy(servers(i), cfg, done[i], forceCreate)
  }

  ghost predicate ExecutedBy(server: Server, cfg: Config, f: Future, forceCreate: bool)
    requires cfg.Valid()
  {
    AnswersProgress(server) && f == Ran(server, cfg, f.rows, forceCreate)
  }

  lemma OneMoreDone(servers: Servers, cfg: Config, done: seq<Future>, f: Future, forceCreate: bool)
    requires cfg.Valid() && AllProgress(servers) && Executed(servers, cfg, done, forceCreate)
    requires ExecutedBy(servers(|done|), cfg, f, forceCreate)
    ensures Executed(servers, cfg, done + [f], forceCreate)
    ensures Totals(done + [f]) == Totals(done).Then(f.out)
    ensures RowsOf(done + [f]) == RowsOf(done) + f.rows
  {
    hide Executed, ExecutedBy, AllProgress;
    MoreExecuted(servers, cfg, done, f, forceCreate);
    MoreTotals(done, f);
  }

  lemma MoreExecuted(servers: Servers, cfg: Config, done: seq<Future>, f: Future, forceCreate: bool)
    requires cfg.Valid() && AllProgress(servers) && Executed(servers, cfg, done, forceCreate)
    requires ExecutedBy(servers(|done|), cfg, f, forceCreate)
    ensures Executed(servers, cfg, done + [f], forceCreate)
  {
    hide ExecutedBy, AllProgress;
    var all := done + [f];
    forall i: nat | i < |all| ensures ExecutedBy(servers(i), cfg, all[i], forceCreate) {
      if i < |done| {
        assert all[i] == done[i];
      } else {
        assert all[i] == f;
      }
    }
  }

  lemma MoreTotals(done: seq<Future>, f: Future)
    ensures Totals(done + [f]) == Totals(done).Then(f.out)
    ensures RowsOf(done + [f]) == RowsOf(done) + f.rows
  {
    assert (done + [f])[..|done|] == done;
  }

  // ----- The pass -----

  /** A batch goes out whole if it has at most `size` rows, else in parts of that size, the last possibly shorter. */
  ghost predicate SubBatches<T>(data: seq<T>, size: nat, parts: seq<seq<T>>) {
    && Flatten(parts) == data
    && (|data| <= size ==> parts == [data])
    && (|data| > size ==>
          && (forall k :: 0 <= k < |parts| ==> 0 < |parts[k]| <= size)
          && (forall k :: 0 <= k < |parts| - 1 ==> |parts[k]| == size))
  }

  method Resplit<T>(data: seq<T>, size: nat) returns (parts: seq<seq<T>>)
    requires size >= 1
    ensures SubBatches(data, size, parts) && Flatten(parts) == data
  {
    parts := [data];
    FlattenOne(data);
    if size < |data| {
      parts := Chunks(data, size);
    }
  }

  /** Submission: batches longer than the recommended size are cut into sub-batches. */
  method Submit<T>(batches: seq<seq<T>>, sizes: nat -> nat)
    returns (futures: seq<seq<T>>, ghost pieces: seq<seq<seq<T>>>)
    requires forall i: nat :: sizes(i) >= 1
    ensures futures == Flatten(pieces)
    ensures |pieces| == |batches|
    ensures forall i: nat :: i < |batches| ==> SubBatches(batches[i], sizes(i), pieces[i])
    ensures Flatten(futures) == Flatten(batches)
    ensures batches == [] ==> futures == []
  {
    hide SubBatches;
    futures, pieces := [], [];
    for i := 0 to |batches|
      invariant futures == Flatten(pieces) && |pieces| == i
      invariant forall k: nat :: k < i ==> SubBatches(batches[k], sizes(k), pieces[k])
      invariant Flatten(futures) == Flatten(batches[..i])
    {
      var data := batches[i];
      var subBatches := Resplit(data, sizes(i));
      FlattenAppend(futures, subBatches);
      FlattenAppend(batches[..i], [data]);
      FlattenOne(data);
      assert batches[..i + 1] == batches[..i] + [data];
      FlattenAppend(pieces, [subBatches]);
      FlattenOne(subBatches);
      futures, pieces := futures + subBatches, pieces + [subBatches];
    }
    assert batches[..|batches|] == batches;
  }

  /** What the merge of completed futures keeps; `dropped` and `forgotten` are what no summary reports. */
  ghost predicate Merged(servers: Servers, cfg: Config, data: seq<Row>, sum: Outcome, dropped: seq<Ack>,
                         forgotten: seq<Row>,
                         pending: seq<seq<Row>>)
  {
    && (NoneTooShort(cfg, data) ==> Balanced(data, sum, forgotten, pending))
    && KeysJustified(cfg, sum.acks, sum.idMap)
    && (FallbackPathsAgree(cfg) && AllKeyed(cfg, data) ==> Credited(cfg, sum, dropped))
    && (AllWithoutHoles(servers) ==> forgotten == [])
    && (AllConsistent(servers) && FallbackPathsAgree(cfg) ==> dropped == [])
    && forall row :: row in Flatten(pending) ==> row in data
  }

  /** What a pass has done so far. */
  ghost predicate PassInv(servers: Servers, cfg: Config, data: seq<Row>, done: seq<Future>, dropped: seq<Ack>,
                          forgotten: seq<Row>, pending: seq<seq<Row>>, forceCreate: bool)
    requires cfg.Valid() && AllProgress(servers)
  {
    && Merged(servers, cfg, data, Totals(done), dropped, forgotten, pending)
    && Executed(servers, cfg, done, forceCreate)
    && multiset(RowsOf(done)) + multiset(Flatten(pending)) == multiset(data)
  }

  /** Fifty futures in a row loaded nothing, which stops the pass at once. */
  predicate Stopped(done: seq<Future>, forceCreate: bool) {
    forceCreate && Streak(done, 50)
  }

  /**
   Each row is failed, acknowledged or forgotten exactly once; for distinct non-blank ids created + failed
   falls short of the total by exactly the dropped loads and the forgotten rows.
   */
  ghost predicate Accounted(cfg: Config, data: seq<Row>, idMap: map<string, int>, failed: seq<Row>, acks: seq<Ack>,
                            dropped: seq<Ack>, forgotten: seq<Row>)
  {
    NoneTooShort(cfg, data) ==>
      && multiset(failed) + AckedRows(acks) + multiset(forgotten) == multiset(data)
      && |idMap| + |failed| <= |data|
      && (FallbackPathsAgree(cfg) && AllKeyed(cfg, data) && DistinctKeys(cfg, data) ==>
            && |idMap| + |failed| + |dropped| + |forgotten| == |data|
            && (|idMap| + |failed| == |data| <==> dropped == [] && forgotten == []))
  }

  /**
   A threaded pass over batches. It is aborted only in force-create mode: when 50 completed futures in a
   row loaded nothing, which stops it, or when none loaded anything. A pass that was not stopped has run
   every row and accounts for it. The servers decide what is lost: without holes no row is forgotten, and
   when rows left out of an answer fail alone no load is dropped.
   */
  method RunThreadedPass(servers: Servers, cfg: Config, batches: seq<seq<Row>>, sizes: nat -> nat, forceCreate: bool)
    returns (idMap: map<string, int>, failed: seq<Row>, ghost acks: seq<Ack>, ghost dropped: seq<Ack>,
             ghost forgotten: seq<Row>, ghost done: seq<Future>, aborted: bool)
    requires cfg.Valid() && AllProgress(servers) && forall i: nat :: sizes(i) >= 1
    ensures aborted <==> Stopped(done, forceCreate) || (forceCreate && done != [] && AllLoadedNothing(done))
    ensures Executed(servers, cfg, done, forceCreate)
    ensures idMap == Totals(done).idMap && failed == Totals(done).failed && acks == Totals(done).acks
    ensures done != [] ==> !Stopped(done[..|done| - 1], forceCreate)
    ensures !Stopped(done, forceCreate) ==>
              && multiset(RowsOf(done)) == multiset(Flatten(batches))
              && Accounted(cfg, Flatten(batches), idMap, failed, acks, dropped, forgotten)
    ensures AllWithoutHoles(servers) ==> forgotten == []
    ensures AllConsistent(servers) && FallbackPathsAgree(cfg) ==> dropped == []
    ensures batches == [] ==> idMap == map[] && failed == [] && !aborted
  {
    hide PassInv, Counted, AllProgress, Totals, AllConsistent, AllWithoutHoles, FallbackPathsAgree, Accounted,
         Streak, Stopped, Executed, RowsOf, AllLoadedNothing, AnswersProgress, Flatten, Ran, LoadedNothing,
         DroppedLoads, ForgottenRows, Outcome.Then;
    var pending, _ := Submit(batches, sizes);
    ghost var data := Flatten(batches);
    idMap, failed, acks, aborted := map[], [], [], false;
    dropped, forgotten, done := [], [], [];
    Started(servers, cfg, data, pending, forceCreate);
    var spawned := |pending|;
    var completed: nat, successes: nat, consecutiveFailures: nat := 0, 0, 0;
    while pending != [] && !aborted
      invariant var sum := Totals(done); sum.idMap == idMap && sum.failed == failed && sum.acks == acks
      invariant |done| == completed && spawned == |pending| + completed
      invariant PassInv(servers, cfg, data, done, dropped, forgotten, pending, forceCreate)
      invariant Counted(done, forceCreate, successes, consecutiveFailures, aborted)
      decreases |pending|
    {
      var k :| 0 <= k < |pending|;
      Merge(servers, cfg, data, done, dropped, forgotten, pending, k, forceCreate);
      var m, f, a, success, future, d, l := RunFuture(servers(completed), cfg, pending[k], forceCreate);
      dropped, forgotten := dropped + d, forgotten + l;
      idMap, failed, acks := idMap + m, failed + f, acks + a;
      CountOne(done, future, forceCreate, successes, consecutiveFailures);
      if success {
        successes, consecutiveFailures := successes + 1, 0;
      } else {
        consecutiveFailures := consecutiveFailures + 1;
        if consecutiveFailures >= ABORT_AFTER {
          aborted := true;
        }
      }
      done := done + [future];
      pending := pending[..k] + pending[k + 1..];
      completed := completed + 1;
    }
    Finished(servers, cfg, data, done, dropped, forgotten, pending, forceCreate);
    CountedAll(done, forceCreate, successes, consecutiveFailures, aborted);
    if spawned > 0 && successes == 0 {
      aborted := true;
    }
  }

  /** The worker's run of one future. */
  method RunFuture(server: Server, cfg: Config, rows: seq<Row>, forceCreate: bool)
    returns (idMap: map<string, int>, failed: seq<Row>, ghost acks: seq<Ack>, success: bool,
             ghost f: Future, ghost dropped: seq<Ack>, ghost forgotten: seq<Row>)
    requires cfg.Valid() && AnswersProgress(server)
    ensures f == Ran(server, cfg, rows, forceCreate)
    ensures f.out.idMap == idMap && f.out.failed == failed && f.out.acks == acks
    ensures success <==> !forceCreate || !LoadedNothing(f)
    ensures dropped == DroppedLoads(server, cfg, rows, forceCreate, [])
    ensures forgotten == ForgottenRows(server, cfg, rows, forceCreate, [])
  {
    hide Execute, DroppedLoads, ForgottenRows, AnswersProgress;
    var m, fs, a, _, _, ok, _ := ExecuteLoadBatch(server, cfg, rows, forceCreate, []);
    idMap, failed, acks, success := m, fs, a, ok;
    f := Ran(server, cfg, rows, forceCreate);
    dropped := DroppedLoads(server, cfg, rows, forceCreate, []);
    forgotten := ForgottenRows(server, cfg, rows, forceCreate, []);
  }

  lemma CountedAll(done: seq<Future>, forceCreate: bool, successes: nat, consecutive: nat, aborted: bool)
    requires Counted(done, forceCreate, successes, consecutive, aborted)
    ensures aborted <==> Stopped(done, forceCreate)
    ensures done != [] && successes == 0 <==> forceCreate && done != [] && AllLoadedNothing(done)
    ensures done != [] ==> !Stopped(done[..|done| - 1], forceCreate)
    ensures done == [] ==> !Stopped(done, forceCreate)
  {
    hide EndsWith;
  }

  lemma Started(servers: Servers, cfg: Config, data: seq<Row>, pending: seq<seq<Row>>, forceCreate: bool)
    requires cfg.Valid() && AllProgress(servers) && Flatten(pending) == data
    ensures Totals([]) == Outcome([], map[], [], [])
    ensures PassInv(servers, cfg, data, [], [], [], pending, forceCreate) && Counted([], forceCreate, 0, 0, false)
  {
    NothingCounted(forceCreate);
    AllFailed([], []);
    NothingCredited(cfg, [], []);
  }

  lemma Finished(servers: Servers, cfg: Config, data: seq<Row>, done: seq<Future>, dropped: seq<Ack>,
                 forgotten: seq<Row>, pending: seq<seq<Row>>, forceCreate: bool)
    requires cfg.Valid() && AllProgress(servers)
    requires PassInv(servers, cfg, data, done, dropped, forgotten, pending, forceCreate)
    ensures Executed(servers, cfg, done, forceCreate)
    ensures done == [] ==> Totals(done) == Outcome([], map[], [], [])
    ensures pending == [] ==> multiset(RowsOf(done)) == multiset(data)
    ensures var sum := Totals(done);
      pending == [] ==> Accounted(cfg, data, sum.idMap, sum.failed, sum.acks, dropped, forgotten)
    ensures AllWithoutHoles(servers) ==> forgotten == []
    ensures AllConsistent(servers) && FallbackPathsAgree(cfg) ==> dropped == []
  {
    hide AckedRows, AllKeyed, DistinctKeys, Credited, CreditedBy, NoneTooShort, FallbackPathsAgree, AllConsistent,
         AllWithoutHoles, AllProgress, Executed;
    if pending == [] && NoneTooShort(cfg, data) {
      Reconciles(cfg, data, Totals(done), dropped, forgotten);
    }
  }

  lemma Merge(servers: Servers, cfg: Config, data: seq<Row>, done: seq<Future>, dropped: seq<Ack>,
              forgotten: seq<Row>, pending: seq<seq<Row>>, k: nat, forceCreate: bool)
    requires cfg.Valid() && AllProgress(servers) && k < |pending|
    requires PassInv(servers, cfg, data, done, dropped, forgotten, pending, forceCreate)
    ensures AnswersProgress(servers(|done|))
    ensures var server := servers(|done|);
      var f := Ran(server, cfg, pending[k], forceCreate);
      && Totals(done + [f]).idMap == Totals(done).idMap + f.out.idMap
      && Totals(done + [f]).failed == Totals(done).failed + f.out.failed
      && Totals(done + [f]).acks == Totals(done).acks + f.out.acks
      && PassInv(servers, cfg, data, done + [f], dropped + DroppedLoads(server, cfg, pending[k], forceCreate, []),
                 forgotten + ForgottenRows(server, cfg, pending[k], forceCreate, []),
                 pending[..k] + pending[k + 1..], forceCreate)
  {
    hide Execute, DroppedLoads, ForgottenRows, Merged, Executed, Totals, RowsOf, AnswersProgress;
    assert AnswersProgress(servers(|done|)) by {
      hide Executed;
    }
    var f := Ran(servers(|done|), cfg, pending[k], forceCreate);
    MergeOne(servers, cfg, data, Totals(done), dropped, forgotten, pending, k, |done|, forceCreate);
    OneMoreDone(servers, cfg, done, f, forceCreate);
    TakeOne(pending, k);
    MoveBag(multiset(RowsOf(done)), multiset(pending[k]), multiset(Flatten(pending[..k] + pending[k + 1..])));
  }

  lemma MoveBag<T>(a: multiset<T>, b: multiset<T>, c: multiset<T>)
    ensures a + (c + b) == a + b + c
  {
  }

  lemma MergeOne(servers: Servers, cfg: Config, data: seq<Row>, sum: Outcome, dropped: seq<Ack>, forgotten: seq<Row>,
                 pending: seq<seq<Row>>, k: nat, completed: nat, forceCreate: bool)
    requires cfg.Valid() && AllProgress(servers) && k < |pending|
    requires Merged(servers, cfg, data, sum, dropped, forgotten, pending)
    ensures AnswersProgress(servers(completed))
    ensures var server := servers(completed);
      Merged(servers, cfg, data, sum.Then(Execute(server, cfg, pending[k], forceCreate, []).out),
             dropped + DroppedLoads(server, cfg, pending[k], forceCreate, []),
             forgotten + ForgottenRows(server, cfg, pending[k], forceCreate, []), pending[..k] + pending[k + 1..])
  {
    hide Execute, DroppedLoads, ForgottenRows, Balanced, Credited, CreditedBy, Keyed, TooShort, FallbackPathsAgree,
         AnswersProgress, Handled;
    var server := servers(completed);
    assert AnswersProgress(server);
    var o := Execute(server, cfg, pending[k], forceCreate, []).out;
    var lost, unmapped := ForgottenRows(server, cfg, pending[k], forceCreate, []),
        DroppedLoads(server, cfg, pending[k], forceCreate, []);
    forall row | row in Flatten(pending[..k] + pending[k + 1..]) ensures row in data {
      FewerParts(pending, k, row);
    }
    forall i | 0 <= i < |pending[k]| ensures pending[k][i] in data {
      PartOfFlatten(pending, k, pending[k][i]);
    }
    BatchJustified(server, cfg, pending[k], forceCreate, []);
    MergeKeys(cfg, sum.acks, sum.idMap, o.acks, o.idMap);
    if NoneTooShort(cfg, data) {
      BatchKeeps(server, cfg, pending[k], forceCreate, []);
      MergeBalanced(data, sum, forgotten, pending, k, o, lost);
    }
    if FallbackPathsAgree(cfg) && AllKeyed(cfg, data) {
      BatchCredits(server, cfg, pending[k], forceCreate, []);
      ThenCredited(cfg, sum, dropped, o, unmapped);
    }
    if AllWithoutHoles(servers) {
      RemembersAll(server, cfg, pending[k], forceCreate);
    }
    if AllConsistent(servers) && FallbackPathsAgree(cfg) {
      DropsNone(server, cfg, pending[k], forceCreate, []);
    }
  }

  lemma RemembersAll(server: Server, cfg: Config, batch: seq<Row>, forceCreate: bool)
    requires cfg.Valid() && AnswersProgress(server) && AnswersWithoutHoles(server)
    ensures ForgottenRows(server, cfg, batch, forceCreate, []) == []
  {
    NothingForgotten(server, cfg, batch, |batch|, 0, []);
  }

  // ----- Batching first -----

  lemma SameRowsSameFacts(cfg: Config, a: seq<Row>, b: seq<Row>)
    requires multiset(a) == multiset(b)
    ensures |a| == |b|
    ensures NoneTooShort(cfg, a) ==> NoneTooShort(cfg, b)
    ensures AllKeyed(cfg, a) ==> AllKeyed(cfg, b)
    ensures AllKeyed(cfg, a) && DistinctKeys(cfg, a) ==> DistinctKeys(cfg, b)
  {
    hide TooShort, Keyed;
    assert |a| == |multiset(a)| && |b| == |multiset(b)|;
    forall i | 0 <= i < |b| ensures b[i] in a {
      assert b[i] in b && b[i] in multiset(b) && b[i] in multiset(a);
    }
    if AllKeyed(cfg, a) && DistinctKeys(cfg, a) {
      WidthsKnown(cfg, a);
      WidthsKnown(cfg, b);
      forall i, j | 0 <= i < j < |b| ensures Key(cfg, b[i]) != Key(cfg, b[j]) {
        if Key(cfg, b[i]) == Key(cfg, b[j]) {
          SameKeySameRow(cfg, a, b[i], b[j]);
          CountsTwice(b, i, j);
          OnceEach(cfg, a, b[i]);
          assert false;
        }
      }
    }
  }

  lemma WidthsKnown(cfg: Config, rows: seq<Row>)
    requires AllKeyed(cfg, rows)
    ensures forall i :: 0 <= i < |rows| ==> cfg.uid < |rows[i].cells|
  {
  }

  /**
   Pass 1 on the source rows, over grouping, re-splitting and any completion order. In standard mode it is
   never aborted and always accounts for its rows: created + failed is never above the total, and for
   distinct non-blank ids and known group columns it falls short of it by exactly the dropped loads and
   the forgotten rows, of which there are none against servers without holes whose left-out rows fail
   alone. With an unknown group column no row is loaded and none is reported.
   */
  method OrchestratePass1(servers: Servers, cfg: Config, opt: Options, data: seq<Row>, groups: seq<string>,
                          sizes: nat -> nat, forceCreate: bool)
    returns (idMap: map<string, int>, failed: seq<Row>, ghost acks: seq<Ack>, ghost dropped: seq<Ack>,
             ghost forgotten: seq<Row>, ghost done: seq<Future>, aborted: bool)
    requires cfg.Valid() && opt.Valid() && opt.header == cfg.header && Full(opt, data)
    requires AllProgress(servers) && forall i: nat :: sizes(i) >= 1
    ensures aborted <==> Stopped(done, forceCreate) || (forceCreate && done != [] && AllLoadedNothing(done))
    ensures Executed(servers, cfg, done, forceCreate)
    ensures idMap == Totals(done).idMap && failed == Totals(done).failed && acks == Totals(done).acks
    ensures Known(opt, groups) && !Stopped(done, forceCreate) ==>
              multiset(RowsOf(done)) == multiset(data) && Accounted(cfg, data, idMap, failed, acks, dropped, forgotten)
    ensures AllWithoutHoles(servers) ==> forgotten == []
    ensures AllConsistent(servers) && FallbackPathsAgree(cfg) ==> dropped == []
    ensures !Known(opt, groups) ==> idMap == map[] && failed == [] && !aborted
  {
    hide AllWithoutHoles, AllConsistent, FallbackPathsAgree, Known, AckedRows, NoneTooShort, AllKeyed, DistinctKeys,
         Stopped, Streak, Executed, Totals, AllLoadedNothing;
    var batches := RecursiveCreateBatches(opt, data, groups);
    if Known(opt, groups) {
      GroupedBatching(opt, data, groups, []);
      SameRowsSameFacts(cfg, data, Flatten(batches));
    } else {
      ghost var k := UnknownGroup(opt, groups);
      MissingColumnDropsAll(opt, data, groups, k);
    }
    idMap, failed, acks, dropped, forgotten, done, aborted :=
      RunThreadedPass(servers, cfg, batches, sizes, forceCreate);
  }

  lemma UnknownGroup(opt: Options, groups: seq<string>) returns (k: nat)
    requires !Known(opt, groups)
    ensures k < |groups| && groups[k] !in opt.header
  {
    k :| 0 <= k < |groups| && groups[k] !in opt.header;
  }
}
