/**
 Resumable export sessions: the file of all ids, the log of completed ids, and the output they must agree
 with over any number of runs that come to an orderly end. A new session finds the log that an earlier
 session of the same name left behind.
 */
module ExportSession {
  import opened Basics
  import opened Export

  /** The session directory and the output file, by record id. */
  datatype Session = Session(allIds: seq<int>, completedLog: seq<int>, output: seq<int>)

  /** What one run exports and what it reports as failed. */
  datatype Run = Run(done: seq<int>, failed: seq<int>)

  /** The ids that are not in a log. */
  function Unlogged(ids: seq<int>, log: seq<int>): seq<int> {
    if ids == [] then []
    else
      var init, last := Unlogged(ids[..|ids| - 1], log), ids[|ids| - 1];
      if last in log then init else init + [last]
  }

  /** The ids of a log among `ids`. */
  function Logged(ids: seq<int>, log: seq<int>): seq<int> {
    if ids == [] then []
    else
      var init, last := Logged(ids[..|ids| - 1], log), ids[|ids| - 1];
      if last in log then init + [last] else init
  }

  /** A new session asks for all ids, whatever the log holds; a resumed one for those not logged. */
  function Asked(s: Session, resuming: bool): seq<int> {
    if resuming then Unlogged(s.allIds, s.completedLog) else s.allIds
  }

  function After(s: Session, run: Run): Session {
    Session(s.allIds, s.completedLog + run.done, s.output + run.done)
  }

  /** A run splits what it asks for. */
  ghost predicate SplitsAsked(s: Session, resuming: bool, run: Run) {
    multiset(run.done) + multiset(run.failed) == multiset(Asked(s, resuming))
  }

  /** The session after a first run and its resumptions, starting from a log left behind. */
  function SessionAfter(ids: seq<int>, kept: seq<int>, runs: seq<Run>): Session {
    if runs == [] then Session(ids, kept, []) else After(SessionAfter(ids, kept, runs[..|runs| - 1]), runs[|runs| - 1])
  }

  /** Runs that can follow one another: only a failed session is resumed. */
  ghost predicate Possible(ids: seq<int>, kept: seq<int>, runs: seq<Run>) {
    runs == [] ||
    var init, last := runs[..|runs| - 1], runs[|runs| - 1];
    && Possible(ids, kept, init) && SplitsAsked(SessionAfter(ids, kept, init), init != [], last)
    && (init != [] ==> init[|init| - 1].failed != [])
  }

  // ----- Sequences without duplicates as bags -----

  lemma {:induction false} CountOfDistinct(s: seq<int>, x: int)
    requires NoDuplicates(s)
    ensures multiset(s)[x] == if x in s then 1 else 0
  {
    if s != [] {
      var init, last := s[..|s| - 1], s[|s| - 1];
      assert s == init + [last];
      CountOfDistinct(init, x);
      assert last !in init;
    }
  }

  lemma BagWithoutRepeats(s: seq<int>)
    requires forall x :: multiset(s)[x] <= 1
    ensures NoDuplicates(s)
  {
    forall i, j | 0 <= i < j < |s| ensures s[i] != s[j] {
      if s[i] == s[j] {
        CountsTwice(s, i, j);
      }
    }
  }

  // ----- One run -----

  lemma SomeMember(s: set<int>)
    requires s != {}
    ensures exists x: int :: x in s
  {
    if forall x: int :: x !in s {
      assert false;
    }
  }

  /** `list(all_ids - completed_ids)`: the remaining ids in whatever order the set gives them. */
  method ListRemaining(all: seq<int>, completed: seq<int>) returns (ids: seq<int>)
    ensures NoDuplicates(ids) && forall x :: x in ids <==> x in all && x !in completed
  {
    var rest := set x | x in all && x !in completed;
    ids := [];
    while rest != {}
      invariant NoDuplicates(ids)
      invariant forall x :: x in ids || x in rest <==> x in all && x !in completed
      invariant forall x :: x in ids ==> x !in rest
      decreases rest
    {
      SomeMember(rest);
      var x :| x in rest;
      ids, rest := ids + [x], rest - {x};
    }
  }

  lemma MergeBags<T>(d: multiset<T>, d': multiset<T>, f: multiset<T>, f': multiset<T>, rest: multiset<T>)
    ensures d + d' + (f + f') + rest == d + f + (rest + (d' + f'))
  {
  }

  /** The ids of a run are exported, failed, or still pending. */
  ghost predicate Balanced(all: multiset<int>, done: seq<int>, failed: seq<int>, pending: seq<seq<int>>) {
    && multiset(done) + multiset(failed) + multiset(Flatten(pending)) == all
    && forall i :: 0 <= i < |pending| ==> pending[i] != []
  }

  lemma MergeBatch(all: multiset<int>, done: seq<int>, failed: seq<int>, pending: seq<seq<int>>, k: nat, reader: Reader,
                   readMode: bool)
    requires Balanced(all, done, failed, pending) && k < |pending| && Exact(reader)
    ensures var out := Batch(reader, readMode, pending[k], 0);
      && out.results == out.completed
      && Balanced(all, done + out.completed, failed + out.failed, pending[..k] + pending[k + 1..])
  {
    hide Batch, Flatten;
    var out := Batch(reader, readMode, pending[k], 0);
    BatchPartitions(reader, readMode, pending[k], 0);
    TakeOne(pending, k);
    MergeBags(multiset(done), multiset(out.completed), multiset(failed), multiset(out.failed),
              multiset(Flatten(pending[..k] + pending[k + 1..])));
  }

  ghost predicate AllExact(readers: nat -> Reader) {
    forall i: nat :: Exact(readers(i))
  }

  /** The threads of a run; batches complete in any order, each merged as it completes. */
  method ProcessBatches(readers: nat -> Reader, readMode: bool, batches: seq<seq<int>>)
    returns (done: seq<int>, log: seq<int>, failed: seq<int>, hasFailures: bool)
    requires AllExact(readers) && forall i :: 0 <= i < |batches| ==> batches[i] != []
    ensures log == done && multiset(done) + multiset(failed) == multiset(Flatten(batches))
    ensures hasFailures <==> failed != []
  {
    hide Batch, Balanced, Exact;
    var thread := new ExportThread(readMode);
    ghost var all := multiset(Flatten(batches));
    var pending, n: nat := batches, 0;
    done, log := [], [];
    AllPending(batches);
    while pending != []
      invariant fresh(thread) && thread.readMode == readMode
      invariant log == done && (thread.hasFailures <==> thread.failedIds != [])
      invariant Balanced(all, done, thread.failedIds, pending)
      decreases |pending|
    {
      var k :| 0 <= k < |pending|;
      var batch := pending[k];
      assert Exact(readers(n));
      MergeBatch(all, done, thread.failedIds, pending, k, readers(n), readMode);
      NotEmpty(all, done, thread.failedIds, pending, k);
      var results, completed, calls := thread.ExecuteBatch(readers(n), batch, 0);
      if results != [] {
        log, done := log + completed, done + results;
      } else {
        assert done + [] == done;
      }
      pending, n := pending[..k] + pending[k + 1..], n + 1;
    }
    failed, hasFailures := thread.failedIds, thread.hasFailures;
    NonePending(all, done, failed);
  }

  lemma AllPending(batches: seq<seq<int>>)
    requires forall i :: 0 <= i < |batches| ==> batches[i] != []
    ensures Balanced(multiset(Flatten(batches)), [], [], batches)
  {
  }

  lemma NotEmpty(all: multiset<int>, done: seq<int>, failed: seq<int>, pending: seq<seq<int>>, k: nat)
    requires Balanced(all, done, failed, pending) && k < |pending|
    ensures pending[k] != []
  {
  }

  lemma NonePending(all: multiset<int>, done: seq<int>, failed: seq<int>)
    requires Balanced(all, done, failed, [])
    ensures multiset(done) + multiset(failed) == all
  {
  }

  /** One run on a session, new or resumed: what it asks for is exported and logged, or failed. */
  method RunExport(s: Session, resuming: bool, readers: nat -> Reader, readMode: bool, batchSize: nat)
    returns (s': Session, run: Run, success: bool, ghost batches: seq<seq<int>>)
    requires NoDuplicates(s.allIds) && AllExact(readers) && batchSize >= 1
    ensures multiset(Flatten(batches)) == multiset(Asked(s, resuming))
    ensures forall i :: 0 <= i < |batches| ==> 0 < |batches[i]| <= batchSize
    ensures forall i :: 0 <= i < |batches| - 1 ==> |batches[i]| == batchSize
    ensures SplitsAsked(s, resuming, run) && s' == After(s, run)
    ensures success <==> run.failed == []
  {
    hide AllExact, Chunks;
    var asked := s.allIds;
    if resuming {
      asked := ListRemaining(s.allIds, s.completedLog);
      UnloggedBag(s.allIds, s.completedLog, asked);
    }
    var pending := Chunks(asked, batchSize);
    batches := pending;
    var done, log, failures, hasFailures := ProcessBatches(readers, readMode, pending);
    run, success := Run(done, failures), !hasFailures;
    s' := Session(s.allIds, s.completedLog + log, s.output + done);
  }

  /** A session started anew on a log left behind, and any number of resumed runs; `readers(r)` serve run r. */
  method ExportWithResumes(ids: seq<int>, kept: seq<int>, readers: nat -> nat -> Reader, readMode: bool, batchSize: nat,
                           attempts: nat)
    returns (s: Session, runs: seq<Run>, success: bool)
    requires NoDuplicates(ids) && batchSize >= 1 && attempts >= 1 && forall r: nat :: AllExact(readers(r))
    ensures runs != [] && Possible(ids, kept, runs) && s == SessionAfter(ids, kept, runs)
    ensures success <==> runs[|runs| - 1].failed == []
  {
    hide AllExact, Asked;
    var run;
    ghost var parts;
    s := Session(ids, kept, []);
    s, run, success, parts := RunExport(s, false, readers(0), readMode, batchSize);
    runs := [run];
    FirstRun(ids, kept, run);
    while |runs| < attempts && !success
      invariant runs != [] && Possible(ids, kept, runs) && s == SessionAfter(ids, kept, runs)
      invariant success <==> runs[|runs| - 1].failed == []
      decreases attempts - |runs|
    {
      LogIsOutput(ids, kept, runs);
      s, run, success, parts := RunExport(s, true, readers(|runs|), readMode, batchSize);
      assert (runs + [run])[..|runs|] == runs;
      runs := runs + [run];
    }
  }

  lemma FirstRun(ids: seq<int>, kept: seq<int>, run: Run)
    requires SplitsAsked(Session(ids, kept, []), false, run)
    ensures Possible(ids, kept, [run]) && SessionAfter(ids, kept, [run]) == After(Session(ids, kept, []), run)
  {
    assert [run][..0] == [] && [run][0] == run;
    assert Possible(ids, kept, []) && SessionAfter(ids, kept, []) == Session(ids, kept, []);
  }

  // ----- What a sequence of runs promises -----

  lemma {:induction false} UnloggedMember(ids: seq<int>, log: seq<int>, x: int)
    ensures multiset(Unlogged(ids, log))[x] == if x in log then 0 else multiset(ids)[x]
    ensures multiset(Logged(ids, log))[x] == if x in log then multiset(ids)[x] else 0
  {
    if ids != [] {
      var init, last := ids[..|ids| - 1], ids[|ids| - 1];
      assert ids == init + [last];
      UnloggedMember(init, log, x);
    }
  }

  lemma UnloggedBag(ids: seq<int>, log: seq<int>, listed: seq<int>)
    requires NoDuplicates(ids) && NoDuplicates(listed) && forall x :: x in listed <==> x in ids && x !in log
    ensures multiset(listed) == multiset(Unlogged(ids, log))
  {
    forall x ensures multiset(listed)[x] == multiset(Unlogged(ids, log))[x] {
      UnloggedMember(ids, log, x);
      CountOfDistinct(listed, x);
      CountOfDistinct(ids, x);
    }
  }

  /** The ids no later run asks for: those that failed in the first run and were in the log left behind. */
  function Skipped(kept: seq<int>, runs: seq<Run>): seq<int> {
    if |runs| <= 1 then [] else Logged(runs[0].failed, kept)
  }

  /** How often an id is written, failed in the last run, and skipped. */
  ghost function Fate(ids: seq<int>, kept: seq<int>, runs: seq<Run>, x: int): nat
    requires runs != []
  {
    multiset(SessionAfter(ids, kept, runs).output)[x] + multiset(runs[|runs| - 1].failed)[x]
        + multiset(Skipped(kept, runs))[x]
  }

  lemma LogIsOutput(ids: seq<int>, kept: seq<int>, runs: seq<Run>)
    ensures var s := SessionAfter(ids, kept, runs); s.allIds == ids && s.completedLog == kept + s.output
  {
    if runs != [] {
      var before := SessionAfter(ids, kept, runs[..|runs| - 1]);
      LogIsOutput(ids, kept, runs[..|runs| - 1]);
      assert kept + (before.output + runs[|runs| - 1].done) == kept + before.output + runs[|runs| - 1].done;
    }
  }

  /** One more run asks for exactly what failed in the last, less what the old log hides. */
  lemma ResumedFate(ids: seq<int>, kept: seq<int>, runs: seq<Run>, last: Run, x: int)
    requires NoDuplicates(ids) && runs != [] && SplitsAsked(SessionAfter(ids, kept, runs), true, last)
    requires Fate(ids, kept, runs, x) == multiset(ids)[x]
    requires |runs| > 1 ==> multiset(runs[|runs| - 1].failed)[x] > 0 ==> x !in kept
    ensures Fate(ids, kept, runs + [last], x) == multiset(ids)[x]
    ensures multiset(last.failed)[x] > 0 ==> x !in kept
  {
    var s := SessionAfter(ids, kept, runs);
    LogIsOutput(ids, kept, runs);
    UnloggedMember(ids, s.completedLog, x);
    UnloggedMember(runs[0].failed, kept, x);
    CountOfDistinct(ids, x);
    assert (runs + [last])[..|runs|] == runs && (runs + [last])[0] == runs[0];
    assert SessionAfter(ids, kept, runs + [last]).output == s.output + last.done;
    assert (multiset(last.done) + multiset(last.failed))[x] == multiset(last.done)[x] + multiset(last.failed)[x];
    assert x in s.completedLog <==> x in kept || multiset(s.output)[x] > 0;
  }

  lemma {:induction false} FateIsOne(ids: seq<int>, kept: seq<int>, runs: seq<Run>, x: int)
    requires NoDuplicates(ids) && runs != [] && Possible(ids, kept, runs)
    ensures Fate(ids, kept, runs, x) == multiset(ids)[x]
    ensures |runs| > 1 ==> multiset(runs[|runs| - 1].failed)[x] > 0 ==> x !in kept
  {
    hide Fate;
    var init, last := runs[..|runs| - 1], runs[|runs| - 1];
    if init == [] {
      FirstFate(ids, kept, runs, x);
    } else {
      FateIsOne(ids, kept, init, x);
      ResumedFate(ids, kept, init, last, x);
      assert init + [last] == runs;
    }
  }

  lemma FirstFate(ids: seq<int>, kept: seq<int>, runs: seq<Run>, x: int)
    requires |runs| == 1 && Possible(ids, kept, runs)
    ensures Fate(ids, kept, runs, x) == multiset(ids)[x]
  {
    assert runs[..0] == [];
    assert SessionAfter(ids, kept, runs[..0]) == Session(ids, kept, []);
    assert (multiset(runs[0].done) + multiset(runs[0].failed))[x] == multiset(ids)[x];
    assert [] + runs[0].done == runs[0].done;
  }

  /**
   Over a first run and any number of resumed runs: the written ids, the ids still failed and the skipped
   ones partition all ids, and nothing is written twice.
   */
  lemma RunsPartition(ids: seq<int>, kept: seq<int>, runs: seq<Run>)
    requires NoDuplicates(ids) && runs != [] && Possible(ids, kept, runs)
    ensures var output := SessionAfter(ids, kept, runs).output;
      && multiset(output) + multiset(runs[|runs| - 1].failed) + multiset(Skipped(kept, runs)) == multiset(ids)
      && NoDuplicates(output)
  {
    var output, failed, skipped := SessionAfter(ids, kept, runs).output, runs[|runs| - 1].failed, Skipped(kept, runs);
    forall x ensures (multiset(output) + multiset(failed) + multiset(skipped))[x] == multiset(ids)[x] {
      FateIsOne(ids, kept, runs, x);
    }
    forall x ensures multiset(output)[x] <= 1 {
      FateIsOne(ids, kept, runs, x);
      CountOfDistinct(ids, x);
    }
    BagWithoutRepeats(output);
  }

  /** Success means that everything is written. */
  ghost predicate SuccessIsComplete(ids: seq<int>, kept: seq<int>, runs: seq<Run>)
    requires runs != []
  {
    runs[|runs| - 1].failed == [] ==> multiset(SessionAfter(ids, kept, runs).output) == multiset(ids)
  }

  /** An id that fails in the first run while the old log holds it is never asked for again. */
  lemma OldLogHidesFailure(ids: seq<int>, kept: seq<int>, x: int) returns (runs: seq<Run>)
    requires NoDuplicates(ids) && x in ids && x in kept
    ensures |runs| == 2 && Possible(ids, kept, runs) && !SuccessIsComplete(ids, kept, runs)
  {
    var first := Run(Unlogged(ids, [x]), [x]);
    var second := Run(Unlogged(ids, kept + first.done), []);
    runs := [first, second];
    forall y ensures (multiset(first.done) + multiset(first.failed))[y] == multiset(ids)[y] {
      UnloggedMember(ids, [x], y);
      CountOfDistinct(ids, y);
    }
    FirstRun(ids, kept, first);
    assert runs[..1] == [first];
    LogIsOutput(ids, kept, [first]);
    assert [] + first.done == first.done;
    assert SessionAfter(ids, kept, runs).output == first.done + second.done;
    UnloggedMember(ids, [x], x);
    UnloggedMember(ids, kept + first.done, x);
    assert multiset(first.done + second.done)[x] == 0 && x in multiset(ids);
  }

  /**
   Whatever fails, a sequence of runs that ends in success has written everything, if and only if the log
   left behind by an earlier session holds none of the ids.
   */
  lemma SuccessIsCompleteIffLogIsForeign(ids: seq<int>, kept: seq<int>)
    requires NoDuplicates(ids)
    ensures (forall runs :: runs != [] && Possible(ids, kept, runs) ==> SuccessIsComplete(ids, kept, runs))
       <==> (forall x :: x in ids ==> x !in kept)
  {
    hide Possible, SuccessIsComplete, NoDuplicates;
    if forall x :: x in ids ==> x !in kept {
      forall runs | runs != [] && Possible(ids, kept, runs) ensures SuccessIsComplete(ids, kept, runs) {
        RunsPartition(ids, kept, runs);
        NothingSkipped(ids, kept, runs);
      }
    }
    if x :| x in ids && x in kept {
      var runs := OldLogHidesFailure(ids, kept, x);
    }
  }

  lemma NothingSkipped(ids: seq<int>, kept: seq<int>, runs: seq<Run>)
    requires NoDuplicates(ids) && runs != [] && Possible(ids, kept, runs) && forall x :: x in ids ==> x !in kept
    ensures SuccessIsComplete(ids, kept, runs)
  {
    RunsPartition(ids, kept, runs);
    forall x ensures multiset(Skipped(kept, runs))[x] == 0 {
      FateIsOne(ids, kept, runs, x);
      if |runs| > 1 {
        UnloggedMember(runs[0].failed, kept, x);
        assert x in ids <==> multiset(ids)[x] > 0;
      }
    }
    assert multiset(Skipped(kept, runs)) == multiset{};
  }
}
