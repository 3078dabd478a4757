/**
 The export workers: `_execute_batch` splits a batch in halves on network and memory errors, down to
 single records. The server may answer each read in any way.
 */
module Export {
  import opened Basics
  import opened Halving

  /** A read returns records, here their ids, or one of the error classes the worker tells apart. */
  datatype ReadOutcome = Returned(ids: seq<int>) | NetworkError | MemoryError | OtherError

  /** The n-th read of this worker, on these ids. */
  type Reader = (nat, seq<int>) -> ReadOutcome

  /** A read that returns, returns exactly the records asked for. */
  ghost predicate Exact(reader: Reader) {
    forall n: nat, ids: seq<int> :: reader(n, ids).Returned? ==> reader(n, ids).ids == ids
  }

  /** What a batch leaves: exported records, ids reported as processed, permanent failures, reads made. */
  datatype Outcome = Outcome(results: seq<int>, completed: seq<int>, failed: seq<int>, calls: nat)

  predicate Splits(outcome: ReadOutcome, n: nat) {
    n > 1 && (outcome.NetworkError? || outcome.MemoryError?)
  }

  /** `export_data` reports the ids asked for, `read` the ids of the records it got. */
  function Batch(reader: Reader, readMode: bool, ids: seq<int>, calls: nat): Outcome
    decreases |ids|
  {
    var outcome := reader(calls, ids);
    if Splits(outcome, |ids|) then
      var a := Batch(reader, readMode, ids[..|ids| / 2], calls + 1);
      var b := Batch(reader, readMode, ids[|ids| / 2..], a.calls);
      Outcome(a.results + b.results, a.completed + b.completed, a.failed + b.failed, b.calls)
    else if outcome.Returned? then
      Outcome(outcome.ids, if readMode then outcome.ids else ids, [], calls + 1)
    else Outcome([], [], ids, calls + 1)
  }

  lemma NetworkErrorSplits(reader: Reader, readMode: bool, ids: seq<int>, calls: nat)
    requires reader(calls, ids).NetworkError?
    ensures |ids| <= 1 ==> Batch(reader, readMode, ids, calls) == Outcome([], [], ids, calls + 1)
    ensures |ids| > 1 ==>
              var a := Batch(reader, readMode, ids[..|ids| / 2], calls + 1);
              var b := Batch(reader, readMode, ids[|ids| / 2..], a.calls);
              Batch(reader, readMode, ids, calls)
              == Outcome(a.results + b.results, a.completed + b.completed, a.failed + b.failed, b.calls)
  {
  }

  // ----- The worker object -----

  class ExportThread {
    const readMode: bool
    var hasFailures: bool
    var failedIds: seq<int>

    constructor (readMode: bool)
      ensures this.readMode == readMode && !hasFailures && failedIds == []
    {
      this.readMode, hasFailures, failedIds := readMode, false, [];
    }

    /** `_execute_batch`; `calls` counts the reads made so far. */
    method ExecuteBatch(reader: Reader, ids: seq<int>, calls: nat)
      returns (results: seq<int>, completed: seq<int>, calls': nat)
      requires ids != []
      modifies this
      ensures var out := Batch(reader, readMode, ids, calls);
        && results == out.results && completed == out.completed && calls' == out.calls
        && failedIds == old(failedIds) + out.failed
        && hasFailures == (old(hasFailures) || out.failed != [])
      decreases |ids|, 2
    {
      var outcome := reader(calls, ids);
      match outcome
      case Returned(records) =>
        return records, if readMode then records else ids, calls + 1;
      case NetworkError =>
        results, completed, calls' := ExecuteBatchWithRetry(reader, ids, calls);
      case MemoryError =>
        if |ids| > 1 {
          results, completed, calls' := Halves(reader, ids, calls + 1);
        } else {
          hasFailures, failedIds := true, failedIds + ids;
          return [], [], calls + 1;
        }
      case OtherError =>
        hasFailures, failedIds := true, failedIds + ids;
        return [], [], calls + 1;
    }

    /** `_execute_batch_with_retry` */
    method ExecuteBatchWithRetry(reader: Reader, ids: seq<int>, calls: nat)
      returns (results: seq<int>, completed: seq<int>, calls': nat)
      requires ids != [] && reader(calls, ids).NetworkError?
      modifies this
      ensures var out := Batch(reader, readMode, ids, calls);
        && results == out.results && completed == out.completed && calls' == out.calls
        && failedIds == old(failedIds) + out.failed
        && hasFailures == (old(hasFailures) || out.failed != [])
      decreases |ids|, 1
    {
      NetworkErrorSplits(reader, readMode, ids, calls);
      hide Batch;
      if |ids| > 1 {
        results, completed, calls' := Halves(reader, ids, calls + 1);
      } else {
        hasFailures, failedIds := true, failedIds + [ids[0]];
        assert ids == [ids[0]];
        return [], [], calls + 1;
      }
    }

    /** Both halves, the second after the first. */
    method Halves(reader: Reader, ids: seq<int>, calls: nat)
      returns (results: seq<int>, completed: seq<int>, calls': nat)
      requires |ids| > 1
      modifies this
      ensures var a := Batch(reader, readMode, ids[..|ids| / 2], calls);
        var b := Batch(reader, readMode, ids[|ids| / 2..], a.calls);
        && results == a.results + b.results && completed == a.completed + b.completed && calls' == b.calls
        && failedIds == old(failedIds) + (a.failed + b.failed)
        && hasFailures == (old(hasFailures) || a.failed + b.failed != [])
      decreases |ids|, 0
    {
      hide Batch;
      var middle := |ids| / 2;
      var resultsA, idsA, callsA := ExecuteBatch(reader, ids[..middle], calls);
      var resultsB, idsB, callsB := ExecuteBatch(reader, ids[middle..], callsA);
      return resultsA + resultsB, idsA + idsB, callsB;
    }
  }

  // ----- What a batch promises -----

  lemma Rearranged<T>(a: multiset<T>, a': multiset<T>, b: multiset<T>, b': multiset<T>)
    ensures a + b + (a' + b') == a + a' + (b + b')
  {
  }

  /** Whatever the errors, a batch is split exactly into exported and failed ids, in at most 2n - 1 reads. */
  lemma {:induction false} BatchPartitions(reader: Reader, readMode: bool, ids: seq<int>, calls: nat)
    requires Exact(reader) && ids != []
    ensures var out := Batch(reader, readMode, ids, calls);
      && out.results == out.completed
      && multiset(out.completed) + multiset(out.failed) == multiset(ids)
      && out.calls <= calls + 2 * |ids| - 1
    decreases |ids|
  {
    if Splits(reader(calls, ids), |ids|) {
      var left, right := ids[..|ids| / 2], ids[|ids| / 2..];
      BatchPartitions(reader, readMode, left, calls + 1);
      var a := Batch(reader, readMode, left, calls + 1);
      BatchPartitions(reader, readMode, right, a.calls);
      var b := Batch(reader, readMode, right, a.calls);
      SplitMultiset(ids, |ids| / 2);
      Rearranged(multiset(a.completed), multiset(a.failed), multiset(b.completed), multiset(b.failed));
    }
  }

  function Chosen(ids: seq<int>, good: int -> bool, which: bool): seq<int> {
    if ids == [] then []
    else Chosen(ids[..|ids| - 1], good, which) + if good(ids[|ids| - 1]) == which then [ids[|ids| - 1]] else []
  }

  lemma {:induction false} ChosenAppend(a: seq<int>, b: seq<int>, good: int -> bool, which: bool)
    ensures Chosen(a + b, good, which) == Chosen(a, good, which) + Chosen(b, good, which)
  {
    if b == [] {
      assert a + b == a;
    } else {
      assert (a + b)[..|a + b| - 1] == a + b[..|b| - 1];
      ChosenAppend(a, b[..|b| - 1], good, which);
    }
  }

  lemma {:induction false} ChosenAll(ids: seq<int>, good: int -> bool)
    requires forall i :: 0 <= i < |ids| ==> good(ids[i])
    ensures Chosen(ids, good, true) == ids && Chosen(ids, good, false) == []
  {
    if ids != [] {
      ChosenAll(ids[..|ids| - 1], good);
      assert ids == ids[..|ids| - 1] + [ids[|ids| - 1]];
    }
  }

  /** A read fails, in a way that is worth splitting, exactly when it touches a bad record. */
  ghost predicate FailsOnBad(reader: Reader, good: int -> bool) {
    forall n: nat, ids: seq<int> ::
      if forall i :: 0 <= i < |ids| ==> good(ids[i]) then reader(n, ids) == Returned(ids)
      else reader(n, ids).NetworkError? || reader(n, ids).MemoryError?
  }

  /** Splitting isolates the bad records: exactly those fail, the others are exported, both in order. */
  lemma {:induction false} SplittingIsolates(reader: Reader, readMode: bool, ids: seq<int>, calls: nat,
                                             good: int -> bool)
    requires FailsOnBad(reader, good) && ids != []
    ensures var out := Batch(reader, readMode, ids, calls);
      out.results == Chosen(ids, good, true) == out.completed && out.failed == Chosen(ids, good, false)
    decreases |ids|
  {
    hide Chosen, FailsOnBad;
    ReadsAsGood(reader, calls, ids, good);
    if reader(calls, ids).Returned? {
      ChosenAll(ids, good);
    } else if |ids| == 1 {
      ChosenNone(ids, good);
    } else {
      var left, right := ids[..|ids| / 2], ids[|ids| / 2..];
      SplittingIsolates(reader, readMode, left, calls + 1, good);
      SplittingIsolates(reader, readMode, right, Batch(reader, readMode, left, calls + 1).calls, good);
      ChosenAppend(left, right, good, true);
      ChosenAppend(left, right, good, false);
      assert left + right == ids;
    }
  }

  lemma {:induction false} ChosenSplits(ids: seq<int>, good: int -> bool)
    ensures |Chosen(ids, good, true)| + |Chosen(ids, good, false)| == |ids|
    ensures Chosen(ids, good, false) == [] <==> forall i :: 0 <= i < |ids| ==> good(ids[i])
  {
    if ids != [] {
      ChosenSplits(ids[..|ids| - 1], good);
      assert ids == ids[..|ids| - 1] + [ids[|ids| - 1]];
    }
  }

  /** Isolating k bad records among n takes at most 1 + 2k * ceil(log2 n) reads. */
  lemma {:induction false} FewReads(reader: Reader, readMode: bool, ids: seq<int>, calls: nat, good: int -> bool)
    requires FailsOnBad(reader, good) && ids != []
    ensures Batch(reader, readMode, ids, calls).calls <= calls + CallBound(|ids|, |Chosen(ids, good, false)|)
    decreases |ids|
  {
    hide Chosen, FailsOnBad, Batch, CallBound;
    ReadsAsGood(reader, calls, ids, good);
    ChosenSplits(ids, good);
    BatchCalls(reader, readMode, ids, calls);
    if reader(calls, ids).Returned? || |ids| == 1 {
      OneCall(|ids|, |Chosen(ids, good, false)|);
    } else {
      var left, right := ids[..|ids| / 2], ids[|ids| / 2..];
      var a := Batch(reader, readMode, left, calls + 1);
      FewReads(reader, readMode, left, calls + 1, good);
      FewReads(reader, readMode, right, a.calls, good);
      ChosenAppend(left, right, good, false);
      assert left + right == ids;
      CallsAddUp(|ids|, |Chosen(left, good, false)|, |Chosen(right, good, false)|);
    }
  }

  lemma BatchCalls(reader: Reader, readMode: bool, ids: seq<int>, calls: nat)
    ensures !Splits(reader(calls, ids), |ids|) ==> Batch(reader, readMode, ids, calls).calls == calls + 1
    ensures Splits(reader(calls, ids), |ids|) ==>
              var a := Batch(reader, readMode, ids[..|ids| / 2], calls + 1);
              Batch(reader, readMode, ids, calls).calls == Batch(reader, readMode, ids[|ids| / 2..], a.calls).calls
  {
  }

  lemma OneCall(n: nat, k: nat)
    ensures CallBound(n, k) >= 1
  {
  }

  /** Any other error fails the whole batch at once: nothing is split and nothing is read again. */
  lemma OtherErrorFailsAll(reader: Reader, readMode: bool, ids: seq<int>, calls: nat)
    requires reader(calls, ids).OtherError?
    ensures var out := Batch(reader, readMode, ids, calls);
      out.results == [] && out.completed == [] && out.failed == ids && out.calls == calls + 1
  {
  }

  lemma ReadsAsGood(reader: Reader, calls: nat, ids: seq<int>, good: int -> bool)
    requires FailsOnBad(reader, good)
    ensures var outcome := reader(calls, ids);
      if forall i :: 0 <= i < |ids| ==> good(ids[i]) then outcome == Returned(ids)
      else outcome.NetworkError? || outcome.MemoryError?
  {
  }

  lemma ChosenNone(ids: seq<int>, good: int -> bool)
    requires |ids| == 1 && !good(ids[0])
    ensures Chosen(ids, good, true) == [] && Chosen(ids, good, false) == ids
  {
    assert ids[..0] == [] && [ids[0]] == ids;
    assert Chosen(ids[..0], good, false) == [] && Chosen(ids[..0], good, true) == [];
  }

  // ----- Without exact reads -----

  /** Reads that return, return records that were asked for, each at most as often as asked. */
  ghost predicate OnlyAsked(reader: Reader) {
    forall n: nat, ids: seq<int> :: reader(n, ids).Returned? ==> multiset(reader(n, ids).ids) <= multiset(ids)
  }

  /** Each read that the batch makes and that returns, returns a permutation of its ids. */
  predicate ReadsAll(reader: Reader, ids: seq<int>, calls: nat)
    decreases |ids|
  {
    var outcome := reader(calls, ids);
    if Splits(outcome, |ids|) then
      && ReadsAll(reader, ids[..|ids| / 2], calls + 1)
      && ReadsAll(reader, ids[|ids| / 2..], Batch(reader, true, ids[..|ids| / 2], calls + 1).calls)
    else outcome.Returned? ==> multiset(outcome.ids) == multiset(ids)
  }

  lemma BothOrLess<T>(a: multiset<T>, a': multiset<T>, b: multiset<T>, b': multiset<T>)
    requires a <= a' && b <= b'
    ensures a + b <= a' + b' && (a + b == a' + b' <==> a == a' && b == b')
  {
    if a + b == a' + b' {
      forall x ensures a[x] == a'[x] && b[x] == b'[x] {
        assert (a + b)[x] == a[x] + b[x] && (a' + b')[x] == a'[x] + b'[x];
      }
    }
  }

  /**
   In read mode a batch is split exactly into exported and failed ids if and only if its reads return all they were
   asked.
   */
  lemma {:induction false} PartitionIffReadsAll(reader: Reader, ids: seq<int>, calls: nat)
    requires OnlyAsked(reader) && ids != []
    ensures var out := Batch(reader, true, ids, calls);
      && multiset(out.completed) + multiset(out.failed) <= multiset(ids)
      && (multiset(out.completed) + multiset(out.failed) == multiset(ids) <==> ReadsAll(reader, ids, calls))
    decreases |ids|
  {
    hide OnlyAsked;
    if Splits(reader(calls, ids), |ids|) {
      var left, right := ids[..|ids| / 2], ids[|ids| / 2..];
      PartitionIffReadsAll(reader, left, calls + 1);
      var a := Batch(reader, true, left, calls + 1);
      PartitionIffReadsAll(reader, right, a.calls);
      var b := Batch(reader, true, right, a.calls);
      SplitMultiset(ids, |ids| / 2);
      Rearranged(multiset(a.completed), multiset(a.failed), multiset(b.completed), multiset(b.failed));
      BothOrLess(multiset(a.completed) + multiset(a.failed), multiset(left),
                 multiset(b.completed) + multiset(b.failed), multiset(right));
    } else {
      ReadIsAsked(reader, calls, ids);
    }
  }

  lemma ReadIsAsked(reader: Reader, calls: nat, ids: seq<int>)
    requires OnlyAsked(reader)
    ensures reader(calls, ids).Returned? ==> multiset(reader(calls, ids).ids) <= multiset(ids)
  {
  }

  /** A read that returns nothing is neither exported nor failed: the batch looks like a success. */
  lemma EmptyReadIsSilent(reader: Reader, ids: seq<int>, calls: nat)
    requires reader(calls, ids) == Returned([]) && ids != []
    ensures var out := Batch(reader, true, ids, calls);
      out.completed == [] && out.failed == [] && !ReadsAll(reader, ids, calls)
  {
    assert ids[0] in multiset(ids);
  }

  // ----- Every split of a batch into good and bad records is reached -----

  function Picky(good: int -> bool): Reader {
    (n: nat, ids: seq<int>) => if forall i :: 0 <= i < |ids| ==> good(ids[i]) then Returned(ids) else NetworkError
  }

  lemma AnySplitIsReached(ids: seq<int>, good: int -> bool)
    requires ids != []
    ensures Exact(Picky(good))
    ensures var out := Batch(Picky(good), true, ids, 0);
      out.completed == Chosen(ids, good, true) && out.failed == Chosen(ids, good, false)
  {
    SplittingIsolates(Picky(good), true, ids, 0, good);
  }
}
