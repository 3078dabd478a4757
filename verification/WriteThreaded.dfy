/**
 The `write` command: `RPCThreadWrite._execute_batch` groups the lines of a batch by their values, one
 RPC for each group and no retry; `write_data` runs the batches on a thread pool.
 */
module WriteThreaded {
  import opened Basics
  import opened LoadProtocol
  import opened Writes

  /** Python's `int`; None is a ValueError. */
  type ParseInt = string -> Option<int>

  datatype Summary = Summary(processed: nat, success: nat, failed: nat)

  /** The values of a line: every column but "id", a repeated column counting with its last cell. */
  function ValuesOf(header: seq<string>, cells: seq<string>): (m: Fields<string>)
    requires |cells| <= |header|
    ensures forall column :: column in m <==> column != "id" && column in header[..|cells|]
  {
    if cells == [] then map[]
    else
      var i := |cells| - 1;
      var m := ValuesOf(header, cells[..i]);
      assert header[..|cells|] == header[..i] + [header[i]];
      if header[i] == "id" then m else m[header[i] := cells[i]]
  }

  /** The cell a line stands for; None when the line raises. */
  function LineCell(header: seq<string>, parse: ParseInt, line: Row): Option<Cell<Fields<string>>> {
    var at := IndexOf(header, "id");
    if at.None? || at.value >= |line.cells| || |line.cells| > |header| then None
    else
      var id := parse(line.cells[at.value]);
      if id.None? then None else Some(Cell(id.value, ValuesOf(header, line.cells)))
  }

  /** The last column of that name among those the line has a cell for. */
  predicate LastAt(header: seq<string>, n: nat, column: string, i: nat) {
    i < n <= |header| && header[i] == column && forall k :: i < k < n ==> header[k] != column
  }

  lemma {:induction false} ValuesMean(header: seq<string>, cells: seq<string>, column: string, i: nat)
    requires |cells| <= |header| && column != "id" && LastAt(header, |cells|, column, i)
    ensures column in ValuesOf(header, cells) && ValuesOf(header, cells)[column] == cells[i]
  {
    if i < |cells| - 1 {
      ValuesMean(header, cells[..|cells| - 1], column, i);
    }
  }

  /**
   A line can be read if the first id column has a number and the line is no longer than the header; it
   then stands for writing, to the record of that number, every other cell under its column's name.
   */
  lemma LineMeans(header: seq<string>, parse: ParseInt, line: Row)
    ensures LineCell(header, parse, line).Some? <==>
            |line.cells| <= |header|
            && exists at: nat :: at < |line.cells| && header[at] == "id" && "id" !in header[..at]
                                 && parse(line.cells[at]).Some?
    ensures LineCell(header, parse, line).Some? ==>
              var cell := LineCell(header, parse, line).value;
              && (forall at: nat :: at < |line.cells| && header[at] == "id" && "id" !in header[..at] ==>
                    parse(line.cells[at]) == Some(cell.id))
              && (forall column :: column in cell.vals <==> column != "id" && column in header[..|line.cells|])
              && (forall column, i: nat :: column != "id" && LastAt(header, |line.cells|, column, i) ==>
                    cell.vals[column] == line.cells[i])
  {
    hide ValuesOf;
    FirstId(header);
    if |line.cells| <= |header| {
      forall column, i: nat | column != "id" && LastAt(header, |line.cells|, column, i)
        ensures column in ValuesOf(header, line.cells) && ValuesOf(header, line.cells)[column] == line.cells[i]
      {
        ValuesMean(header, line.cells, column, i);
      }
    }
  }

  lemma FirstId(header: seq<string>)
    ensures forall at: nat :: at < |header| && header[at] == "id" && "id" !in header[..at] <==>
              IndexOf(header, "id") == Some(at)
  {
    forall at: nat | at < |header| && header[at] == "id" && "id" !in header[..at]
      ensures IndexOf(header, "id") == Some(at)
    {
      assert "id" in header && forall k :: 0 <= k < at ==> header[..at][k] == header[k];
    }
  }

  predicate AllReadable(header: seq<string>, parse: ParseInt, lines: seq<Row>) {
    forall i :: 0 <= i < |lines| ==> LineCell(header, parse, lines[i]).Some?
  }

  function LineCells(header: seq<string>, parse: ParseInt, lines: seq<Row>): (cells: seq<Cell<Fields<string>>>)
    requires AllReadable(header, parse, lines)
    ensures |cells| == |lines|
  {
    seq(|lines|, i requires 0 <= i < |lines| => LineCell(header, parse, lines[i]).value)
  }

  /** The RPCs of a batch: none when a line cannot be read. */
  function Plan(header: seq<string>, parse: ParseInt, lines: seq<Row>): seq<Op<Fields<string>>> {
    if AllReadable(header, parse, lines) then Grouped(LineCells(header, parse, lines)) else []
  }

  /** The ids of the operations whose RPC was, or was not, answered. */
  function Answered(ops: seq<Op<Fields<string>>>, replies: nat -> WriteReply, n: nat, answered: bool): seq<int>
    requires n <= |ops|
  {
    if n == 0 then []
    else Answered(ops, replies, n - 1, answered) + if replies(n - 1).Done? == answered then ops[n - 1].ids else []
  }

  lemma {:induction false} AnsweredCounts(ops: seq<Op<Fields<string>>>, replies: nat -> WriteReply, n: nat)
    requires n <= |ops|
    ensures |Answered(ops, replies, n, true)| + |Answered(ops, replies, n, false)| == |Cells(ops[..n])|
  {
    if n > 0 {
      AnsweredCounts(ops, replies, n - 1);
      assert ops[..n] == ops[..n - 1] + [ops[n - 1]];
      CellsAppend(ops[..n - 1], [ops[n - 1]]);
      CellsOne(ops[n - 1]);
    }
  }

  lemma PlanCounts(header: seq<string>, parse: ParseInt, lines: seq<Row>)
    requires AllReadable(header, parse, lines)
    ensures |Cells(Plan(header, parse, lines))| == |lines|
  {
    var cells := LineCells(header, parse, lines);
    GroupedKeepsRows(cells);
    assert |multiset(Cells(Grouped(cells)))| == |Cells(Grouped(cells))| && |multiset(cells)| == |cells|;
  }

  /**
   One batch. Every line is counted once, as a success or a failure; a batch with an unreadable line
   sends nothing and fails as a whole; otherwise the failed ids are those of the unanswered RPCs.
   */
  method ExecuteBatch(header: seq<string>, parse: ParseInt, lines: seq<Row>, replies: nat -> WriteReply,
                      abortFlag: bool)
    returns (summary: Summary, failedIds: seq<int>, calls: nat)
    ensures abortFlag ==> summary == Summary(0, 0, 0) && calls == 0 && failedIds == []
    ensures !abortFlag ==> summary.processed == |lines| == summary.success + summary.failed
    ensures !abortFlag ==> calls == |Plan(header, parse, lines)|
    ensures !abortFlag && AllReadable(header, parse, lines) ==>
              && failedIds == Answered(Plan(header, parse, lines), replies, calls, false)
              && summary.failed == |failedIds|
    ensures !abortFlag && !AllReadable(header, parse, lines) ==> summary.success == 0 && calls == 0
  {
    hide LineCell, AddTo, Cells;
    failedIds, calls := [], 0;
    if abortFlag {
      return Summary(0, 0, 0), failedIds, calls;
    }
    var groups: seq<Op<Fields<string>>> := [];
    for i := 0 to |lines|
      invariant AllReadable(header, parse, lines[..i])
      invariant groups == Grouped(LineCells(header, parse, lines[..i]))
    {
      var cell := LineCell(header, parse, lines[i]);
      if cell.None? {
        return Summary(|lines|, 0, |lines|), failedIds, calls;
      }
      assert lines[..i + 1] == lines[..i] + [lines[i]];
      NextLine(header, parse, lines[..i], lines[i]);
      groups := AddTo(groups, cell.value.vals, cell.value.id);
    }
    assert lines[..|lines|] == lines;
    var success, failed := 0, 0;
    for i := 0 to |groups|
      invariant calls == i && success == |Answered(groups, replies, i, true)|
      invariant failedIds == Answered(groups, replies, i, false) && failed == |failedIds|
    {
      calls := calls + 1;
      if replies(i).Done? {
        success := success + |groups[i].ids|;
      } else {
        failed, failedIds := failed + |groups[i].ids|, failedIds + groups[i].ids;
      }
    }
    AnsweredCounts(groups, replies, |groups|);
    assert groups[..|groups|] == groups;
    PlanCounts(header, parse, lines);
    summary := Summary(|lines|, success, failed);
  }

  lemma NextLine(header: seq<string>, parse: ParseInt, before: seq<Row>, line: Row)
    requires AllReadable(header, parse, before) && LineCell(header, parse, line).Some?
    ensures AllReadable(header, parse, before + [line])
    ensures var cell := LineCell(header, parse, line).value;
      Grouped(LineCells(header, parse, before + [line]))
      == AddTo(Grouped(LineCells(header, parse, before)), cell.vals, cell.id)
  {
    hide LineCell, AddTo;
    var cells, cell := LineCells(header, parse, before), LineCell(header, parse, line).value;
    assert LineCells(header, parse, before + [line]) == cells + [cell];
    assert (cells + [cell])[..|cells|] == cells;
  }

  // ----- The whole command -----

  function Plans(header: seq<string>, parse: ParseInt, batches: seq<seq<Row>>): seq<seq<Op<Fields<string>>>> {
    seq(|batches|, i requires 0 <= i < |batches| => Plan(header, parse, batches[i]))
  }

  lemma {:induction false} PlansPerform(header: seq<string>, parse: ParseInt, batches: seq<seq<Row>>)
    requires AllReadable(header, parse, Flatten(batches))
    ensures Performs(Plans(header, parse, batches), LineCells(header, parse, Flatten(batches)))
  {
    hide LineCell, Grouped, Cells;
    if batches != [] {
      var first, rest, all := batches[0], Flatten(batches[1..]), Flatten(batches);
      ReadableParts(header, parse, first, rest);
      PlansPerform(header, parse, batches[1..]);
      assert Plans(header, parse, batches)[1..] == Plans(header, parse, batches[1..]);
      assert LineCells(header, parse, all) == LineCells(header, parse, first) + LineCells(header, parse, rest);
      GroupedKeepsRows(LineCells(header, parse, first));
    }
  }

  lemma ReadableParts(header: seq<string>, parse: ParseInt, first: seq<Row>, rest: seq<Row>)
    requires AllReadable(header, parse, first + rest)
    ensures AllReadable(header, parse, first) && AllReadable(header, parse, rest)
  {
    forall i | 0 <= i < |rest| ensures LineCell(header, parse, rest[i]).Some? {
      assert (first + rest)[|first| + i] == rest[i];
    }
    forall i | 0 <= i < |first| ensures LineCell(header, parse, first[i]).Some? {
      assert (first + rest)[i] == first[i];
    }
  }

  /**
   Any interleaving of the batches of `write_data` leaves the store of writing the lines one by one when
   nothing failed; with failures, every line is in the store or reported, and no other record changed.
   This worker never retries: its runs are those without a time-out event, and the claim covers them all.
   */
  lemma WriteDataIsConfluent(header: seq<string>, parse: ParseInt, data: seq<Row>, batchSize: nat,
                             start: Store<string>, events: seq<Event>, q: Pool<string>)
    requires batchSize >= 1 && AllReadable(header, parse, data) && DistinctIds(LineCells(header, parse, data))
    requires Finished(q)
    requires Run(Started(Plans(header, parse, Chunks(data, batchSize)), start), events, q)
    ensures NothingFailed(q) ==>
              q.store == ApplyRows(start, LineCells(header, parse, data))
    ensures forall row :: row in LineCells(header, parse, data) ==> Holds(start, q.store, row) || Reported(q, row)
    ensures StoreInv(LineCells(header, parse, data), start, q.store)
    ensures Accounted(q.workers) == |data|
  {
    hide Run, Finished, Holds, StoreInv, Performs, ApplyRows, LineCell, Chunks;
    var batches, rows := Chunks(data, batchSize), LineCells(header, parse, data);
    var plans := Plans(header, parse, batches);
    PlansPerform(header, parse, batches);
    RunSettles(plans, rows, start, events, q);
    PassReconciles(plans, rows, start, events, q);
    if NothingFailed(q) {
      Confluence(plans, rows, start, events, q);
    }
  }
}
