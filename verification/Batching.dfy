/** Splitting the source rows into Pass 1 batches: `_create_batches` and `_recursive_create_batches`. */
module Batching {
  import opened Basics
  import opened LoadProtocol
  import opened SortOrder

  datatype Options = Options(header: seq<string>, batchSize: nat, o2m: bool) {
    predicate Valid() {
      batchSize >= 1
    }
  }

  /** Every row has a cell for every column. */
  predicate Full(opt: Options, rows: seq<Row>) {
    forall i :: 0 <= i < |rows| ==> |rows[i].cells| >= |opt.header|
  }

  predicate AllFull(opt: Options, parts: seq<seq<Row>>) {
    forall i :: 0 <= i < |parts| ==> Full(opt, parts[i])
  }

  // ----- No group column left: by size, or one parent per batch -----

  predicate Starts(opt: Options, id: nat, current: seq<Row>, row: Row)
    requires id < |row.cells|
  {
    (opt.o2m && row.cells[id] != "" && current != []) || (!opt.o2m && |current| >= opt.batchSize)
  }

  function Cut(opt: Options, id: nat, current: seq<Row>, rest: seq<Row>): seq<seq<Row>>
    requires Wide(rest, id)
    decreases |rest|
  {
    if rest == [] then if current == [] then [] else [current]
    else if Starts(opt, id, current, rest[0]) then [current] + Cut(opt, id, [rest[0]], rest[1..])
    else Cut(opt, id, current + [rest[0]], rest[1..])
  }

  function Ungrouped(opt: Options, rows: seq<Row>): seq<seq<Row>>
    requires opt.Valid() && Full(opt, rows)
  {
    match IndexOf(opt.header, "id")
    case None => Chunks(rows, opt.batchSize)
    case Some(id) => Cut(opt, id, [], rows)
  }

  // ----- Grouping -----

  /** The maximal runs of equal values in column c, `current` being the run under way. */
  function Runs(current: seq<Row>, rest: seq<Row>, c: nat): seq<seq<Row>>
    requires Wide(current, c) && Wide(rest, c)
    decreases |rest|
  {
    if rest == [] then if current == [] then [] else [current]
    else if current != [] && rest[0].cells[c] != current[0].cells[c] then [current] + Runs([rest[0]], rest[1..], c)
    else Runs(current + [rest[0]], rest[1..], c)
  }

  lemma {:induction false} RunsFull(opt: Options, current: seq<Row>, rest: seq<Row>, c: nat)
    requires c < |opt.header| && Full(opt, current) && Full(opt, rest)
    ensures AllFull(opt, Runs(current, rest, c))
    decreases |rest|
  {
    if rest == [] {
    } else if current != [] && rest[0].cells[c] != current[0].cells[c] {
      RunsFull(opt, [rest[0]], rest[1..], c);
    } else {
      RunsFull(opt, current + [rest[0]], rest[1..], c);
    }
  }

  lemma {:induction false} InsertFull(opt: Options, row: Row, rows: seq<Row>, c: nat)
    requires c < |opt.header| && Full(opt, [row]) && Full(opt, rows)
    ensures |row.cells| >= |opt.header| && Full(opt, Insert(row, rows, c))
  {
    assert [row][0] == row;
    if rows != [] {
      InsertFull(opt, row, rows[1..], c);
    }
  }

  lemma {:induction false} SortFull(opt: Options, rows: seq<Row>, c: nat)
    requires c < |opt.header| && Full(opt, rows)
    ensures Full(opt, StableSort(rows, c))
  {
    if rows != [] {
      SortFull(opt, rows[1..], c);
      InsertFull(opt, rows[0], StableSort(rows[1..], c), c);
    }
  }

  function SortedRuns(opt: Options, rows: seq<Row>, c: nat): (runs: seq<seq<Row>>)
    requires c < |opt.header| && Full(opt, rows)
    ensures AllFull(opt, runs)
  {
    SortFull(opt, rows, c);
    RunsFull(opt, [], StableSort(rows, c), c);
    Runs([], StableSort(rows, c), c)
  }

  /** The batches of a group of rows; a group column that is not in the header yields none. */
  function Batches(opt: Options, rows: seq<Row>, groups: seq<string>): seq<seq<Row>>
    requires opt.Valid() && Full(opt, rows)
    decreases |groups|, 0, 0
  {
    if groups == [] then Ungrouped(opt, rows)
    else
      match IndexOf(opt.header, groups[0])
      case None => []
      case Some(c) => RunBatches(opt, SortedRuns(opt, rows, c), groups[1..])
  }

  function RunBatches(opt: Options, runs: seq<seq<Row>>, groups: seq<string>): seq<seq<Row>>
    requires opt.Valid() && AllFull(opt, runs)
    decreases |groups|, 1, |runs|
  {
    if runs == [] then [] else Batches(opt, runs[0], groups) + RunBatches(opt, runs[1..], groups)
  }

  // ----- The generators, as loops -----

  method CreateUngrouped(opt: Options, rows: seq<Row>) returns (batches: seq<seq<Row>>)
    requires opt.Valid() && Full(opt, rows)
    ensures batches == Ungrouped(opt, rows)
  {
    var idIndex := IndexOf(opt.header, "id");
    if idIndex == None {
      return Chunks(rows, opt.batchSize);
    }
    var id := idIndex.value;
    batches := [];
    var current: seq<Row> := [];
    for i := 0 to |rows|
      invariant batches + Cut(opt, id, current, rows[i..]) == Cut(opt, id, [], rows)
    {
      var row := rows[i];
      assert rows[i..][1..] == rows[i + 1..];
      if (opt.o2m && row.cells[id] != "" && current != []) || (!opt.o2m && |current| >= opt.batchSize) {
        assert batches + ([current] + Cut(opt, id, [row], rows[i + 1..]))
            == batches + [current] + Cut(opt, id, [row], rows[i + 1..]);
        batches := batches + [current];
        current := [];
        assert [] + [row] == [row];
      }
      current := current + [row];
    }
    if current != [] {
      batches := batches + [current];
    }
  }

  method RecursiveCreateBatches(opt: Options, rows: seq<Row>, groups: seq<string>) returns (batches: seq<seq<Row>>)
    requires opt.Valid() && Full(opt, rows)
    ensures batches == Batches(opt, rows, groups)
    decreases |groups|, 0
  {
    if groups == [] {
      batches := CreateUngrouped(opt, rows);
      return;
    }
    var column := IndexOf(opt.header, groups[0]);
    if column == None {
      return [];
    }
    var c := column.value;
    var data := StableSort(rows, c);
    SortFull(opt, rows, c);
    batches := CreateGrouped(opt, data, c, groups[1..]);
  }

  /** The loop that gathers runs of equal values and batches each of them. */
  method CreateGrouped(opt: Options, data: seq<Row>, c: nat, groups: seq<string>) returns (batches: seq<seq<Row>>)
    requires opt.Valid() && Full(opt, data) && c < |opt.header|
    ensures AllFull(opt, Runs([], data, c)) && batches == RunBatches(opt, Runs([], data, c), groups)
    decreases |groups|, 1
  {
    hide Batches, RunBatches, StableSort;
    RunsFull(opt, [], data, c);
    NoRuns(opt, groups);
    ghost var all := Runs([], data, c);
    ghost var pending := all;
    batches := [];
    var current: seq<Row> := [];
    for i := 0 to |data|
      invariant Full(opt, current) && AllFull(opt, pending)
      invariant pending == Runs(current, data[i..], c)
      invariant batches + RunBatches(opt, pending, groups) == RunBatches(opt, all, groups)
    {
      var row := data[i];
      assert data[i..][1..] == data[i + 1..];
      if current != [] && row.cells[c] != current[0].cells[c] {
        var part := RecursiveCreateBatches(opt, current, groups);
        FlushRun(opt, batches, current, Runs([row], data[i + 1..], c), groups);
        pending := Runs([row], data[i + 1..], c);
        batches := batches + part;
        current := [];
        assert [] + [row] == [row];
      }
      current := current + [row];
    }
    if current != [] {
      assert pending == [current] + [];
      var part := RecursiveCreateBatches(opt, current, groups);
      FlushRun(opt, batches, current, [], groups);
      batches := batches + part;
    }
  }

  lemma NoRuns(opt: Options, groups: seq<string>)
    requires opt.Valid()
    ensures RunBatches(opt, [], groups) == []
  {
  }

  lemma FlushRun(opt: Options, batches: seq<seq<Row>>, run: seq<Row>, later: seq<seq<Row>>, groups: seq<string>)
    requires opt.Valid() && AllFull(opt, [run] + later)
    ensures ([run] + later)[1..] == later && Full(opt, run) && AllFull(opt, later)
    ensures batches + RunBatches(opt, [run] + later, groups)
         == batches + Batches(opt, run, groups) + RunBatches(opt, later, groups)
  {
    hide Batches;
    assert ([run] + later)[0] == run && ([run] + later)[1..] == later;
  }
}
