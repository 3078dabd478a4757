/** Grouped and one-to-many batching: what order and what batches the generators produce. */
module BatchingFacts {
  import opened Basics
  import opened LoadProtocol
  import opened SortOrder
  import opened Batching

  // ----- Without group columns -----

  predicate SizesBounded(opt: Options, parts: seq<seq<Row>>) {
    forall i :: 0 <= i < |parts| ==> parts[i] != [] && (!opt.o2m ==> |parts[i]| <= opt.batchSize)
  }

  lemma {:induction false} CutFacts(opt: Options, id: nat, current: seq<Row>, rest: seq<Row>)
    requires opt.Valid() && Wide(rest, id)
    requires !opt.o2m ==> |current| <= opt.batchSize
    ensures Flatten(Cut(opt, id, current, rest)) == current + rest
    ensures SizesBounded(opt, Cut(opt, id, current, rest))
    decreases |rest|
  {
    if rest == [] {
      if current != [] {
        FlattenOne(current);
      }
    } else if Starts(opt, id, current, rest[0]) {
      var later := Cut(opt, id, [rest[0]], rest[1..]);
      CutFacts(opt, id, [rest[0]], rest[1..]);
      assert ([current] + later)[1..] == later;
      assert current + ([rest[0]] + rest[1..]) == current + rest;
    } else {
      CutFacts(opt, id, current + [rest[0]], rest[1..]);
      assert current + [rest[0]] + rest[1..] == current + rest;
    }
  }

  /** No row but the first has an id. */
  predicate OneParent(id: nat, part: seq<Row>)
    requires Wide(part, id)
  {
    forall j :: 1 <= j < |part| ==> part[j].cells[id] == ""
  }

  predicate AllWide(parts: seq<seq<Row>>, id: nat) {
    forall i :: 0 <= i < |parts| ==> Wide(parts[i], id)
  }

  /** Every batch has at most one parent, in front, and only the first batch may lack one. */
  predicate ParentPerBatch(id: nat, parts: seq<seq<Row>>)
    requires AllWide(parts, id)
  {
    && (forall i :: 0 <= i < |parts| ==> OneParent(id, parts[i]))
    && (forall i :: 1 <= i < |parts| ==> parts[i] != [] && parts[i][0].cells[id] != "")
  }

  lemma {:induction false} CutParents(opt: Options, id: nat, current: seq<Row>, rest: seq<Row>)
    requires opt.Valid() && opt.o2m && Wide(current, id) && Wide(rest, id) && OneParent(id, current)
    ensures AllWide(Cut(opt, id, current, rest), id)
    ensures ParentPerBatch(id, Cut(opt, id, current, rest))
    ensures current != [] ==> Cut(opt, id, current, rest) != [] && current <= Cut(opt, id, current, rest)[0]
    decreases |rest|
  {
    if rest == [] {
    } else if Starts(opt, id, current, rest[0]) {
      CutParents(opt, id, [rest[0]], rest[1..]);
    } else {
      CutParents(opt, id, current + [rest[0]], rest[1..]);
    }
  }

  /**
   One-to-many batching: the batches are the input in order, each parent opens its own batch, and the
   blank-id rows that follow it stay with it.
   */
  lemma OneToMany(opt: Options, rows: seq<Row>)
    requires opt.Valid() && opt.o2m && Full(opt, rows) && "id" in opt.header
    ensures var id := IndexOf(opt.header, "id").value;
      var parts := Batches(opt, rows, []);
      Flatten(parts) == rows && AllWide(parts, id) && ParentPerBatch(id, parts)
  {
    var id := IndexOf(opt.header, "id").value;
    CutFacts(opt, id, [], rows);
    CutParents(opt, id, [], rows);
  }

  lemma UngroupedFacts(opt: Options, rows: seq<Row>)
    requires opt.Valid() && Full(opt, rows)
    ensures Flatten(Ungrouped(opt, rows)) == rows && SizesBounded(opt, Ungrouped(opt, rows))
  {
    if "id" in opt.header {
      CutFacts(opt, IndexOf(opt.header, "id").value, [], rows);
    }
  }

  // ----- A missing group column -----

  lemma {:induction false} MissingColumnDropsAll(opt: Options, rows: seq<Row>, groups: seq<string>, k: nat)
    requires opt.Valid() && Full(opt, rows)
    requires k < |groups| && groups[k] !in opt.header
    ensures Batches(opt, rows, groups) == []
    decreases |groups|, 0, 0
  {
    if groups[0] in opt.header {
      MissingColumnDropsRuns(opt, SortedRuns(opt, rows, IndexOf(opt.header, groups[0]).value), groups[1..], k - 1);
    }
  }

  lemma {:induction false} MissingColumnDropsRuns(opt: Options, runs: seq<seq<Row>>, groups: seq<string>, k: nat)
    requires opt.Valid() && AllFull(opt, runs)
    requires k < |groups| && groups[k] !in opt.header
    ensures RunBatches(opt, runs, groups) == []
    decreases |groups|, 1, |runs|
  {
    if runs != [] {
      MissingColumnDropsAll(opt, runs[0], groups, k);
      MissingColumnDropsRuns(opt, runs[1..], groups, k);
    }
  }

  // ----- Runs of a sorted group -----

  predicate Constant(part: seq<Row>, c: nat, v: string) {
    forall i :: 0 <= i < |part| ==> c < |part[i].cells| && part[i].cells[c] == v
  }

  /** Consecutive runs, each constant and not empty, with strictly ascending values. */
  predicate GoodRuns(runs: seq<seq<Row>>, c: nat) {
    && (forall i :: 0 <= i < |runs| ==> runs[i] != [] && Wide(runs[i], c) && Constant(runs[i], c, runs[i][0].cells[c]))
    && (forall i, j :: 0 <= i < j < |runs| ==>
          CellLeq(runs[i][0].cells[c], runs[j][0].cells[c]) && runs[i][0].cells[c] != runs[j][0].cells[c])
  }

  lemma {:induction false} RunsFlatten(current: seq<Row>, rest: seq<Row>, c: nat)
    requires Wide(current, c) && Wide(rest, c)
    ensures Flatten(Runs(current, rest, c)) == current + rest
    decreases |rest|
  {
    if rest == [] {
      if current != [] {
        FlattenOne(current);
      }
    } else if current != [] && rest[0].cells[c] != current[0].cells[c] {
      var later := Runs([rest[0]], rest[1..], c);
      RunsFlatten([rest[0]], rest[1..], c);
      assert ([current] + later)[1..] == later;
      assert current + ([rest[0]] + rest[1..]) == current + rest;
    } else {
      RunsFlatten(current + [rest[0]], rest[1..], c);
      assert current + [rest[0]] + rest[1..] == current + rest;
    }
  }

  /** Every run starts with a value at least v. */
  predicate RunsFrom(runs: seq<seq<Row>>, c: nat, v: string) {
    forall i :: 0 <= i < |runs| ==> runs[i] != [] && Wide(runs[i], c) && CellLeq(v, runs[i][0].cells[c])
  }

  lemma OneRunMore(current: seq<Row>, later: seq<seq<Row>>, c: nat, w: string)
    requires current != [] && Wide(current, c) && Constant(current, c, current[0].cells[c])
    requires GoodRuns(later, c) && RunsFrom(later, c, w)
    requires CellLeq(current[0].cells[c], w) && w != current[0].cells[c]
    ensures GoodRuns([current] + later, c) && RunsFrom([current] + later, c, current[0].cells[c])
  {
    hide CellLeq;
    var v := current[0].cells[c];
    forall i | 0 <= i < |later|
      ensures CellLeq(v, later[i][0].cells[c]) && v != later[i][0].cells[c]
    {
      CellOrder(v, w, later[i][0].cells[c]);
      CellOrder(w, v, w);
    }
    CellOrder(v, v, "");
  }

  lemma {:induction false} RunsAreGood(current: seq<Row>, rest: seq<Row>, c: nat)
    requires Wide(current, c) && Wide(rest, c) && Ascending(rest, c)
    requires current != [] ==> Constant(current, c, current[0].cells[c])
    requires current != [] && rest != [] ==> CellLeq(current[0].cells[c], rest[0].cells[c])
    ensures GoodRuns(Runs(current, rest, c), c)
    ensures current != [] ==> RunsFrom(Runs(current, rest, c), c, current[0].cells[c])
    decreases |rest|
  {
    if rest == [] {
      if current != [] {
        CellOrder(current[0].cells[c], current[0].cells[c], "");
      }
    } else if current != [] && rest[0].cells[c] != current[0].cells[c] {
      var v, w := current[0].cells[c], rest[0].cells[c];
      var later: seq<seq<Row>> := Runs([rest[0]], rest[1..], c);
      assert Constant([rest[0]], c, w);
      RunsAreGood([rest[0]], rest[1..], c);
      OneRunMore(current, later, c, w);
    } else {
      var grown := current + [rest[0]];
      assert current == [] ==> grown[0] == rest[0];
      assert rest[1..] != [] ==> CellLeq(rest[0].cells[c], rest[1].cells[c]);
      RunsAreGood(grown, rest[1..], c);
    }
  }

  // ----- Keys over one more column -----

  lemma KeyWithColumn(row: Row, c: nat, cols: seq<nat>)
    requires Fits(row, [c] + cols)
    ensures c < |row.cells| && Fits(row, cols)
    ensures KeyOf(row, [c] + cols) == [row.cells[c]] + KeyOf(row, cols)
  {
    assert ([c] + cols)[0] == c && ([c] + cols)[1..] == cols;
    forall i | 0 <= i < |cols| ensures cols[i] < |row.cells| {
      assert ([c] + cols)[i + 1] == cols[i];
    }
  }

  lemma FitWithColumn(rows: seq<Row>, c: nat, cols: seq<nat>)
    requires AllFit(rows, cols) && Wide(rows, c)
    ensures AllFit(rows, [c] + cols)
  {
  }

  /** Filtering by a longer key is filtering by its first value, then by the rest. */
  lemma {:induction false} FilterTwice(rows: seq<Row>, c: nat, cols: seq<nat>, v: string, k: SortKey)
    requires Wide(rows, c) && AllFit(rows, [c] + cols) && AllFit(rows, cols)
    ensures AllFit(WithCell(rows, c, v), cols)
    ensures WithKey(rows, [c] + cols, [v] + k) == WithKey(WithCell(rows, c, v), cols, k)
  {
    if rows != [] {
      var rest := WithCell(rows[1..], c, v);
      FilterTwice(rows[1..], c, cols, v, k);
      KeyWithColumn(rows[0], c, cols);
      var cell, key := rows[0].cells[c], KeyOf(rows[0], cols);
      assert ([v] + k)[0] == v && ([v] + k)[1..] == k && ([cell] + key)[0] == cell && ([cell] + key)[1..] == key;
      if cell == v {
        assert ([rows[0]] + rest)[1..] == rest;
      } else {
        assert [] + rest == rest;
      }
    }
  }

  lemma {:induction false} ConstantFilter(rows: seq<Row>, c: nat, w: string, v: string)
    requires Wide(rows, c) && Constant(rows, c, w)
    ensures WithCell(rows, c, v) == if v == w then rows else []
  {
    if rows != [] {
      ConstantFilter(rows[1..], c, w, v);
      assert rows == [rows[0]] + rows[1..];
    }
  }

  /** A group that is constant in c and sorted by the other columns is sorted by all of them. */
  lemma AddConstantColumn(output: seq<Row>, input: seq<Row>, c: nat, cols: seq<nat>, w: string)
    requires StablySorted(output, input, cols) && Wide(input, c) && Constant(input, c, w)
    ensures Wide(output, c) && Constant(output, c, w)
    ensures StablySorted(output, input, [c] + cols)
  {
    SortedIsPermutation(output, input, cols);
    forall i | 0 <= i < |output| ensures c < |output[i].cells| && output[i].cells[c] == w {
      assert output[i] in multiset(output) && output[i] in input;
    }
    FitWithColumn(output, c, cols);
    FitWithColumn(input, c, cols);
    forall i, j | 0 <= i < j < |output|
      ensures LexLeq(KeyOf(output[i], [c] + cols), KeyOf(output[j], [c] + cols))
    {
      KeyWithColumn(output[i], c, cols);
      KeyWithColumn(output[j], c, cols);
      var a, b := KeyOf(output[i], cols), KeyOf(output[j], cols);
      assert ([w] + a)[1..] == a && ([w] + b)[1..] == b;
    }
    forall key: SortKey ensures WithKey(output, [c] + cols, key) == WithKey(input, [c] + cols, key) {
      ConstantSelectsAlike(output, input, c, cols, w, key);
    }
  }

  lemma ConstantSelectsAlike(output: seq<Row>, input: seq<Row>, c: nat, cols: seq<nat>, w: string, key: SortKey)
    requires AllFit(output, [c] + cols) && AllFit(input, [c] + cols) && StablySorted(output, input, cols)
    requires Wide(output, c) && Constant(output, c, w) && Wide(input, c) && Constant(input, c, w)
    ensures WithKey(output, [c] + cols, key) == WithKey(input, [c] + cols, key)
  {
    hide KeyOf, WithKey, Fits, Sorted;
    if |key| == |cols| + 1 {
      assert key == [key[0]] + key[1..];
      FilterTwice(output, c, cols, key[0], key[1..]);
      FilterTwice(input, c, cols, key[0], key[1..]);
      ConstantFilter(output, c, w, key[0]);
      ConstantFilter(input, c, w, key[0]);
    } else {
      LongKeyMatchesNothing(output, [c] + cols, key);
      LongKeyMatchesNothing(input, [c] + cols, key);
    }
  }

  ghost predicate KeysBefore(a: seq<Row>, b: seq<Row>, cols: seq<nat>)
    requires AllFit(a, cols) && AllFit(b, cols)
  {
    forall i, j :: 0 <= i < |a| && 0 <= j < |b| ==> LexLeq(KeyOf(a[i], cols), KeyOf(b[j], cols))
  }

  lemma Concatenated(a: seq<Row>, a': seq<Row>, b: seq<Row>, b': seq<Row>, cols: seq<nat>)
    requires StablySorted(a, a', cols) && StablySorted(b, b', cols) && KeysBefore(a, b, cols)
    ensures StablySorted(a + b, a' + b', cols)
  {
    hide KeyOf, LexLeq;
    forall key: SortKey ensures AllFit(a + b, cols) && AllFit(a' + b', cols) &&
                            WithKey(a + b, cols, key) == WithKey(a' + b', cols, key) {
      WithKeyAppend(a, b, cols, key);
      WithKeyAppend(a', b', cols, key);
    }
  }

  // ----- The whole recursion -----

  function Columns(header: seq<string>, groups: seq<string>): (cols: seq<nat>)
    requires forall i :: 0 <= i < |groups| ==> groups[i] in header
    ensures |cols| == |groups|
    ensures forall i :: 0 <= i < |cols| ==> cols[i] < |header|
  {
    if groups == [] then []
    else [IndexOf(header, groups[0]).value] + Columns(header, groups[1..])
  }

  predicate Known(opt: Options, groups: seq<string>) {
    forall i :: 0 <= i < |groups| ==> groups[i] in opt.header
  }

  lemma FullFits(opt: Options, rows: seq<Row>, groups: seq<string>)
    requires Full(opt, rows) && Known(opt, groups)
    ensures AllFit(rows, Columns(opt.header, groups))
  {
  }

  lemma {:induction false} FlattenMember(parts: seq<seq<Row>>, row: Row) returns (i: nat)
    requires row in Flatten(parts)
    ensures i < |parts| && row in parts[i]
  {
    if row in parts[0] {
      i := 0;
    } else {
      var k := FlattenMember(parts[1..], row);
      i := k + 1;
    }
  }

  /** Everything in the first run comes before everything in the later ones. */
  lemma FirstRunBefore(first: seq<Row>, later: seq<Row>, runs: seq<seq<Row>>, c: nat, cols: seq<nat>)
    requires runs != [] && GoodRuns(runs, c)
    requires AllFit(first, [c] + cols) && AllFit(later, [c] + cols)
    requires Constant(first, c, runs[0][0].cells[c])
    requires multiset(later) == multiset(Flatten(runs[1..]))
    ensures KeysBefore(first, later, [c] + cols)
  {
    forall i, j | 0 <= i < |first| && 0 <= j < |later|
      ensures LexLeq(KeyOf(first[i], [c] + cols), KeyOf(later[j], [c] + cols))
    {
      assert later[j] in multiset(later);
      var k := FlattenMember(runs[1..], later[j]);
      assert runs[1..][k] == runs[k + 1];
      KeyWithColumn(first[i], c, cols);
      KeyWithColumn(later[j], c, cols);
      assert later[j].cells[c] == runs[k + 1][0].cells[c];
    }
  }

  lemma {:induction false} BatchesSorted(opt: Options, rows: seq<Row>, groups: seq<string>)
    requires opt.Valid() && Full(opt, rows) && Known(opt, groups)
    ensures StablySorted(Flatten(Batches(opt, rows, groups)), rows, Columns(opt.header, groups))
    decreases |groups|, 0, 0
  {
    var output, cols := Flatten(Batches(opt, rows, groups)), Columns(opt.header, groups);
    FullFits(opt, rows, groups);
    if groups == [] {
      UngroupedFacts(opt, rows);
      assert cols == [];
    } else {
      var c := IndexOf(opt.header, groups[0]).value;
      var sorted, rest := StableSort(rows, c), Columns(opt.header, groups[1..]);
      StableSortIsStable(rows, c);
      SortAscends(rows, c);
      RunsAreGood([], sorted, c);
      RunsFlatten([], sorted, c);
      RunsSorted(opt, SortedRuns(opt, rows, c), c, groups[1..]);
      assert cols == [c] + rest && [] + sorted == sorted;
      SortRefined(output, rows, c, rest);
    }
  }

  /** Sorting by the first column does not change what the longer keys select. */
  lemma SortRefined(output: seq<Row>, rows: seq<Row>, c: nat, cols: seq<nat>)
    requires Wide(rows, c) && AllFit(rows, [c] + cols)
    requires StablySorted(output, StableSort(rows, c), [c] + cols)
    ensures StablySorted(output, rows, [c] + cols)
  {
    hide StableSort, KeyOf, Sorted, WithKey, Fits;
    var sorted := StableSort(rows, c);
    forall key: SortKey ensures WithKey(output, [c] + cols, key) == WithKey(rows, [c] + cols, key) {
      assert WithKey(output, [c] + cols, key) == WithKey(sorted, [c] + cols, key);
      SortSelectsAlike(rows, c, cols, key);
    }
  }

  lemma SortSelectsAlike(rows: seq<Row>, c: nat, cols: seq<nat>, key: SortKey)
    requires Wide(rows, c) && AllFit(rows, [c] + cols) && AllFit(StableSort(rows, c), [c] + cols)
    ensures WithKey(StableSort(rows, c), [c] + cols, key) == WithKey(rows, [c] + cols, key)
  {
    hide StableSort, KeyOf, WithKey, Fits;
    var sorted := StableSort(rows, c);
    if |key| == |cols| + 1 {
      assert key == [key[0]] + key[1..];
      ColumnDropped(sorted, c, cols);
      ColumnDropped(rows, c, cols);
      FilterTwice(sorted, c, cols, key[0], key[1..]);
      FilterTwice(rows, c, cols, key[0], key[1..]);
      SortKeeps(rows, c, key[0]);
    } else {
      LongKeyMatchesNothing(sorted, [c] + cols, key);
      LongKeyMatchesNothing(rows, [c] + cols, key);
    }
  }

  lemma ColumnDropped(rows: seq<Row>, c: nat, cols: seq<nat>)
    requires AllFit(rows, [c] + cols)
    ensures AllFit(rows, cols) && Wide(rows, c)
  {
    forall i | 0 <= i < |rows| ensures Fits(rows[i], cols) && c < |rows[i].cells| {
      KeyWithColumn(rows[i], c, cols);
    }
  }

  lemma {:induction false} RunsSorted(opt: Options, runs: seq<seq<Row>>, c: nat, groups: seq<string>)
    requires opt.Valid() && AllFull(opt, runs) && Known(opt, groups) && GoodRuns(runs, c)
    ensures StablySorted(Flatten(RunBatches(opt, runs, groups)), Flatten(runs), [c] + Columns(opt.header, groups))
    decreases |groups|, 1, |runs|
  {
    hide Batches;
    var cols := Columns(opt.header, groups);
    if runs != [] {
      var first, later := Flatten(Batches(opt, runs[0], groups)), Flatten(RunBatches(opt, runs[1..], groups));
      var w := runs[0][0].cells[c];
      BatchesSorted(opt, runs[0], groups);
      AddConstantColumn(first, runs[0], c, cols, w);
      RunsSorted(opt, runs[1..], c, groups);
      SortedIsPermutation(later, Flatten(runs[1..]), [c] + cols);
      FirstRunBefore(first, later, runs, c, cols);
      Concatenated(first, runs[0], later, Flatten(runs[1..]), [c] + cols);
      FlattenAppend(Batches(opt, runs[0], groups), RunBatches(opt, runs[1..], groups));
    }
  }

  // ----- The shape of each batch -----

  ghost predicate Agree(part: seq<Row>, c: nat) {
    exists v :: Constant(part, c, v)
  }

  /** All rows of the batch agree in every group column. */
  ghost predicate Uniform(opt: Options, part: seq<Row>, groups: seq<string>)
    requires Known(opt, groups)
  {
    forall k :: 0 <= k < |groups| ==> Agree(part, Columns(opt.header, groups)[k])
  }

  ghost predicate AllUniform(opt: Options, parts: seq<seq<Row>>, groups: seq<string>)
    requires Known(opt, groups)
  {
    forall i :: 0 <= i < |parts| ==> Uniform(opt, parts[i], groups)
  }

  lemma OneMoreUniform(opt: Options, part: seq<Row>, groups: seq<string>, v: string)
    requires Known(opt, groups) && groups != [] && Known(opt, groups[1..])
    requires Constant(part, IndexOf(opt.header, groups[0]).value, v) && Uniform(opt, part, groups[1..])
    ensures Uniform(opt, part, groups)
  {
    forall k | 0 <= k < |groups|
      ensures Agree(part, Columns(opt.header, groups)[k])
    {
      if k > 0 {
        assert Agree(part, Columns(opt.header, groups[1..])[k - 1]);
        assert Columns(opt.header, groups)[k] == Columns(opt.header, groups[1..])[k - 1];
      }
    }
  }

  lemma {:induction false} BatchShapes(opt: Options, rows: seq<Row>, groups: seq<string>)
    requires opt.Valid() && Full(opt, rows) && Known(opt, groups)
    ensures SizesBounded(opt, Batches(opt, rows, groups)) && AllUniform(opt, Batches(opt, rows, groups), groups)
    decreases |groups|, 0, 0
  {
    if groups == [] {
      UngroupedFacts(opt, rows);
    } else {
      var c := IndexOf(opt.header, groups[0]).value;
      var sorted := StableSort(rows, c);
      SortAscends(rows, c);
      RunsAreGood([], sorted, c);
      RunShapes(opt, SortedRuns(opt, rows, c), groups);
    }
  }

  lemma {:induction false} RunShapes(opt: Options, runs: seq<seq<Row>>, groups: seq<string>)
    requires opt.Valid() && AllFull(opt, runs) && Known(opt, groups) && groups != []
    requires GoodRuns(runs, IndexOf(opt.header, groups[0]).value)
    ensures SizesBounded(opt, RunBatches(opt, runs, groups[1..]))
    ensures AllUniform(opt, RunBatches(opt, runs, groups[1..]), groups)
    decreases |groups| - 1, 1, |runs|
  {
    hide Batches, Uniform;
    if runs != [] {
      var c := IndexOf(opt.header, groups[0]).value;
      var first, v := Batches(opt, runs[0], groups[1..]), runs[0][0].cells[c];
      BatchShapes(opt, runs[0], groups[1..]);
      BatchesSorted(opt, runs[0], groups[1..]);
      AddConstantColumn(Flatten(first), runs[0], c, Columns(opt.header, groups[1..]), v);
      forall i | 0 <= i < |first| ensures Uniform(opt, first[i], groups) {
        forall j | 0 <= j < |first[i]| ensures c < |first[i][j].cells| && first[i][j].cells[c] == v {
          PartOfFlatten(first, i, first[i][j]);
        }
        OneMoreUniform(opt, first[i], groups, v);
      }
      RunShapes(opt, runs[1..], groups);
    }
  }

  /**
   Grouped batching: in batch order the rows are the one stable sort of the input by the group
   columns (lexicographic, empty values last); every batch is non-empty, agrees in every group
   column, and outside one-to-many mode is no longer than the batch size.
   */
  lemma GroupedBatching(opt: Options, rows: seq<Row>, groups: seq<string>, sorted: seq<Row>)
    requires opt.Valid() && Full(opt, rows) && Known(opt, groups)
    ensures var parts, cols := Batches(opt, rows, groups), Columns(opt.header, groups);
      && (StablySorted(sorted, rows, cols) <==> sorted == Flatten(parts))
      && multiset(Flatten(parts)) == multiset(rows)
      && SizesBounded(opt, parts) && AllUniform(opt, parts, groups)
  {
    var parts, cols := Batches(opt, rows, groups), Columns(opt.header, groups);
    BatchesSorted(opt, rows, groups);
    SortedIsPermutation(Flatten(parts), rows, cols);
    BatchShapes(opt, rows, groups);
    if StablySorted(sorted, rows, cols) {
      SameSort(sorted, Flatten(parts), rows, cols);
    }
  }

  // ----- How full the batches are -----

  /** Batches are cut by size: no one-to-many mode, or no id column for it. */
  predicate BySize(opt: Options) {
    !opt.o2m || "id" !in opt.header
  }

  /** The two batches are of different groups. */
  predicate Differ(a: seq<Row>, b: seq<Row>, cols: seq<nat>) {
    a != [] && b != [] && exists k :: 0 <= k < |cols| && DifferAt(a[0], b[0], cols[k])
  }

  predicate DifferAt(a: Row, b: Row, c: nat) {
    c < |a.cells| && c < |b.cells| && a.cells[c] != b.cells[c]
  }

  /** Every batch is full, or the last of its group. */
  predicate Filled(opt: Options, parts: seq<seq<Row>>, cols: seq<nat>) {
    && (forall i :: 0 <= i < |parts| ==> 0 < |parts[i]| <= opt.batchSize)
    && (forall i :: 0 <= i < |parts| - 1 ==> |parts[i]| == opt.batchSize || Differ(parts[i], parts[i + 1], cols))
  }

  lemma {:induction false} CutFilled(opt: Options, id: nat, current: seq<Row>, rest: seq<Row>)
    requires opt.Valid() && Wide(rest, id) && !opt.o2m && |current| <= opt.batchSize
    ensures Filled(opt, Cut(opt, id, current, rest), [])
    decreases |rest|
  {
    if rest == [] {
    } else if Starts(opt, id, current, rest[0]) {
      CutFilled(opt, id, [rest[0]], rest[1..]);
    } else {
      CutFilled(opt, id, current + [rest[0]], rest[1..]);
    }
  }

  lemma MoreColumns(opt: Options, parts: seq<seq<Row>>, c: nat, cols: seq<nat>)
    requires Filled(opt, parts, cols)
    ensures Filled(opt, parts, [c] + cols)
  {
    forall i | 0 <= i < |parts| - 1 && Differ(parts[i], parts[i + 1], cols)
      ensures Differ(parts[i], parts[i + 1], [c] + cols)
    {
      var k :| 0 <= k < |cols| && DifferAt(parts[i][0], parts[i + 1][0], cols[k]);
      assert ([c] + cols)[k + 1] == cols[k];
    }
  }

  lemma FilledAppend(opt: Options, a: seq<seq<Row>>, b: seq<seq<Row>>, cols: seq<nat>)
    requires Filled(opt, a, cols) && Filled(opt, b, cols)
    requires a != [] && b != [] ==> Differ(a[|a| - 1], b[0], cols)
    ensures Filled(opt, a + b, cols)
  {
    hide Differ;
  }

  /** No batch is smaller than it need be: a batch that is not full is followed by another group, or by nothing. */
  lemma {:induction false} BatchesFilled(opt: Options, rows: seq<Row>, groups: seq<string>)
    requires opt.Valid() && Full(opt, rows) && Known(opt, groups) && BySize(opt)
    ensures Filled(opt, Batches(opt, rows, groups), Columns(opt.header, groups))
    decreases |groups|, 0, 0
  {
    if groups == [] {
      if "id" in opt.header {
        CutFilled(opt, IndexOf(opt.header, "id").value, [], rows);
      }
    } else {
      hide StableSort, Runs, Ungrouped;
      var c := IndexOf(opt.header, groups[0]).value;
      SortAscends(rows, c);
      RunsAreGood([], StableSort(rows, c), c);
      RunsFilled(opt, SortedRuns(opt, rows, c), c, groups[1..]);
      assert Columns(opt.header, groups) == [c] + Columns(opt.header, groups[1..]);
    }
  }

  lemma {:induction false} RunsFilled(opt: Options, runs: seq<seq<Row>>, c: nat, groups: seq<string>)
    requires opt.Valid() && AllFull(opt, runs) && Known(opt, groups) && BySize(opt) && GoodRuns(runs, c)
    ensures Filled(opt, RunBatches(opt, runs, groups), [c] + Columns(opt.header, groups))
    decreases |groups|, 1, |runs|
  {
    hide Batches, Columns, Filled, StablySorted;
    var cols := Columns(opt.header, groups);
    if runs == [] {
      NothingFilled(opt, [c] + cols);
    } else {
      var first, later := Batches(opt, runs[0], groups), RunBatches(opt, runs[1..], groups);
      BatchesFilled(opt, runs[0], groups);
      MoreColumns(opt, first, c, cols);
      RunsFilled(opt, runs[1..], c, groups);
      if first != [] && later != [] {
        RunsDiffer(opt, runs, c, groups);
      }
      FilledAppend(opt, first, later, [c] + cols);
    }
  }

  lemma NothingFilled(opt: Options, cols: seq<nat>)
    ensures Filled(opt, [], cols)
  {
  }

  lemma RunsDiffer(opt: Options, runs: seq<seq<Row>>, c: nat, groups: seq<string>)
    requires opt.Valid() && AllFull(opt, runs) && Known(opt, groups) && GoodRuns(runs, c) && runs != []
    requires Batches(opt, runs[0], groups) != [] && RunBatches(opt, runs[1..], groups) != []
    ensures var first, later := Batches(opt, runs[0], groups), RunBatches(opt, runs[1..], groups);
      Differ(first[|first| - 1], later[0], [c] + Columns(opt.header, groups))
  {
    hide Batches, RunBatches, Columns, StablySorted, Uniform;
    var first, later := Batches(opt, runs[0], groups), RunBatches(opt, runs[1..], groups);
    var cols := Columns(opt.header, groups);
    BatchShapes(opt, runs[0], groups);
    LaterShapes(opt, runs[1..], groups);
    BatchesSorted(opt, runs[0], groups);
    SortedIsPermutation(Flatten(first), runs[0], cols);
    RunsSorted(opt, runs[1..], c, groups);
    SortedIsPermutation(Flatten(later), Flatten(runs[1..]), [c] + cols);
    var a, b := first[|first| - 1][0], later[0][0];
    PartOfFlatten(first, |first| - 1, a);
    PartOfFlatten(later, 0, b);
    assert a in multiset(Flatten(first)) && b in multiset(Flatten(later));
    var k := FlattenMember(runs[1..], b);
    assert runs[1..][k] == runs[k + 1];
    assert ([c] + cols)[0] == c && DifferAt(a, b, c);
  }

  lemma {:induction false} LaterShapes(opt: Options, runs: seq<seq<Row>>, groups: seq<string>)
    requires opt.Valid() && AllFull(opt, runs) && Known(opt, groups)
    ensures SizesBounded(opt, RunBatches(opt, runs, groups))
  {
    hide Batches, Uniform;
    if runs != [] {
      BatchShapes(opt, runs[0], groups);
      LaterShapes(opt, runs[1..], groups);
    }
  }

  lemma SameSort(a: seq<Row>, b: seq<Row>, rows: seq<Row>, cols: seq<nat>)
    requires StablySorted(a, rows, cols) && StablySorted(b, rows, cols)
    ensures a == b
  {
    hide Sorted, KeyOf;
    assert forall key: SortKey :: WithKey(a, cols, key) == WithKey(rows, cols, key) == WithKey(b, cols, key);
    StableSortUnique(a, b, cols);
  }
}
