/**
 Pass 2: prepared `(db_id, vals)` rows are grouped by payload, cut into RPCs of at most `batch_size`
 records, packed into super-batches, re-split by the throttle, and written by a pool of workers.
 */
module PassTwo {
  import opened Basics
  import opened WireValues
  import opened Writes
  import opened LoadProtocol
  import opened PreparedWrites
  import P = Packing
  import PassOne

  type Vals = Fields<Value>

  /** The dictionary key of a payload. The source sorts the items by name, which adds nothing to a map. */
  function KeyOf(vals: Vals): Vals {
    map k | k in vals :: Hashable(vals[k])
  }

  /** What the payload looks like to the server. */
  function WireVals(vals: Vals): Vals {
    map k | k in vals :: Wire(vals[k])
  }

  /** The payload rebuilt from its key. */
  function Rebuilt(key: Vals): Option<Vals> {
    if forall k :: k in key ==> Unhashable(key[k]).Some? then
      Some(map k | k in key && Unhashable(key[k]).Some? :: Unhashable(key[k]).value)
    else None
  }

  ghost predicate AllTransportable(rows: seq<Cell<Vals>>) {
    forall i :: 0 <= i < |rows| ==> forall k :: k in rows[i].vals ==> Transportable(rows[i].vals[k])
  }

  lemma WireOfKey(vals: Vals)
    ensures WireVals(KeyOf(vals)) == WireVals(vals)
  {
    hide Hashable, Wire;
    forall k | k in vals ensures Wire(Hashable(vals[k])) == Wire(vals[k]) {
      HashableWire(vals[k]);
    }
  }

  lemma KeyRebuilds(vals: Vals)
    requires forall k :: k in vals ==> Transportable(vals[k])
    ensures Rebuilt(KeyOf(vals)) == Some(WireVals(KeyOf(vals)))
  {
    hide Transportable, Hashable, Unhashable, Wire;
    WireOfKey(vals);
    var key := KeyOf(vals);
    forall k | k in key ensures Unhashable(key[k]) == Some(Wire(vals[k])) {
      HashableRoundTrip(vals[k]);
    }
    assert Rebuilt(key).value == WireVals(vals);
  }

  // ----- Cells under a change of payload -----

  function MapCell(f: Vals -> Vals, cell: Cell<Vals>): Cell<Vals> {
    Cell(cell.id, f(cell.vals))
  }

  function MapCells(f: Vals -> Vals, cells: seq<Cell<Vals>>): (r: seq<Cell<Vals>>)
    ensures |r| == |cells|
  {
    seq(|cells|, i requires 0 <= i < |cells| => MapCell(f, cells[i]))
  }

  /** A permutation of cells is still one after the change. */
  lemma {:induction false} MapCellsBag(f: Vals -> Vals, a: seq<Cell<Vals>>, b: seq<Cell<Vals>>)
    requires multiset(a) == multiset(b)
    ensures multiset(MapCells(f, a)) == multiset(MapCells(f, b))
  {
    hide MapCells;
    if a == [] {
      assert |multiset(b)| == |b|;
      assert b == [];
    } else {
      var k := PickOut(a, b);
      MapCellsBag(f, a[1..], b[..k] + b[k + 1..]);
      PutBack(f, b, k);
      PutBack(f, a, 0);
      assert a[..0] + a[0 + 1..] == a[1..];
    }
  }

  lemma PickOut<T>(a: seq<T>, b: seq<T>) returns (k: nat)
    requires a != [] && multiset(a) == multiset(b)
    ensures k < |b| && b[k] == a[0] && multiset(a[1..]) == multiset(b[..k] + b[k + 1..])
  {
    assert a[0] in multiset(b);
    k :| 0 <= k < |b| && b[k] == a[0];
    var before, after := b[..k], b[k + 1..];
    assert b == before + [a[0]] + after && a == [] + [a[0]] + a[1..];
    Extracted(before, a[0], after);
    Extracted([], a[0], a[1..]);
    assert [] + a[1..] == a[1..];
    Cancelled(a[0], multiset(a[1..]), multiset(before + after));
  }

  lemma PutBack(f: Vals -> Vals, cells: seq<Cell<Vals>>, k: nat)
    requires k < |cells|
    ensures multiset(MapCells(f, cells))
            == multiset{MapCell(f, cells[k])} + multiset(MapCells(f, cells[..k] + cells[k + 1..]))
  {
    hide MapCells, MapCell;
    assert cells == cells[..k] + [cells[k]] + cells[k + 1..];
    MapCellsThree(f, cells[..k], cells[k], cells[k + 1..]);
    Extracted(MapCells(f, cells[..k]), MapCell(f, cells[k]), MapCells(f, cells[k + 1..]));
  }

  lemma MapCellsThree(f: Vals -> Vals, before: seq<Cell<Vals>>, cell: Cell<Vals>, after: seq<Cell<Vals>>)
    ensures MapCells(f, before + [cell] + after) == MapCells(f, before) + [MapCell(f, cell)] + MapCells(f, after)
    ensures MapCells(f, before + after) == MapCells(f, before) + MapCells(f, after)
  {
  }

  lemma Cancelled<T>(x: T, a: multiset<T>, b: multiset<T>)
    requires multiset{x} + a == multiset{x} + b
    ensures a == b
  {
    assert multiset{x} + a - multiset{x} == a && multiset{x} + b - multiset{x} == b;
  }

  lemma Extracted<T>(before: seq<T>, x: T, after: seq<T>)
    ensures multiset(before + [x] + after) == multiset{x} + multiset(before + after)
  {
  }

  // ----- The plan -----

  function KeyedRows(rows: seq<Cell<Vals>>): seq<Cell<Vals>> {
    MapCells(KeyOf, rows)
  }

  function WireRows(rows: seq<Cell<Vals>>): seq<Cell<Vals>> {
    MapCells(WireVals, rows)
  }

  /** Chunks of a group's ids, each written with the group's values. */
  function ChunkOps(chunks: seq<seq<int>>, vals: Vals): seq<Op<Vals>> {
    seq(|chunks|, i requires 0 <= i < |chunks| => Op(chunks[i], vals))
  }

  lemma {:induction false} ChunkOpsCells(chunks: seq<seq<int>>, vals: Vals)
    ensures Cells(ChunkOps(chunks, vals)) == CellsOf(Op(Flatten(chunks), vals))
  {
    if chunks != [] {
      ChunkOpsCells(chunks[1..], vals);
      assert ChunkOps(chunks, vals)[1..] == ChunkOps(chunks[1..], vals);
    }
  }

  predicate Bounded(ops: seq<Op<Vals>>, batchSize: nat) {
    forall i :: 0 <= i < |ops| ==> 0 < |ops[i].ids| <= batchSize
  }

  /** The grouping loop. */
  method GroupWrites(rows: seq<Cell<Vals>>) returns (groups: seq<Op<Vals>>)
    ensures groups == Grouped(KeyedRows(rows))
  {
    hide KeyOf, AddTo;
    groups := [];
    for i := 0 to |rows|
      invariant groups == Grouped(KeyedRows(rows[..i]))
    {
      assert KeyedRows(rows[..i + 1]) == KeyedRows(rows[..i]) + [Cell(rows[i].id, KeyOf(rows[i].vals))] by {
        assert rows[..i + 1] == rows[..i] + [rows[i]];
      }
      GroupedStep(KeyedRows(rows[..i]), Cell(rows[i].id, KeyOf(rows[i].vals)));
      groups := AddTo(groups, KeyOf(rows[i].vals), rows[i].id);
    }
    assert rows[..|rows|] == rows;
  }

  lemma GroupedStep<K>(rows: seq<Cell<K>>, cell: Cell<K>)
    ensures Grouped(rows + [cell]) == AddTo(Grouped(rows), cell.vals, cell.id)
  {
    assert (rows + [cell])[..|rows|] == rows;
  }

  /** Each group's values come back from its key. */
  ghost predicate AllRebuild(groups: seq<Op<Vals>>) {
    forall i :: 0 <= i < |groups| ==> Rebuilt(groups[i].vals) == Some(WireVals(groups[i].vals))
  }

  lemma AllRebuilt(rows: seq<Cell<Vals>>)
    requires AllTransportable(rows)
    ensures AllRebuild(Grouped(KeyedRows(rows)))
  {
    hide Rebuilt, WireVals, KeyOf, Grouped, Cells, CellsOf;
    var groups := Grouped(KeyedRows(rows));
    GroupedKeepsRows(KeyedRows(rows));
    forall i | 0 <= i < |groups|
      ensures Rebuilt(groups[i].vals) == Some(WireVals(groups[i].vals))
    {
      var cell := CellsOf(groups[i])[0];
      CellAmong(groups, i);
      assert cell in multiset(Cells(groups));
      var k :| 0 <= k < |rows| && KeyedRows(rows)[k] == cell;
      KeyRebuilds(rows[k].vals);
    }
  }

  lemma CellAmong(groups: seq<Op<Vals>>, i: nat)
    requires i < |groups| && groups[i].ids != []
    ensures CellsOf(groups[i])[0] in Cells(groups) && CellsOf(groups[i])[0].vals == groups[i].vals
  {
    hide Cells;
    assert groups == groups[..i] + [groups[i]] + groups[i + 1..];
    CellsOfThree(groups[..i], groups[i], groups[i + 1..]);
  }

  /** Writes of one payload, all of the full size but the last. */
  predicate FullWrites(ops: seq<Op<Vals>>, batchSize: nat) {
    && (forall i :: 0 <= i < |ops| ==> ops[i].vals == ops[0].vals)
    && (forall i :: 0 <= i < |ops| - 1 ==> |ops[i].ids| == batchSize)
  }

  /** The individual writes; None when a payload cannot be rebuilt, which ends the run with a TypeError. */
  method IndividualWrites(rows: seq<Cell<Vals>>, batchSize: nat)
    returns (ops: Option<seq<Op<Vals>>>, ghost pieces: seq<seq<Op<Vals>>>)
    requires batchSize >= 1
    ensures ops.Some? ==> ops.value == Flatten(pieces) && |pieces| == |Grouped(KeyedRows(rows))|
    ensures forall i: nat :: i < |pieces| ==> ops.Some? ==> FullWrites(pieces[i], batchSize)
    ensures AllTransportable(rows) ==>
              && ops.Some? && Bounded(ops.value, batchSize)
              && multiset(Cells(ops.value)) == multiset(WireRows(rows))
  {
    hide Rebuilt, WireVals, KeyOf, Grouped, Cells, CellsOf, AllTransportable, Chunks, MapCells, KeyedRows, WireRows,
         FullWrites, ChunkOps;
    var groups := GroupWrites(rows);
    var writes: seq<Op<Vals>> := [];
    pieces := [];
    ghost var expected := AllTransportable(rows);
    if expected {
      AllRebuilt(rows);
    }
    NoCells();
    for i := 0 to |groups|
      invariant writes == Flatten(pieces) && |pieces| == i
      invariant forall k: nat :: k < i ==> FullWrites(pieces[k], batchSize)
      invariant expected ==> Bounded(writes, batchSize) && Cells(writes) == MapCells(WireVals, Cells(groups[..i]))
    {
      var vals := Rebuilt(groups[i].vals);
      if vals.None? {
        return None, pieces;
      }
      var chunks := Chunks(groups[i].ids, batchSize);
      if expected {
        GroupStep(groups[..i], groups[i], writes, chunks, vals.value);
      }
      assert groups[..i + 1] == groups[..i] + [groups[i]];
      PieceIsFull(chunks, vals.value, batchSize);
      FlattenAppend(pieces, [ChunkOps(chunks, vals.value)]);
      FlattenOne(ChunkOps(chunks, vals.value));
      writes, pieces := writes + ChunkOps(chunks, vals.value), pieces + [ChunkOps(chunks, vals.value)];
    }
    assert groups[..|groups|] == groups;
    GroupedKeepsRows(KeyedRows(rows));
    MapCellsBag(WireVals, Cells(groups), KeyedRows(rows));
    WireOfKeyed(rows);
    return Some(writes), pieces;
  }

  lemma PieceIsFull(chunks: seq<seq<int>>, vals: Vals, batchSize: nat)
    requires forall i :: 0 <= i < |chunks| - 1 ==> |chunks[i]| == batchSize
    requires forall i :: 0 <= i < |chunks| ==> 0 < |chunks[i]| <= batchSize
    ensures FullWrites(ChunkOps(chunks, vals), batchSize) && Bounded(ChunkOps(chunks, vals), batchSize)
  {
  }

  lemma NoCells()
    ensures Cells<Vals>([]) == MapCells(WireVals, Cells([]))
  {
  }

  lemma GroupStep(before: seq<Op<Vals>>, group: Op<Vals>, writes: seq<Op<Vals>>, chunks: seq<seq<int>>, vals: Vals)
    requires Cells(writes) == MapCells(WireVals, Cells(before))
    requires Flatten(chunks) == group.ids && vals == WireVals(group.vals)
    ensures Cells(writes + ChunkOps(chunks, vals)) == MapCells(WireVals, Cells(before + [group]))
  {
    hide Cells, WireVals;
    CellsAppend(writes, ChunkOps(chunks, vals));
    ChunkOpsCells(chunks, vals);
    CellsAppend(before, [group]);
    CellsOne(group);
    assert CellsOf(Op(group.ids, vals)) == MapCells(WireVals, CellsOf(group));
    var a, b := Cells(before), CellsOf(group);
    assert MapCells(WireVals, a + b) == MapCells(WireVals, a) + MapCells(WireVals, b);
  }

  lemma WireOfKeyed(rows: seq<Cell<Vals>>)
    ensures MapCells(WireVals, KeyedRows(rows)) == WireRows(rows)
  {
    hide WireVals, KeyOf;
    forall i | 0 <= i < |rows| ensures WireVals(KeyOf(rows[i].vals)) == WireVals(rows[i].vals) {
      WireOfKey(rows[i].vals);
    }
  }

  // ----- Super-batches -----

  /** A write counts for its records. */
  function Records(op: Op<Vals>): nat {
    |op.ids|
  }

  /** The packing loop; the super-batches are the greedy packing of the writes. */
  method PackWrites(ops: seq<Op<Vals>>, batchSize: nat, maxBytes: int, size: Op<Vals> -> nat)
    returns (batches: seq<seq<Op<Vals>>>)
    ensures P.BatchItems(batches, Records, size) == P.Greedy(P.Limits(batchSize, maxBytes), P.Items(ops, Records, size))
    ensures Flatten(batches) == ops
    ensures P.Tight(batches, batchSize, maxBytes, Records, size)
  {
    hide P.Packed, P.Count, P.Bytes, P.Items, P.BatchItems, P.Greedy, P.Tight, Flatten;
    ghost var lim := P.Limits(batchSize, maxBytes);
    batches := [];
    var current: seq<Op<Vals>>, currentCount: nat, currentBytes: nat := [], 0, 0;
    P.NothingTaken(lim, Records, size);
    for i := 0 to |ops|
      invariant currentCount == P.Count(P.Items(current, Records, size))
      invariant currentBytes == P.Bytes(P.Items(current, Records, size))
      invariant P.Packed(lim, ops[..i], batches, current, Records, size)
    {
      var op, opSize := ops[i], size(ops[i]);
      assert ops[..i + 1] == ops[..i] + [op];
      P.Take(lim, batches, current, op, ops[..i], Records, size);
      if (currentCount + |op.ids| > batchSize && current != [])
         || (maxBytes > 0 && currentBytes + opSize > maxBytes && current != [])
      {
        batches := batches + [current];
        current, currentCount, currentBytes := [], 0, 0;
        assert [] + [op] == [op];
      }
      current, currentCount, currentBytes := current + [op], currentCount + |op.ids|, currentBytes + opSize;
    }
    assert ops[..|ops|] == ops;
    P.AllTaken(lim, ops, batches, current, Records, size);
    if current != [] {
      batches := batches + [current];
    }
    P.GreedyIsTight(batches, ops, lim, Records, size);
  }

  // ----- The pass -----

  /** What the workers are given performs the prepared rows: each row once, nothing else. */
  method PlanPass2(rows: seq<Cell<Vals>>, batchSize: nat, maxBytes: int, size: Op<Vals> -> nat, sizes: nat -> nat)
    returns (plan: Option<seq<seq<Op<Vals>>>>)
    requires batchSize >= 1 && forall i: nat :: sizes(i) >= 1
    ensures AllTransportable(rows) ==> plan.Some? && Performs(plan.value, WireRows(rows))
    ensures AllTransportable(rows) ==> Bounded(Flatten(plan.value), batchSize)
  {
    hide AllTransportable, WireRows, Bounded, Cells;
    var ops, _ := IndividualWrites(rows, batchSize);
    if ops.None? {
      return None;
    }
    var batches := PackWrites(ops.value, batchSize, maxBytes, size);
    var futures, _ := PassOne.Submit(batches, sizes);
    CellsOfParts(futures);
    return Some(futures);
  }

  lemma WireRowsDistinct(rows: seq<Cell<Vals>>)
    requires DistinctIds(rows)
    ensures DistinctIds(WireRows(rows))
  {
  }

  /**
   Pass 2 is confluent: grouping, chunking, packing, throttle re-splits, the interleaving of the workers
   and hidden commits of timed-out attempts leave the store that applying the prepared rows one by one
   leaves, when no write is reported as failed.
   */
  lemma PassTwoIsConfluent(rows: seq<Cell<Vals>>, plan: seq<seq<Op<Vals>>>, start: Store<Value>, events: seq<Event>,
                           q: Pool<Value>)
    requires DistinctIds(rows) && Performs(plan, WireRows(rows))
    requires Run(Started(plan, start), events, q) && Finished(q) && NothingFailed(q)
    ensures q.store == ApplyRows(start, WireRows(rows))
    ensures |events| <= 4 * |Flatten(plan)|
  {
    hide WireRows, Run, Finished, Performs;
    WireRowsDistinct(rows);
    Confluence(plan, WireRows(rows), start, events, q);
    PassReconciles(plan, WireRows(rows), start, events, q);
  }

  lemma PreparedIsReady(cfg: Config, links: Links, columns: seq<Deferred>, rows: seq<Row>)
    requires WellKeyed(cfg, rows) && Injective(links.idMap)
    ensures AllTransportable(Prepared(cfg, links, columns, rows)) && DistinctIds(Prepared(cfg, links, columns, rows))
  {
    hide Transportable, RowVals, Prepared, Loaded;
    PreparedIsSound(cfg, links, columns, rows);
    var prepared := Prepared(cfg, links, columns, rows);
    forall i | 0 <= i < |prepared| ensures forall k :: k in prepared[i].vals ==> Transportable(prepared[i].vals[k]) {
      assert OfSomeRow(cfg, links, columns, rows, prepared[i]);
      var n :| 0 <= n < |rows| && prepared[i].vals == RowVals(links, columns, rows[n]);
      ValsTransportable(links, columns, rows[n]);
    }
  }

  /**
   `_orchestrate_pass_2` up to the thread pool, on rows with distinct sanitised ids: it never fails, and
   the workers are given each prepared row once and nothing else.
   */
  method OrchestratePass2(cfg: Config, links: Links, deferred: seq<string>, many2many: set<string>, rows: seq<Row>,
                          batchSize: nat, maxBytes: int, size: Op<Vals> -> nat, sizes: nat -> nat)
    returns (plan: seq<seq<Op<Vals>>>)
    requires WellKeyed(cfg, rows) && Injective(links.idMap)
    requires batchSize >= 1 && forall i: nat :: sizes(i) >= 1
    ensures var columns := DeferredColumns(cfg.header, |cfg.header|, deferred, many2many);
      && Performs(plan, WireRows(Prepared(cfg, links, columns, rows)))
      && DistinctIds(WireRows(Prepared(cfg, links, columns, rows)))
  {
    hide Prepared, Performs, WireRows, Bounded, AllTransportable, DeferredColumns;
    ghost var columns := DeferredColumns(cfg.header, |cfg.header|, deferred, many2many);
    PreparedIsReady(cfg, links, columns, rows);
    WireRowsDistinct(Prepared(cfg, links, columns, rows));
    var prepared := PreparePass2Data(cfg, links, deferred, many2many, rows);
    var planned := PlanPass2(prepared, batchSize, maxBytes, size, sizes);
    plan := planned.value;
  }
}
