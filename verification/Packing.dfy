/**
 Greedy packing by record count and payload size: the streaming batcher `_stream_csv_batches` and the
 super-batches of `_orchestrate_pass_2`. A part may exceed the limits only by being a single item.
 */
module Packing {
  import opened Basics
  import opened LoadProtocol

  /** `maxBytes` of 0 or less disables the size limit. */
  datatype Limits = Limits(maxCount: nat, maxBytes: int)

  /** An item as the packer sees it. */
  datatype Item<T> = Item(value: T, count: nat, bytes: nat)

  function Count<T>(items: seq<Item<T>>): nat {
    if items == [] then 0 else Count(items[..|items| - 1]) + items[|items| - 1].count
  }

  function Bytes<T>(items: seq<Item<T>>): nat {
    if items == [] then 0 else Bytes(items[..|items| - 1]) + items[|items| - 1].bytes
  }

  predicate Fits<T>(lim: Limits, part: seq<Item<T>>) {
    Count(part) <= lim.maxCount && (lim.maxBytes <= 0 || Bytes(part) <= lim.maxBytes)
  }

  /** A part that obeys the limits, or a single item. */
  predicate Legal<T>(lim: Limits, part: seq<Item<T>>) {
    part != [] && (|part| == 1 || Fits(lim, part))
  }

  ghost predicate LegalPartition<T>(lim: Limits, items: seq<Item<T>>, parts: seq<seq<Item<T>>>) {
    Flatten(parts) == items && forall i :: 0 <= i < |parts| ==> Legal(lim, parts[i])
  }

  /** The loop variables: the parts already closed and the part under way. */
  datatype State<T> = State(closed: seq<seq<Item<T>>>, current: seq<Item<T>>)

  function Add<T>(lim: Limits, st: State<T>, item: Item<T>): State<T> {
    if st.current != [] && !Fits(lim, st.current + [item]) then State(st.closed + [st.current], [item])
    else State(st.closed, st.current + [item])
  }

  function Loop<T>(lim: Limits, items: seq<Item<T>>): State<T> {
    if items == [] then State([], []) else Add(lim, Loop(lim, items[..|items| - 1]), items[|items| - 1])
  }

  /** The packing: closed parts and, when there is one, the part under way. */
  function Greedy<T>(lim: Limits, items: seq<Item<T>>): seq<seq<Item<T>>> {
    var st := Loop(lim, items);
    if st.current == [] then st.closed else st.closed + [st.current]
  }

  /** The same packing seen from the items still to come. */
  function Pack<T>(lim: Limits, current: seq<Item<T>>, rest: seq<Item<T>>): seq<seq<Item<T>>>
    decreases |rest|
  {
    if rest == [] then if current == [] then [] else [current]
    else if current != [] && !Fits(lim, current + [rest[0]]) then [current] + Pack(lim, [rest[0]], rest[1..])
    else Pack(lim, current + [rest[0]], rest[1..])
  }

  lemma {:induction false} LoopIsPack<T>(lim: Limits, items: seq<Item<T>>, rest: seq<Item<T>>)
    ensures Loop(lim, items).closed + Pack(lim, Loop(lim, items).current, rest) == Pack(lim, [], items + rest)
  {
    hide Fits;
    if items == [] {
      assert items + rest == rest;
    } else {
      var init, item := items[..|items| - 1], items[|items| - 1];
      var st, more := Loop(lim, init), [item] + rest;
      assert items + rest == init + more && more[1..] == rest;
      LoopIsPack(lim, init, more);
      if st.current != [] && !Fits(lim, st.current + [item]) {
        assert st.closed + ([st.current] + Pack(lim, [item], rest))
            == st.closed + [st.current] + Pack(lim, [item], rest);
      }
    }
  }

  lemma GreedyIsPack<T>(lim: Limits, items: seq<Item<T>>)
    ensures Greedy(lim, items) == Pack(lim, [], items)
  {
    LoopIsPack(lim, items, []);
    assert items + [] == items;
  }

  lemma {:induction false} PackIsLegal<T>(lim: Limits, current: seq<Item<T>>, rest: seq<Item<T>>)
    requires current == [] || Legal(lim, current)
    ensures LegalPartition(lim, current + rest, Pack(lim, current, rest))
    decreases |rest|
  {
    hide Fits;
    if rest == [] {
      FlattenOne(current);
      assert current + rest == current;
    } else if current != [] && !Fits(lim, current + [rest[0]]) {
      var later := Pack(lim, [rest[0]], rest[1..]);
      PackIsLegal(lim, [rest[0]], rest[1..]);
      assert ([current] + later)[1..] == later;
      assert current + ([rest[0]] + rest[1..]) == current + rest;
    } else {
      PackIsLegal(lim, current + [rest[0]], rest[1..]);
      assert current + [rest[0]] + rest[1..] == current + rest;
    }
  }

  lemma {:induction false} SumsAppend<T>(a: seq<Item<T>>, b: seq<Item<T>>)
    ensures Count(a + b) == Count(a) + Count(b) && Bytes(a + b) == Bytes(a) + Bytes(b)
  {
    if b == [] {
      assert a + b == a;
    } else {
      SumsAppend(a, b[..|b| - 1]);
      assert (a + b)[..|a + b| - 1] == a + b[..|b| - 1];
    }
  }

  /** A segment of a part that fits also fits. */
  lemma SegmentFits<T>(lim: Limits, part: seq<Item<T>>, i: nat, j: nat)
    requires Fits(lim, part) && i <= j <= |part|
    ensures Fits(lim, part[i..j])
  {
    SumsAppend(part[..i], part[i..j]);
    SumsAppend(part[..j], part[j..]);
    assert part[..i] + part[i..j] == part[..j];
    assert part[..j] + part[j..] == part;
  }

  ghost predicate IsSuffix<T>(s: seq<T>, t: seq<T>) {
    |s| <= |t| && t[|t| - |s|..] == s
  }

  /** If the first part reaches into `rest`, it contains `current` and one item more, so those fit. */
  lemma StartsInside<T>(lim: Limits, first: seq<Item<T>>, tail: seq<Item<T>>, current: seq<Item<T>>, rest: seq<Item<T>>)
    requires current != [] && rest != [] && Legal(lim, first) && |tail| < |rest|
    requires IsSuffix(current + rest, first + tail)
    ensures Fits(lim, current + [rest[0]])
  {
    hide Fits;
    var whole := first + tail;
    var at := |whole| - |current + rest|;
    assert whole[at..] == current + rest;
    assert (current + rest)[..|current| + 1] == current + [rest[0]];
    assert whole[at..][..|current| + 1] == whole[at..at + |current| + 1] == first[at..at + |current| + 1];
    SegmentFits(lim, first, at, at + |current| + 1);
  }

  lemma RestFollows<T>(first: seq<T>, tail: seq<T>, current: seq<T>, rest: seq<T>)
    requires |rest| <= |tail| && IsSuffix(current + rest, first + tail)
    ensures IsSuffix(rest, tail)
  {
    var whole := first + tail;
    var at := |whole| - |current + rest|;
    assert tail[|tail| - |rest|..] == whole[|whole| - |rest|..] == whole[at..][|current|..] == rest;
  }

  /** Greedy stays ahead: it needs no more parts for what is left than any legal partition ending the same way. */
  lemma {:induction false} StaysAhead<T>(lim: Limits, current: seq<Item<T>>, rest: seq<Item<T>>,
                                         parts: seq<seq<Item<T>>>)
    requires current != [] && IsSuffix(current + rest, Flatten(parts))
    requires LegalPartition(lim, Flatten(parts), parts)
    ensures |Pack(lim, current, rest)| <= |parts|
    decreases |rest|, |parts|
  {
    hide Fits;
    var first, later := parts[0], parts[1..];
    var whole, tail := Flatten(parts), Flatten(later);
    assert whole == first + tail;
    var n := |current + rest|;
    if n <= |tail| {
      assert IsSuffix(current + rest, tail);
      StaysAhead(lim, current, rest, later);
    } else if rest == [] {
    } else if Fits(lim, current + [rest[0]]) {
      assert current + [rest[0]] + rest[1..] == current + rest;
      StaysAhead(lim, current + [rest[0]], rest[1..], parts);
    } else {
      var at := |whole| - n;
      assert whole[at..] == current + rest;
      if |tail| < |rest| {
        StartsInside(lim, first, tail, current, rest);
        assert false;
      }
      RestFollows(first, tail, current, rest);
      assert rest == [rest[0]] + rest[1..];
      StaysAhead(lim, [rest[0]], rest[1..], later);
    }
  }

  /**
   The greedy packing is an order-preserving partition into legal parts, and no order-preserving
   partition into legal parts has fewer.
   */
  lemma GreedyIsOptimal<T>(lim: Limits, items: seq<Item<T>>, parts: seq<seq<Item<T>>>)
    requires LegalPartition(lim, items, parts)
    ensures LegalPartition(lim, items, Greedy(lim, items))
    ensures |Greedy(lim, items)| <= |parts|
  {
    GreedyIsPack(lim, items);
    assert [] + items == items;
    PackIsLegal(lim, [], items);
    if items != [] {
      assert [items[0]] + items[1..] == items && items[|items| - |items|..] == items;
      StaysAhead(lim, [items[0]], items[1..], parts);
      assert [] + [items[0]] == [items[0]];
    }
  }

  // ----- The packing loop over any kind of element -----

  function Items<T>(xs: seq<T>, count: T -> nat, size: T -> nat): (items: seq<Item<T>>)
    ensures |items| == |xs|
  {
    seq(|xs|, i requires 0 <= i < |xs| => Item(xs[i], count(xs[i]), size(xs[i])))
  }

  function BatchItems<T>(batches: seq<seq<T>>, count: T -> nat, size: T -> nat): seq<seq<Item<T>>> {
    seq(|batches|, i requires 0 <= i < |batches| => Items(batches[i], count, size))
  }

  lemma ItemsExtend<T>(xs: seq<T>, x: T, count: T -> nat, size: T -> nat)
    ensures Items(xs + [x], count, size) == Items(xs, count, size) + [Item(x, count(x), size(x))]
  {
  }

  lemma LoopExtend<T>(lim: Limits, items: seq<Item<T>>, item: Item<T>)
    ensures Loop(lim, items + [item]) == Add(lim, Loop(lim, items), item)
  {
    assert (items + [item])[..|items|] == items;
  }

  /** The loop variables after the elements `taken`. */
  ghost predicate Packed<T>(lim: Limits, taken: seq<T>, batches: seq<seq<T>>, current: seq<T>, count: T -> nat,
                            size: T -> nat) {
    && Loop(lim, Items(taken, count, size)) == State(BatchItems(batches, count, size), Items(current, count, size))
    && Flatten(batches) + current == taken
  }

  lemma NothingTaken<T>(lim: Limits, count: T -> nat, size: T -> nat)
    ensures Packed(lim, [], [], [], count, size)
    ensures Count(Items([], count, size)) == 0 && Bytes(Items([], count, size)) == 0
  {
  }

  lemma CloseBatch<T>(batches: seq<seq<T>>, current: seq<T>, count: T -> nat, size: T -> nat)
    ensures Flatten(batches + [current]) == Flatten(batches) + current
    ensures BatchItems(batches + [current], count, size)
            == BatchItems(batches, count, size) + [Items(current, count, size)]
  {
    FlattenAppend(batches, [current]);
    FlattenOne(current);
  }

  /** One more element: it joins the batch under way, or opens the next one when it does not fit. */
  lemma Take<T>(lim: Limits, batches: seq<seq<T>>, current: seq<T>, x: T, taken: seq<T>, count: T -> nat,
                size: T -> nat)
    requires Packed(lim, taken, batches, current, count, size)
    ensures var items := Items(current, count, size);
      var full := current != [] && (Count(items) + count(x) > lim.maxCount
                                    || (lim.maxBytes > 0 && Bytes(items) + size(x) > lim.maxBytes));
      if full then Packed(lim, taken + [x], batches + [current], [x], count, size)
      else Packed(lim, taken + [x], batches, current + [x], count, size)
    ensures Bytes(Items(current + [x], count, size)) == Bytes(Items(current, count, size)) + size(x)
    ensures Count(Items(current + [x], count, size)) == Count(Items(current, count, size)) + count(x)
    ensures Bytes(Items([x], count, size)) == size(x) && Count(Items([x], count, size)) == count(x)
  {
    hide Loop, Flatten, BatchItems;
    var item, items := Item(x, count(x), size(x)), Items(current, count, size);
    SumsAppend(items, [item]);
    assert [item][..0] == [];
    ItemsExtend(current, x, count, size);
    ItemsExtend(taken, x, count, size);
    assert Items([x], count, size) == [item];
    LoopExtend(lim, Items(taken, count, size), item);
    CloseBatch(batches, current, count, size);
  }

  /** The loop's result once the batch under way is closed. */
  lemma AllTaken<T>(lim: Limits, taken: seq<T>, batches: seq<seq<T>>, current: seq<T>, count: T -> nat, size: T -> nat)
    requires Packed(lim, taken, batches, current, count, size)
    ensures var all := if current == [] then batches else batches + [current];
      BatchItems(all, count, size) == Greedy(lim, Items(taken, count, size)) && Flatten(all) == taken
  {
    hide Loop;
    CloseBatch(batches, current, count, size);
  }

  // ----- What the batches look like -----

  function Total<T>(xs: seq<T>, f: T -> nat): nat {
    if xs == [] then 0 else Total(xs[..|xs| - 1], f) + f(xs[|xs| - 1])
  }

  /** The batch would be over a limit with the element added. */
  predicate Overflows<T>(batch: seq<T>, x: T, maxCount: nat, maxBytes: int, count: T -> nat, size: T -> nat) {
    Total(batch, count) + count(x) > maxCount || (maxBytes > 0 && Total(batch, size) + size(x) > maxBytes)
  }

  /** Within both limits, or a single element. */
  predicate Within<T>(batch: seq<T>, maxCount: nat, maxBytes: int, count: T -> nat, size: T -> nat) {
    || |batch| == 1
    || (Total(batch, count) <= maxCount && (maxBytes > 0 ==> Total(batch, size) <= maxBytes))
  }

  /** No batch is over a limit unless it is a single element, and none had room for the element after it. */
  predicate Tight<T>(batches: seq<seq<T>>, maxCount: nat, maxBytes: int, count: T -> nat, size: T -> nat) {
    && (forall i :: 0 <= i < |batches| ==> batches[i] != [] && Within(batches[i], maxCount, maxBytes, count, size))
    && (forall i: nat :: i + 1 < |batches| ==> NoRoom(batches, i, maxCount, maxBytes, count, size))
  }

  predicate NoRoom<T>(batches: seq<seq<T>>, i: nat, maxCount: nat, maxBytes: int, count: T -> nat, size: T -> nat)
    requires i + 1 < |batches|
  {
    batches[i + 1] != [] && Overflows(batches[i], batches[i + 1][0], maxCount, maxBytes, count, size)
  }

  lemma {:induction false} TotalIs<T>(xs: seq<T>, count: T -> nat, size: T -> nat)
    ensures Count(Items(xs, count, size)) == Total(xs, count) && Bytes(Items(xs, count, size)) == Total(xs, size)
  {
    if xs != [] {
      var init := xs[..|xs| - 1];
      TotalIs(init, count, size);
      assert Items(xs, count, size)[..|xs| - 1] == Items(init, count, size);
    }
  }

  /** Each part of the packing is legal and does not fit together with the first item of the next one. */
  predicate Closed<T>(lim: Limits, parts: seq<seq<Item<T>>>) {
    && (forall i :: 0 <= i < |parts| ==> Legal(lim, parts[i]))
    && (forall i: nat :: i + 1 < |parts| ==> ClosedAt(lim, parts, i))
  }

  predicate ClosedAt<T>(lim: Limits, parts: seq<seq<Item<T>>>, i: nat)
    requires i + 1 < |parts|
  {
    parts[i + 1] != [] && !Fits(lim, parts[i] + [parts[i + 1][0]])
  }

  lemma {:induction false} PackIsClosed<T>(lim: Limits, current: seq<Item<T>>, rest: seq<Item<T>>)
    requires current == [] || Legal(lim, current)
    ensures Closed(lim, Pack(lim, current, rest))
    ensures current != [] ==> Pack(lim, current, rest) != [] && current <= Pack(lim, current, rest)[0]
    decreases |rest|
  {
    hide Fits;
    if rest == [] {
    } else if current != [] && !Fits(lim, current + [rest[0]]) {
      var later := Pack(lim, [rest[0]], rest[1..]);
      PackIsClosed(lim, [rest[0]], rest[1..]);
      forall i: nat | i + 1 < |later| + 1 ensures ClosedAt(lim, [current] + later, i) {
        assert i > 0 ==> ClosedAt(lim, later, i - 1);
      }
    } else {
      PackIsClosed(lim, current + [rest[0]], rest[1..]);
    }
  }

  lemma GreedyIsTight<T>(batches: seq<seq<T>>, xs: seq<T>, lim: Limits, count: T -> nat, size: T -> nat)
    requires BatchItems(batches, count, size) == Greedy(lim, Items(xs, count, size))
    ensures Tight(batches, lim.maxCount, lim.maxBytes, count, size)
  {
    var items, parts := Items(xs, count, size), BatchItems(batches, count, size);
    GreedyIsPack(lim, items);
    PackIsClosed(lim, [], items);
    hide Greedy, Pack, Count, Bytes, Total;
    forall i | 0 <= i < |batches|
      ensures batches[i] != [] && Within(batches[i], lim.maxCount, lim.maxBytes, count, size)
    {
      assert Legal(lim, parts[i]) && parts[i] == Items(batches[i], count, size);
      TotalIs(batches[i], count, size);
    }
    forall i: nat | i + 1 < |batches|
      ensures NoRoom(batches, i, lim.maxCount, lim.maxBytes, count, size)
    {
      assert ClosedAt(lim, parts, i);
      var next := batches[i + 1][0];
      assert parts[i] == Items(batches[i], count, size) && parts[i + 1] == Items(batches[i + 1], count, size);
      TotalIs(batches[i], count, size);
      OneItem(parts[i], parts[i + 1][0]);
    }
  }

  lemma OneItem<T>(items: seq<Item<T>>, item: Item<T>)
    ensures Count(items + [item]) == Count(items) + item.count && Bytes(items + [item]) == Bytes(items) + item.bytes
  {
    assert (items + [item])[..|items|] == items;
  }

  // ----- _stream_csv_batches -----

  /** Rows the stream skips: with an ignore list, those too short for the kept columns. */
  predicate Skipped(cfg: Config, row: Row)
    requires cfg.ignore != [] ==> Kept(cfg, SinglePath) != []
  {
    cfg.ignore != [] && |row.cells| < Kept(cfg, SinglePath)[|Kept(cfg, SinglePath)| - 1] + 1
  }

  function Streamed(cfg: Config, rows: seq<Row>): seq<Row>
    requires cfg.ignore != [] ==> Kept(cfg, SinglePath) != []
  {
    if rows == [] then []
    else
      var init, last := Streamed(cfg, rows[..|rows| - 1]), rows[|rows| - 1];
      if Skipped(cfg, last) then init
      else if cfg.ignore == [] then init + [last]
      else init + [Row(Project(last.cells, Kept(cfg, SinglePath)))]
  }

  /** A row counts for one. */
  function One(row: Row): nat {
    1
  }

  lemma {:induction false} OneEachRow(rows: seq<Row>, size: Row -> nat)
    ensures Count(Items(rows, One, size)) == |rows|
  {
    if rows != [] {
      var init, last := rows[..|rows| - 1], rows[|rows| - 1];
      OneEachRow(init, size);
      assert rows == init + [last];
      ItemsExtend(init, last, One, size);
      SumsAppend(Items(init, One, size), [Item(last, 1, size(last))]);
      assert [Item(last, 1, size(last))][..0] == [];
    }
  }

  /** Batches within both limits, a single row excepted, each full or without room for the row after it. */
  predicate RowsTight(batches: seq<seq<Row>>, batchSize: nat, maxBytes: int, size: Row -> nat) {
    && (forall i :: 0 <= i < |batches| ==>
          && 0 < |batches[i]| <= batchSize
          && (maxBytes > 0 && |batches[i]| > 1 ==> Total(batches[i], size) <= maxBytes))
    && (forall i: nat :: i + 1 < |batches| ==> RowsFull(batches, i, batchSize, maxBytes, size))
  }

  predicate RowsFull(batches: seq<seq<Row>>, i: nat, batchSize: nat, maxBytes: int, size: Row -> nat)
    requires i + 1 < |batches|
  {
    || |batches[i]| == batchSize
    || (maxBytes > 0 && batches[i + 1] != [] && Total(batches[i], size) + size(batches[i + 1][0]) > maxBytes)
  }

  /** The generator; the batches it yields are the greedy packing of the rows it does not skip. */
  method StreamCsvBatches(cfg: Config, rows: seq<Row>, batchSize: nat, maxBytes: int, size: Row -> nat)
    returns (batches: seq<seq<Row>>)
    requires batchSize >= 1 && (cfg.ignore != [] ==> Kept(cfg, SinglePath) != [])
    ensures Flatten(batches) == Streamed(cfg, rows)
    ensures BatchItems(batches, One, size) == Greedy(Limits(batchSize, maxBytes), Items(Streamed(cfg, rows), One, size))
    ensures RowsTight(batches, batchSize, maxBytes, size)
  {
    hide RowsTight, Tight, KeptFrom, Packed, Count, Bytes, Items, BatchItems, Greedy, Flatten;
    ghost var lim := Limits(batchSize, maxBytes);
    ghost var taken: seq<Row> := [];
    batches := [];
    var current: seq<Row>, currentBytes: nat := [], 0;
    NothingTaken(lim, One, size);
    for i := 0 to |rows|
      invariant taken == Streamed(cfg, rows[..i])
      invariant currentBytes == Bytes(Items(current, One, size))
      invariant Packed(lim, taken, batches, current, One, size)
    {
      assert rows[..i + 1][..i] == rows[..i];
      if !Skipped(cfg, rows[i]) {
        var row := if cfg.ignore == [] then rows[i] else Row(Project(rows[i].cells, Kept(cfg, SinglePath)));
        var rowSize := size(row);
        OneEachRow(current, size);
        Take(lim, batches, current, row, taken, One, size);
        if (maxBytes > 0 && currentBytes + rowSize > maxBytes && current != []) || |current| >= batchSize {
          batches := batches + [current];
          current, currentBytes := [], 0;
          NothingTaken(lim, One, size);
          assert [] + [row] == [row];
        }
        current, currentBytes := current + [row], currentBytes + rowSize;
        taken := taken + [row];
      }
    }
    assert rows[..|rows|] == rows;
    AllTaken(lim, taken, batches, current, One, size);
    if current != [] {
      batches := batches + [current];
    }
    GreedyIsTight(batches, Streamed(cfg, rows), lim, One, size);
    CountsOne(batches, batchSize, maxBytes, size);
  }

  lemma {:induction false} OneIsOne(rows: seq<Row>)
    ensures Total(rows, One) == |rows|
  {
    if rows != [] {
      OneIsOne(rows[..|rows| - 1]);
    }
  }

  lemma CountsOne(batches: seq<seq<Row>>, batchSize: nat, maxBytes: int, size: Row -> nat)
    requires batchSize >= 1 && Tight(batches, batchSize, maxBytes, One, size)
    ensures RowsTight(batches, batchSize, maxBytes, size)
  {
    hide Total;
    forall i | 0 <= i < |batches| ensures Total(batches[i], One) == |batches[i]| {
      OneIsOne(batches[i]);
    }
    forall i: nat | i + 1 < |batches| ensures RowsFull(batches, i, batchSize, maxBytes, size) {
      assert NoRoom(batches, i, batchSize, maxBytes, One, size);
    }
  }
}
