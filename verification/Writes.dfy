/**
 Grouped `write` calls against a shared store: grouping equal payloads, the retrying worker
 `_execute_write_batch`, and any interleaving of any number of workers.
 */
module Writes {
  import opened Basics

  /** A record's field values; generic in what a field holds. */
  type Fields<X> = map<string, X>
  type Store<X> = map<int, Fields<X>>

  /** One RPC: the same values for several records. */
  datatype Op<V> = Op(ids: seq<int>, vals: V)

  /** What one RPC means for one record. */
  datatype Cell<V> = Cell(id: int, vals: V)

  function CellsOf<V>(op: Op<V>): (cells: seq<Cell<V>>)
    ensures |cells| == |op.ids|
  {
    seq(|op.ids|, i requires 0 <= i < |op.ids| => Cell(op.ids[i], op.vals))
  }

  function Cells<V>(ops: seq<Op<V>>): seq<Cell<V>> {
    if ops == [] then [] else CellsOf(ops[0]) + Cells(ops[1..])
  }

  lemma {:induction false} CellsAppend<V>(a: seq<Op<V>>, b: seq<Op<V>>)
    ensures Cells(a + b) == Cells(a) + Cells(b)
  {
    if a == [] {
      assert a + b == b;
    } else {
      assert (a + b)[1..] == a[1..] + b;
      CellsAppend(a[1..], b);
      var first, rest, more := CellsOf(a[0]), Cells(a[1..]), Cells(b);
      assert first + (rest + more) == first + rest + more;
    }
  }

  lemma CellsOne<V>(op: Op<V>)
    ensures Cells([op]) == CellsOf(op)
  {
    assert [op][1..] == [];
  }

  /** Joining the cells of every part of a partition of the operations. */
  lemma {:induction false} CellsOfParts<V>(parts: seq<seq<Op<V>>>)
    ensures Cells(Flatten(parts)) == AllCells(parts)
  {
    if parts != [] {
      CellsAppend(parts[0], Flatten(parts[1..]));
      CellsOfParts(parts[1..]);
    }
  }

  function AllCells<V>(parts: seq<seq<Op<V>>>): seq<Cell<V>> {
    if parts == [] then [] else Cells(parts[0]) + AllCells(parts[1..])
  }

  // ----- Grouping equal payloads: a dictionary in insertion order -----

  predicate DistinctKeys<K(==)>(groups: seq<Op<K>>) {
    forall i, j :: 0 <= i < j < |groups| ==> groups[i].vals != groups[j].vals
  }

  predicate NoEmptyGroup<K>(groups: seq<Op<K>>) {
    forall i :: 0 <= i < |groups| ==> groups[i].ids != []
  }

  function Find<K(==)>(groups: seq<Op<K>>, key: K): (i: nat)
    ensures i <= |groups|
    ensures i < |groups| ==> groups[i].vals == key
    ensures forall j :: 0 <= j < i ==> groups[j].vals != key
  {
    if groups == [] || groups[0].vals == key then 0 else 1 + Find(groups[1..], key)
  }

  function AddTo<K(==)>(groups: seq<Op<K>>, key: K, id: int): seq<Op<K>> {
    var i := Find(groups, key);
    if i < |groups| then groups[i := Op(groups[i].ids + [id], key)] else groups + [Op([id], key)]
  }

  function Grouped<K(==)>(rows: seq<Cell<K>>): seq<Op<K>> {
    if rows == [] then []
    else AddTo(Grouped(rows[..|rows| - 1]), rows[|rows| - 1].vals, rows[|rows| - 1].id)
  }

  lemma AddToKeepsKeys<K>(groups: seq<Op<K>>, key: K, id: int)
    requires DistinctKeys(groups) && NoEmptyGroup(groups)
    ensures DistinctKeys(AddTo(groups, key, id)) && NoEmptyGroup(AddTo(groups, key, id))
  {
  }

  lemma AddToCells<K>(groups: seq<Op<K>>, key: K, id: int)
    ensures multiset(Cells(AddTo(groups, key, id))) == multiset(Cells(groups)) + multiset{Cell(id, key)}
  {
    hide Cells, CellsOf, Find;
    var i := Find(groups, key);
    if i == |groups| {
      CellsAppend(groups, [Op([id], key)]);
      OneIdMore(Op([], key), id);
      SnocBag(Cells(groups), Cell(id, key));
    } else {
      var before, op, after := groups[..i], groups[i], groups[i + 1..];
      var op' := Op(op.ids + [id], key);
      assert groups == before + [op] + after;
      assert groups[i := op'] == before + [op'] + after;
      CellsOfThree(before, op, after);
      CellsOfThree(before, op', after);
      OneIdMore(op, id);
      InsertInside(Cells(before), CellsOf(op), Cell(id, key), Cells(after));
    }
  }

  lemma OneIdMore<K>(op: Op<K>, id: int)
    ensures CellsOf(Op(op.ids + [id], op.vals)) == CellsOf(op) + [Cell(id, op.vals)]
    ensures op.ids == [] ==> Cells([Op([id], op.vals)]) == [Cell(id, op.vals)]
  {
    CellsOne(Op([id], op.vals));
    assert op.ids == [] ==> op.ids + [id] == [id];
  }

  lemma CellsOfThree<K>(before: seq<Op<K>>, op: Op<K>, after: seq<Op<K>>)
    ensures Cells(before + [op] + after) == Cells(before) + CellsOf(op) + Cells(after)
  {
    hide Cells;
    CellsAppend(before + [op], after);
    CellsAppend(before, [op]);
    CellsOne(op);
  }

  lemma SnocBag<T>(a: seq<T>, x: T)
    ensures multiset(a + [x]) == multiset(a) + multiset{x}
  {
  }

  lemma InsertInside<T>(a: seq<T>, b: seq<T>, x: T, c: seq<T>)
    ensures multiset(a + (b + [x]) + c) == multiset(a + b + c) + multiset{x}
  {
  }

  /** Grouping loses no row and invents none, and uses one group for each distinct payload. */
  lemma {:induction false} GroupedKeepsRows<K>(rows: seq<Cell<K>>)
    ensures DistinctKeys(Grouped(rows)) && NoEmptyGroup(Grouped(rows))
    ensures multiset(Cells(Grouped(rows))) == multiset(rows)
  {
    if rows != [] {
      var init, last := rows[..|rows| - 1], rows[|rows| - 1];
      assert rows == init + [last];
      GroupedKeepsRows(init);
      AddToKeepsKeys(Grouped(init), last.vals, last.id);
      AddToCells(Grouped(init), last.vals, last.id);
    }
  }

  // ----- What the writes do to the store -----

  function Get<X>(store: Store<X>, id: int): Fields<X> {
    if id in store then store[id] else map[]
  }

  function WriteIds<X>(store: Store<X>, ids: seq<int>, vals: Fields<X>): (r: Store<X>)
    ensures forall id :: id in r <==> id in store || id in ids
    ensures forall id :: Get(r, id) == if id in ids then Get(store, id) + vals else Get(store, id)
  {
    if ids == [] then store
    else
      var init, last := ids[..|ids| - 1], ids[|ids| - 1];
      assert ids == init + [last];
      assert forall id :: id in ids <==> id in init || id == last;
      var before := WriteIds(store, init, vals);
      WriteTwice(Get(store, last), vals);
      before[last := Get(before, last) + vals]
  }

  lemma WriteTwice<X>(m: Fields<X>, vals: Fields<X>)
    ensures m + vals + vals == m + vals
  {
  }

  /** The prepared list applied row by row. */
  function ApplyRows<X>(store: Store<X>, rows: seq<Cell<Fields<X>>>): Store<X> {
    if rows == [] then store
    else
      var init, last := ApplyRows(store, rows[..|rows| - 1]), rows[|rows| - 1];
      init[last.id := Get(init, last.id) + last.vals]
  }

  predicate DistinctIds<V>(rows: seq<Cell<V>>) {
    forall i, j :: 0 <= i < j < |rows| ==> rows[i].id != rows[j].id
  }

  lemma {:induction false} AppliedAt<X>(store: Store<X>, rows: seq<Cell<Fields<X>>>, id: int)
    requires DistinctIds(rows)
    ensures forall i :: 0 <= i < |rows| && rows[i].id == id ==>
              id in ApplyRows(store, rows) && Get(ApplyRows(store, rows), id) == Get(store, id) + rows[i].vals
    ensures (forall i :: 0 <= i < |rows| ==> rows[i].id != id) ==>
              (id in ApplyRows(store, rows) <==> id in store) && Get(ApplyRows(store, rows), id) == Get(store, id)
  {
    if rows != [] {
      AppliedAt(store, rows[..|rows| - 1], id);
    }
  }

  // ----- One worker: `_execute_write_batch`, one RPC attempt at a time -----

  const MAX_RETRIES := 3
  const BASE_DELAY := 2

  /** A write that timed out or whose answer was an error may or may not have been committed. */
  datatype WriteReply = Done | TimedOut(committed: bool) | Refused(committed: bool)

  /** The worker between two attempts; `retries` belongs to the first operation of the queue. */
  datatype Worker<V> = Worker(queue: seq<Op<V>>, retries: nat, failed: seq<Cell<V>>, successful: nat,
                              done: seq<Cell<V>>,
                              delay: nat)

  function Fresh<V>(queue: seq<Op<V>>): Worker<V> {
    Worker(queue, 0, [], 0, [], 0)
  }

  function Power2(n: nat): (p: nat)
    ensures p >= 1
  {
    if n == 0 then 1 else 2 * Power2(n - 1)
  }

  function Attempt<V>(w: Worker<V>, reply: WriteReply): Worker<V>
    requires w.queue != []
  {
    var op, rest := w.queue[0], w.queue[1..];
    if reply.Done? then
      Worker(rest, 0, w.failed, w.successful + |op.ids|, w.done + CellsOf(op), w.delay)
    else if reply.TimedOut? && w.retries < MAX_RETRIES then
      w.(retries := w.retries + 1, delay := w.delay + BASE_DELAY * Power2(w.retries))
    else
      Worker(rest, 0, w.failed + CellsOf(op), w.successful, w.done, w.delay)
  }

  /** Every cell of the batch is still queued, reported as failed, or written; the counters agree. */
  ghost predicate Conserved<V>(batch: seq<Op<V>>, w: Worker<V>) {
    && w.retries <= MAX_RETRIES && (w.queue == [] ==> w.retries == 0)
    && w.successful == |w.done|
    && multiset(w.done) + multiset(w.failed) + multiset(Cells(w.queue)) == multiset(Cells(batch))
  }

  lemma AttemptConserves<V>(batch: seq<Op<V>>, w: Worker<V>, reply: WriteReply)
    requires Conserved(batch, w) && w.queue != []
    ensures Conserved(batch, Attempt(w, reply))
  {
    var op, rest := w.queue[0], w.queue[1..];
    MoveBag(multiset(w.done), multiset(w.failed), multiset(CellsOf(op)), multiset(Cells(rest)));
    assert multiset(Cells(w.queue)) == multiset(CellsOf(op)) + multiset(Cells(rest));
  }

  lemma MoveBag<T>(d: multiset<T>, f: multiset<T>, x: multiset<T>, rest: multiset<T>)
    ensures d + x + f + rest == d + f + (x + rest)
    ensures d + (f + x) + rest == d + f + (x + rest)
  {
  }

  /** The back-off already spent on the operation at the head of the queue. */
  function Spent(retries: nat): nat {
    BASE_DELAY * (Power2(retries) - 1)
  }

  /** Calls and back-off stay within four calls and fourteen seconds for each operation. */
  ghost predicate WithinBudget<V>(ops: nat, w: Worker<V>, calls: nat) {
    && |w.queue| <= ops && w.retries <= MAX_RETRIES
    && (w.queue == [] ==> w.retries == 0)
    && calls <= 4 * (ops - |w.queue|) + w.retries
    && w.delay <= 14 * (ops - |w.queue|) + Spent(w.retries)
  }

  lemma AttemptWithinBudget<V>(ops: nat, w: Worker<V>, calls: nat, reply: WriteReply)
    requires WithinBudget(ops, w, calls) && w.queue != []
    ensures WithinBudget(ops, Attempt(w, reply), calls + 1)
  {
    assert Power2(0) == 1 && Power2(1) == 2 && Power2(2) == 4 && Power2(3) == 8;
  }

  /** `replies(i, k)` answers attempt k of operation i; the first attempts time out and one is answered. */
  ghost predicate Succeeds(replies: (nat, nat) -> WriteReply, i: nat) {
    exists k: nat :: k <= 3 && replies(i, k).Done? && TimesOut(replies, i, k)
  }

  ghost predicate TimesOut(replies: (nat, nat) -> WriteReply, i: nat, k: nat) {
    forall j: nat :: j < k ==> replies(i, j).TimedOut?
  }

  /** How many of the first three attempts at operation i time out before one does not. */
  ghost function TimeOuts(replies: (nat, nat) -> WriteReply, i: nat): nat {
    if !replies(i, 0).TimedOut? then 0 else if !replies(i, 1).TimedOut? then 1 else if !replies(i, 2).TimedOut? then 2
        else 3
  }

  /** The waits before the attempts that follow a time-out: 2, 4 and 8 seconds. */
  function BackOff(timeOuts: nat): nat {
    if timeOuts == 0 then 0 else if timeOuts == 1 then 2 else if timeOuts == 2 then 2 + 4 else 2 + 4 + 8
  }

  ghost function CallsFor(replies: (nat, nat) -> WriteReply, n: nat): nat {
    if n == 0 then 0 else CallsFor(replies, n - 1) + 1 + TimeOuts(replies, n - 1)
  }

  ghost function DelayFor(replies: (nat, nat) -> WriteReply, n: nat): nat {
    if n == 0 then 0 else DelayFor(replies, n - 1) + BackOff(TimeOuts(replies, n - 1))
  }

  lemma TimeOutsAre(replies: (nat, nat) -> WriteReply, i: nat, k: nat)
    requires k <= 3 && TimesOut(replies, i, k)
    ensures !replies(i, k).TimedOut? || k == 3 ==> TimeOuts(replies, i) == k
    ensures BackOff(k + 1) == BackOff(k) + if k < 3 then BASE_DELAY * Power2(k) else 0
  {
    assert Power2(0) == 1 && Power2(1) == 2 && Power2(2) == 4;
  }

  ghost function FailedCells<V>(batch: seq<Op<V>>, replies: (nat, nat) -> WriteReply, n: nat): seq<Cell<V>>
    requires n <= |batch|
  {
    if n == 0 then []
    else FailedCells(batch, replies, n - 1) + if Succeeds(replies, n - 1) then [] else CellsOf(batch[n - 1])
  }

  /**
   `_execute_write_batch`: every id ends in exactly one of `successful` and `failed`; an operation fails
   exactly when no one of its four attempts is answered after nothing but time-outs.
   */
  method ExecuteWriteBatch<V>(batch: seq<Op<V>>, replies: (nat, nat) -> WriteReply)
    returns (failed: seq<Cell<V>>, successful: nat, success: bool, calls: nat, delay: nat)
    ensures failed == FailedCells(batch, replies, |batch|)
    ensures successful + |failed| == |Cells(batch)|
    ensures success <==> failed == []
    ensures calls == CallsFor(replies, |batch|) && delay == DelayFor(replies, |batch|)
    ensures calls <= 4 * |batch| && delay <= 14 * |batch|
  {
    hide FailedCells, CallsFor, DelayFor, Cells, BackOff, TimeOuts, Power2, CellsOf, Spent, Attempt, Conserved,
         WithinBudget, Succeeds, TimesOut;
    failed, successful, calls, delay := [], 0, 0, 0;
    ghost var w := Fresh(batch);
    Begins(batch);
    NoOperation(batch, replies);
    for i := 0 to |batch|
      invariant Conserved(batch, w) && WithinBudget(|batch|, w, calls)
      invariant w == Worker(batch[i..], 0, failed, successful, w.done, delay)
      invariant failed == FailedCells(batch, replies, i)
      invariant calls == CallsFor(replies, i) && delay == DelayFor(replies, i)
    {
      var op := batch[i];
      var retryCount, settled := 0, false;
      NoneYet(replies, i);
      OneOperation(batch, replies, i);
      while retryCount <= MAX_RETRIES && !settled
        invariant Conserved(batch, w) && WithinBudget(|batch|, w, calls)
        invariant if settled then w == Worker(batch[i + 1..], 0, failed, successful, w.done, delay)
                  else w == Worker(batch[i..], retryCount, failed, successful, w.done, delay)
        invariant !settled ==> retryCount <= MAX_RETRIES && TimesOut(replies, i, retryCount)
        invariant failed == FailedCells(batch, replies, if settled then i + 1 else i)
        invariant calls == if settled then CallsFor(replies, i + 1) else CallsFor(replies, i) + retryCount
        invariant delay == if settled then DelayFor(replies, i + 1) else DelayFor(replies, i) + BackOff(retryCount)
        decreases !settled, MAX_RETRIES - retryCount
      {
        var reply := replies(i, retryCount);
        AttemptConserves(batch, w, reply);
        AttemptWithinBudget(|batch|, w, calls, reply);
        AttemptIs(w, reply);
        Decide(replies, i, retryCount);
        TimeOutsAre(replies, i, retryCount);
        w := Attempt(w, reply);
        calls := calls + 1;
        if reply.Done? {
          successful, settled := successful + |op.ids|, true;
        } else if reply.TimedOut? && retryCount < MAX_RETRIES {
          delay := delay + BASE_DELAY * Power2(retryCount);
          retryCount := retryCount + 1;
        } else {
          failed, settled := failed + CellsOf(op), true;
        }
      }
    }
    success := failed == [];
    AllSettled(batch, w, calls);
  }

  lemma NoOperation<V>(batch: seq<Op<V>>, replies: (nat, nat) -> WriteReply)
    ensures FailedCells(batch, replies, 0) == [] && CallsFor(replies, 0) == 0 && DelayFor(replies, 0) == 0
  {
  }

  /** What one more operation adds to the results. */
  lemma OneOperation<V>(batch: seq<Op<V>>, replies: (nat, nat) -> WriteReply, i: nat)
    requires i < |batch|
    ensures BackOff(0) == 0
    ensures CallsFor(replies, i + 1) == CallsFor(replies, i) + 1 + TimeOuts(replies, i)
    ensures DelayFor(replies, i + 1) == DelayFor(replies, i) + BackOff(TimeOuts(replies, i))
    ensures FailedCells(batch, replies, i + 1)
            == FailedCells(batch, replies, i) + if Succeeds(replies, i) then [] else CellsOf(batch[i])
  {
  }

  lemma Begins<V>(batch: seq<Op<V>>)
    ensures Conserved(batch, Fresh(batch)) && WithinBudget(|batch|, Fresh(batch), 0)
  {
  }

  lemma NoneYet(replies: (nat, nat) -> WriteReply, i: nat)
    ensures TimesOut(replies, i, 0)
  {
  }

  lemma AttemptIs<V>(w: Worker<V>, reply: WriteReply)
    requires w.queue != []
    ensures var op, next := w.queue[0], Attempt(w, reply);
      if reply.Done? then next == Worker(w.queue[1..], 0, w.failed, w.successful + |op.ids|, next.done, w.delay)
      else if reply.TimedOut? && w.retries < MAX_RETRIES then
        next == w.(retries := w.retries + 1, delay := w.delay + BASE_DELAY * Power2(w.retries))
      else next == Worker(w.queue[1..], 0, w.failed + CellsOf(op), w.successful, w.done, w.delay)
  {
  }

  lemma Decide(replies: (nat, nat) -> WriteReply, i: nat, k: nat)
    requires k <= MAX_RETRIES && TimesOut(replies, i, k)
    ensures replies(i, k).Done? ==> Succeeds(replies, i)
    ensures replies(i, k).TimedOut? ==> TimesOut(replies, i, k + 1)
    ensures replies(i, k).Refused? || (k == MAX_RETRIES && replies(i, k).TimedOut?) ==> !Succeeds(replies, i)
  {
    if Succeeds(replies, i) && (replies(i, k).Refused? || (k == MAX_RETRIES && replies(i, k).TimedOut?)) {
      var m: nat :| m <= 3 && replies(i, m).Done? && TimesOut(replies, i, m);
      if m < k {
        assert false;
      } else if m > k {
        assert false;
      }
    }
  }

  lemma AllSettled<V>(batch: seq<Op<V>>, w: Worker<V>, calls: nat)
    requires Conserved(batch, w) && WithinBudget(|batch|, w, calls) && w.queue == []
    ensures w.successful + |w.failed| == |Cells(batch)|
    ensures calls <= 4 * |batch| && w.delay <= 14 * |batch|
  {
    AllSettledCount(batch, w);
  }

  lemma AllSettledCount<V>(batch: seq<Op<V>>, w: Worker<V>)
    requires Conserved(batch, w) && w.queue == []
    ensures w.successful + |w.failed| == |Cells(batch)|
  {
    assert |multiset(w.done) + multiset(w.failed)| == |w.done| + |w.failed|;
    assert |multiset(Cells(batch))| == |Cells(batch)|;
  }

  // ----- Any number of workers, interleaved attempt by attempt -----

  datatype Event = Event(worker: nat, reply: WriteReply)
  datatype Pool<X> = Pool(workers: seq<Worker<Fields<X>>>, store: Store<X>)

  function Started<X>(batches: seq<seq<Op<Fields<X>>>>, store: Store<X>): Pool<X> {
    Pool(seq(|batches|, i requires 0 <= i < |batches| => Fresh(batches[i])), store)
  }

  predicate Enabled<X>(p: Pool<X>, e: Event) {
    e.worker < |p.workers| && p.workers[e.worker].queue != []
  }

  predicate Reaches(reply: WriteReply) {
    reply.Done? || reply.committed
  }

  function Next<X>(p: Pool<X>, e: Event): Pool<X>
    requires Enabled(p, e)
  {
    var w := p.workers[e.worker];
    Pool(p.workers[e.worker := Attempt(w, e.reply)],
         if Reaches(e.reply) then WriteIds(p.store, w.queue[0].ids, w.queue[0].vals) else p.store)
  }

  /** Some run of the pool: at every event any unfinished worker makes its next attempt. */
  ghost predicate Run<X>(p: Pool<X>, events: seq<Event>, q: Pool<X>)
    decreases |events|
  {
    if events == [] then p == q
    else Enabled(p, events[0]) && Run(Next(p, events[0]), events[1..], q)
  }

  predicate Finished<X>(p: Pool<X>) {
    forall i :: 0 <= i < |p.workers| ==> p.workers[i].queue == []
  }

  ghost predicate Untouched<X>(start: Store<X>, store: Store<X>, id: int) {
    (id in store <==> id in start) && Get(store, id) == Get(start, id)
  }

  ghost predicate Holds<X>(start: Store<X>, store: Store<X>, row: Cell<Fields<X>>) {
    row.id in store && Get(store, row.id) == Get(start, row.id) + row.vals
  }

  /** A record no row mentions is untouched; any other is untouched or holds its row. */
  ghost predicate RecordInv<X>(rows: seq<Cell<Fields<X>>>, start: Store<X>, store: Store<X>, id: int) {
    if Untouched(start, store, id) then true
    else exists k :: 0 <= k < |rows| && rows[k].id == id && Holds(start, store, rows[k])
  }

  ghost predicate StoreInv<X>(rows: seq<Cell<Fields<X>>>, start: Store<X>, store: Store<X>) {
    forall id :: RecordInv(rows, start, store, id)
  }

  ghost predicate AllHold<X>(start: Store<X>, store: Store<X>, done: seq<Cell<Fields<X>>>) {
    forall j :: 0 <= j < |done| ==> Holds(start, store, done[j])
  }

  ghost predicate OpOfRows<V>(rows: seq<Cell<V>>, op: Op<V>) {
    forall i :: 0 <= i < |op.ids| ==> CellsOf(op)[i] in rows
  }

  lemma WriteKeepsRecord<X>(rows: seq<Cell<Fields<X>>>, start: Store<X>, store: Store<X>, op: Op<Fields<X>>, id: int)
    requires RecordInv(rows, start, store, id) && OpOfRows(rows, op) && DistinctIds(rows)
    ensures RecordInv(rows, start, WriteIds(store, op.ids, op.vals), id)
    ensures forall row :: row in rows && row.id == id && (id in op.ids || Holds(start, store, row)) ==>
              Holds(start, WriteIds(store, op.ids, op.vals), row)
  {
    hide WriteIds;
    if id in op.ids {
      var i :| 0 <= i < |op.ids| && op.ids[i] == id;
      var row := CellsOf(op)[i];
      var k :| 0 <= k < |rows| && rows[k] == row;
      WriteTwice(Get(start, id), op.vals);
      assert Holds(start, WriteIds(store, op.ids, op.vals), rows[k]);
    }
  }

  lemma WriteKeeps<X>(rows: seq<Cell<Fields<X>>>, start: Store<X>, store: Store<X>, op: Op<Fields<X>>)
    requires StoreInv(rows, start, store) && OpOfRows(rows, op) && DistinctIds(rows)
    ensures StoreInv(rows, start, WriteIds(store, op.ids, op.vals))
    ensures AllHold(start, WriteIds(store, op.ids, op.vals), CellsOf(op))
  {
    hide WriteIds, Holds, RecordInv;
    var store' := WriteIds(store, op.ids, op.vals);
    forall id ensures RecordInv(rows, start, store', id) {
      assert RecordInv(rows, start, store, id);
      WriteKeepsRecord(rows, start, store, op, id);
    }
    forall i | 0 <= i < |op.ids| ensures Holds(start, store', CellsOf(op)[i]) {
      assert RecordInv(rows, start, store, op.ids[i]);
      WriteKeepsRecord(rows, start, store, op, op.ids[i]);
    }
  }

  lemma WriteKeepsDone<X>(rows: seq<Cell<Fields<X>>>, start: Store<X>, store: Store<X>, op: Op<Fields<X>>,
                          done: seq<Cell<Fields<X>>>)
    requires StoreInv(rows, start, store) && OpOfRows(rows, op) && DistinctIds(rows)
    requires AllHold(start, store, done) && forall j :: 0 <= j < |done| ==> done[j] in rows
    ensures AllHold(start, WriteIds(store, op.ids, op.vals), done)
  {
    hide WriteIds, Holds, RecordInv;
    forall j | 0 <= j < |done| ensures Holds(start, WriteIds(store, op.ids, op.vals), done[j]) {
      assert RecordInv(rows, start, store, done[j].id);
      WriteKeepsRecord(rows, start, store, op, done[j].id);
    }
  }

  ghost predicate PoolInv<X>(batches: seq<seq<Op<Fields<X>>>>, rows: seq<Cell<Fields<X>>>, start: Store<X>,
                             p: Pool<X>) {
    && |p.workers| == |batches|
    && (forall i :: 0 <= i < |batches| ==> Conserved(batches[i], p.workers[i]))
    && (forall i :: 0 <= i < |batches| ==> AllHold(start, p.store, p.workers[i].done))
    && StoreInv(rows, start, p.store)
  }

  /** The batches perform the prepared rows: every row once, nothing else. */
  ghost predicate Performs<V>(batches: seq<seq<Op<V>>>, rows: seq<Cell<V>>) {
    multiset(AllCells(batches)) == multiset(rows)
  }

  lemma {:induction false} InSomeBatch<V>(batches: seq<seq<Op<V>>>, cell: Cell<V>)
    ensures cell in AllCells(batches) <==> exists i :: 0 <= i < |batches| && cell in Cells(batches[i])
  {
    if batches != [] {
      InSomeBatch(batches[1..], cell);
      if i :| 0 <= i < |batches[1..]| && cell in Cells(batches[1..][i]) {
        assert cell in Cells(batches[i + 1]);
      }
      if i :| 0 <= i < |batches| && cell in Cells(batches[i]) {
        assert i > 0 ==> cell in Cells(batches[1..][i - 1]);
      }
    }
  }

  lemma BatchCellIsRow<V>(batches: seq<seq<Op<V>>>, rows: seq<Cell<V>>, i: nat, cell: Cell<V>)
    requires Performs(batches, rows) && i < |batches| && cell in multiset(Cells(batches[i]))
    ensures cell in rows
  {
    InSomeBatch(batches, cell);
    assert cell in multiset(AllCells(batches));
  }

  lemma HeadIsOfRows<V>(batches: seq<seq<Op<V>>>, rows: seq<Cell<V>>, i: nat, w: Worker<V>)
    requires Performs(batches, rows) && i < |batches| && Conserved(batches[i], w)
    ensures w.queue != [] ==> OpOfRows(rows, w.queue[0])
    ensures forall j :: 0 <= j < |w.done| ==> w.done[j] in rows
    ensures forall j :: 0 <= j < |w.failed| ==> w.failed[j] in rows
  {
    hide AllCells, CellsOf, Performs;
    var all := multiset(w.done) + multiset(w.failed) + multiset(Cells(w.queue));
    forall cell | cell in all ensures cell in rows {
      BatchCellIsRow(batches, rows, i, cell);
    }
    if w.queue != [] {
      forall k | 0 <= k < |w.queue[0].ids| ensures CellsOf(w.queue[0])[k] in rows {
        assert CellsOf(w.queue[0])[k] in Cells(w.queue);
        assert CellsOf(w.queue[0])[k] in all;
      }
    }
    forall j | 0 <= j < |w.done| ensures w.done[j] in rows {
      assert w.done[j] in all;
    }
    forall j | 0 <= j < |w.failed| ensures w.failed[j] in rows {
      assert w.failed[j] in all;
    }
  }

  lemma NextKeeps<X>(batches: seq<seq<Op<Fields<X>>>>, rows: seq<Cell<Fields<X>>>, start: Store<X>, p: Pool<X>,
                     e: Event)
    requires Performs(batches, rows) && DistinctIds(rows)
    requires PoolInv(batches, rows, start, p) && Enabled(p, e)
    ensures PoolInv(batches, rows, start, Next(p, e))
  {
    hide Conserved, Performs, AllHold, StoreInv, WriteIds, CellsOf;
    var w, q := p.workers[e.worker], Next(p, e);
    var op := w.queue[0];
    AttemptConserves(batches[e.worker], w, e.reply);
    HeadIsOfRows(batches, rows, e.worker, w);
    WriteKeeps(rows, start, p.store, op);
    forall i | 0 <= i < |batches|
      ensures AllHold(start, q.store, p.workers[i].done)
    {
      HeadIsOfRows(batches, rows, i, p.workers[i]);
      WriteKeepsDone(rows, start, p.store, op, p.workers[i].done);
    }
    if e.reply.Done? {
      AllHoldAppend(start, q.store, w.done, CellsOf(op));
    }
  }

  lemma AllHoldAppend<X>(start: Store<X>, store: Store<X>, a: seq<Cell<Fields<X>>>, b: seq<Cell<Fields<X>>>)
    requires AllHold(start, store, a) && AllHold(start, store, b)
    ensures AllHold(start, store, a + b)
  {
  }

  lemma {:induction false} RunKeeps<X>(batches: seq<seq<Op<Fields<X>>>>, rows: seq<Cell<Fields<X>>>, start: Store<X>,
                                       p: Pool<X>, events: seq<Event>, q: Pool<X>)
    requires Performs(batches, rows) && DistinctIds(rows)
    requires PoolInv(batches, rows, start, p) && Run(p, events, q)
    ensures PoolInv(batches, rows, start, q)
    decreases |events|
  {
    hide PoolInv, Performs, DistinctIds, Next;
    if events != [] {
      NextKeeps(batches, rows, start, p, events[0]);
      RunKeeps(batches, rows, start, Next(p, events[0]), events[1..], q);
    }
  }

  lemma StartedInv<X>(batches: seq<seq<Op<Fields<X>>>>, rows: seq<Cell<Fields<X>>>, start: Store<X>)
    ensures PoolInv(batches, rows, start, Started(batches, start))
  {
    forall i | 0 <= i < |batches| ensures Conserved(batches[i], Fresh(batches[i])) {
      Begins(batches[i]);
    }
  }

  ghost predicate Reported<X>(p: Pool<X>, row: Cell<Fields<X>>) {
    exists i :: 0 <= i < |p.workers| && row in p.workers[i].failed
  }

  lemma PoolSettles<X>(batches: seq<seq<Op<Fields<X>>>>, rows: seq<Cell<Fields<X>>>, start: Store<X>, q: Pool<X>)
    requires Performs(batches, rows) && PoolInv(batches, rows, start, q) && Finished(q)
    ensures forall row :: row in rows ==> Holds(start, q.store, row) || Reported(q, row)
    ensures forall row :: Reported(q, row) ==> row in rows
  {
    hide Holds, StoreInv;
    forall row | row in rows ensures Holds(start, q.store, row) || Reported(q, row) {
      InSomeBatch(batches, row);
      assert row in multiset(AllCells(batches));
      var i :| 0 <= i < |batches| && row in Cells(batches[i]);
      EndsSomewhere(batches[i], q.workers[i], row);
      if j :| 0 <= j < |q.workers[i].done| && q.workers[i].done[j] == row {
        assert Holds(start, q.store, q.workers[i].done[j]);
      }
    }
    forall row | Reported(q, row) ensures row in rows {
      var i :| 0 <= i < |q.workers| && row in q.workers[i].failed;
      HeadIsOfRows(batches, rows, i, q.workers[i]);
    }
  }

  /**
   Whatever the interleaving and whichever attempts time out, are committed unseen, or are refused: when
   all workers are finished, every prepared row is in the store or reported as failed, and no record
   changed except to hold its own row.
   */
  lemma RunSettles<X>(batches: seq<seq<Op<Fields<X>>>>, rows: seq<Cell<Fields<X>>>, start: Store<X>, events: seq<Event>,
                      q: Pool<X>)
    requires Performs(batches, rows) && DistinctIds(rows)
    requires Run(Started(batches, start), events, q) && Finished(q)
    ensures forall row :: row in rows ==> Holds(start, q.store, row) || Reported(q, row)
    ensures forall row :: Reported(q, row) ==> row in rows
    ensures StoreInv(rows, start, q.store)
  {
    hide Performs, Run, Holds, Reported, StoreInv, Finished;
    StartedInv(batches, rows, start);
    RunKeeps(batches, rows, start, Started(batches, start), events, q);
    PoolSettles(batches, rows, start, q);
  }

  lemma EndsSomewhere<V>(batch: seq<Op<V>>, w: Worker<V>, row: Cell<V>)
    requires Conserved(batch, w) && w.queue == [] && row in Cells(batch)
    ensures row in w.done || row in w.failed
  {
    assert row in multiset(Cells(batch));
    assert row in multiset(w.done) + multiset(w.failed);
  }

  ghost predicate NothingFailed<X>(p: Pool<X>) {
    forall i :: 0 <= i < |p.workers| ==> p.workers[i].failed == []
  }

  lemma PoolConverges<X>(batches: seq<seq<Op<Fields<X>>>>, rows: seq<Cell<Fields<X>>>, start: Store<X>, q: Pool<X>)
    requires Performs(batches, rows) && DistinctIds(rows)
    requires PoolInv(batches, rows, start, q) && Finished(q) && NothingFailed(q)
    ensures q.store == ApplyRows(start, rows)
  {
    hide Performs, Finished, ApplyRows;
    PoolSettles(batches, rows, start, q);
    var want := ApplyRows(start, rows);
    forall id ensures (id in q.store <==> id in want) && Get(q.store, id) == Get(want, id) {
      AppliedAt(start, rows, id);
      assert RecordInv(rows, start, q.store, id);
      if k :| 0 <= k < |rows| && rows[k].id == id {
        assert Holds(start, q.store, rows[k]) || Reported(q, rows[k]);
      }
    }
    SameStore(q.store, want);
  }

  /** With no write reported as failed, the store is the one that row-by-row application leaves. */
  lemma Confluence<X>(batches: seq<seq<Op<Fields<X>>>>, rows: seq<Cell<Fields<X>>>, start: Store<X>, events: seq<Event>,
                      q: Pool<X>)
    requires Performs(batches, rows) && DistinctIds(rows)
    requires Run(Started(batches, start), events, q) && Finished(q) && NothingFailed(q)
    ensures q.store == ApplyRows(start, rows)
  {
    hide Performs, Run, NothingFailed, Finished, ApplyRows;
    StartedInv(batches, rows, start);
    RunKeeps(batches, rows, start, Started(batches, start), events, q);
    PoolConverges(batches, rows, start, q);
  }

  lemma SameStore<X>(a: Store<X>, b: Store<X>)
    requires forall id :: (id in a <==> id in b) && Get(a, id) == Get(b, id)
    ensures a == b
  {
    forall id ensures (id in a <==> id in b) && (id in a ==> a[id] == b[id]) {
      assert Get(a, id) == Get(b, id);
    }
  }

  // ----- The run as a whole: it ends, and its counters add up -----

  /** Attempts the workers can still make. */
  function AttemptsLeft<V>(workers: seq<Worker<V>>): int {
    if workers == [] then 0 else 4 * |workers[0].queue| - workers[0].retries + AttemptsLeft(workers[1..])
  }

  lemma {:induction false} AttemptsLeftUpdate<V>(workers: seq<Worker<V>>, i: nat, w: Worker<V>)
    requires i < |workers|
    ensures AttemptsLeft(workers[i := w])
            == AttemptsLeft(workers) + 4 * |w.queue| - w.retries - (4 * |workers[i].queue| - workers[i].retries)
  {
    if i == 0 {
      assert workers[i := w][1..] == workers[1..];
    } else {
      assert workers[i := w][1..] == workers[1..][i - 1 := w];
      AttemptsLeftUpdate(workers[1..], i - 1, w);
    }
  }

  lemma {:induction false} AttemptsLeftBounds<V>(batches: seq<seq<Op<V>>>, workers: seq<Worker<V>>)
    requires |workers| == |batches| && forall i :: 0 <= i < |batches| ==> Conserved(batches[i], workers[i])
    ensures AttemptsLeft(workers) >= 0
    ensures (forall i :: 0 <= i < |batches| ==> workers[i] == Fresh(batches[i])) ==>
              AttemptsLeft(workers) == 4 * |Flatten(batches)|
  {
    if batches != [] {
      assert Conserved(batches[0], workers[0]);
      assert forall i :: 0 <= i < |batches[1..]| ==>
          workers[1..][i] == workers[i + 1] && batches[1..][i] == batches[i + 1];
      AttemptsLeftBounds(batches[1..], workers[1..]);
    }
  }

  /** Every run ends: at most four attempts for each operation. */
  lemma {:induction false} RunIsBounded<X>(batches: seq<seq<Op<Fields<X>>>>, p: Pool<X>, events: seq<Event>, q: Pool<X>)
    requires |p.workers| == |batches| && forall i :: 0 <= i < |batches| ==> Conserved(batches[i], p.workers[i])
    requires Run(p, events, q)
    ensures |events| <= AttemptsLeft(p.workers)
    decreases |events|
  {
    hide Conserved;
    if events == [] {
      AttemptsLeftBounds(batches, p.workers);
    } else {
      var e, i := events[0], events[0].worker;
      assert Conserved(batches[i], p.workers[i]);
      AttemptConserves(batches[i], p.workers[i], e.reply);
      RetriesBounded(batches[i], p.workers[i]);
      AttemptsLeftUpdate(p.workers, i, Attempt(p.workers[i], e.reply));
      RunIsBounded(batches, Next(p, e), events[1..], q);
    }
  }

  lemma RetriesBounded<V>(batch: seq<Op<V>>, w: Worker<V>)
    requires Conserved(batch, w)
    ensures w.retries <= MAX_RETRIES
  {
  }

  function Accounted<V>(workers: seq<Worker<V>>): nat {
    if workers == [] then 0 else workers[0].successful + |workers[0].failed| + Accounted(workers[1..])
  }

  lemma {:induction false} AccountedIs<V>(batches: seq<seq<Op<V>>>, workers: seq<Worker<V>>)
    requires |workers| == |batches|
    requires forall i :: 0 <= i < |batches| ==> Conserved(batches[i], workers[i]) && workers[i].queue == []
    ensures Accounted(workers) == |AllCells(batches)|
  {
    hide Conserved;
    if batches != [] {
      assert Conserved(batches[0], workers[0]);
      AllSettledCount(batches[0], workers[0]);
      forall i | 0 <= i < |batches[1..]|
        ensures Conserved(batches[1..][i], workers[1..][i]) && workers[1..][i].queue == []
      {
        assert Conserved(batches[i + 1], workers[i + 1]);
      }
      AccountedIs(batches[1..], workers[1..]);
    }
  }

  /**
   `successful_writes` and `failed_writes` of a finished pass add up to the prepared rows; it took at most 4 calls an
   operation.
   */
  lemma PassReconciles<X>(batches: seq<seq<Op<Fields<X>>>>, rows: seq<Cell<Fields<X>>>, start: Store<X>,
                          events: seq<Event>, q: Pool<X>)
    requires Performs(batches, rows) && DistinctIds(rows)
    requires Run(Started(batches, start), events, q) && Finished(q)
    ensures Accounted(q.workers) == |rows|
    ensures |events| <= 4 * |Flatten(batches)|
  {
    hide Conserved, Next, Run;
    StartedInv(batches, rows, start);
    RunKeeps(batches, rows, start, Started(batches, start), events, q);
    AccountedIs(batches, q.workers);
    assert |multiset(AllCells(batches))| == |AllCells(batches)| && |multiset(rows)| == |rows|;
    RunIsBounded(batches, Started(batches, start), events, q);
    AttemptsLeftBounds(batches, Started(batches, start).workers);
  }
}
