/** What upserts of good rows keep of the target store, whichever load path sent them. */
module StoreFacts {
  import opened XmlId
  import opened LoadProtocol
  import opened LoadFallback
  import opened FallbackFacts
  import opened Accounting
  import opened TargetStore
  import opened FallbackRefinement
  import opened HistoryFacts

  /** All three load paths send the same request for a row. */
  ghost predicate AllPathsAgree(cfg: Config) {
    && FallbackPathsAgree(cfg)
    && (forall column :: column in cfg.header ==> (Drops(cfg, WorkerPath, column) <==> column in cfg.ignore))
    && (forall k :: 0 <= k < cfg.uid ==> cfg.header[k] !in cfg.ignore)
  }

  lemma SameDrops(cfg: Config, i: nat)
    requires AllPathsAgree(cfg) && i < |cfg.header|
    ensures Drops(cfg, WorkerPath, cfg.header[i]) == Drops(cfg, FallbackPath, cfg.header[i])
    ensures i <= cfg.uid ==> !Drops(cfg, WorkerPath, cfg.header[i])
  {
    hide Base;
    assert cfg.header[i] in cfg.header;
    assert cfg.header[cfg.uid] == "id";
  }

  lemma {:induction false} WorkerKept(cfg: Config, i: nat)
    requires AllPathsAgree(cfg) && cfg.Valid() && i <= |cfg.header|
    ensures KeptFrom(cfg, WorkerPath, i) == KeptFrom(cfg, FallbackPath, i)
    ensures i <= cfg.uid ==>
      |KeptFrom(cfg, WorkerPath, i)| > cfg.uid - i && KeptFrom(cfg, WorkerPath, i)[cfg.uid - i] == cfg.uid
    decreases |cfg.header| - i
  {
    hide Drops, AllPathsAgree;
    if i < |cfg.header| {
      SameDrops(cfg, i);
      WorkerKept(cfg, i + 1);
    }
  }

  lemma {:induction false} NothingIgnored(cfg: Config, path: LoadPath, i: nat)
    requires cfg.ignore == [] && i <= |cfg.header|
    ensures |KeptFrom(cfg, path, i)| == |cfg.header| - i
    ensures forall j :: 0 <= j < |cfg.header| - i ==> KeptFrom(cfg, path, i)[j] == i + j
    decreases |cfg.header| - i
  {
    hide Base;
    if i < |cfg.header| {
      NothingIgnored(cfg, path, i + 1);
    }
  }

  lemma PathsPart(cfg: Config)
    requires AllPathsAgree(cfg)
    ensures FallbackPathsAgree(cfg)
  {
  }

  lemma WorkerLineAgrees(cfg: Config, row: Row)
    requires AllPathsAgree(cfg) && cfg.Valid() && !Malformed(cfg, row)
    ensures !TooShort(cfg, row)
    ensures WorkerHeader(cfg) == SingleHeader(cfg)
    ensures WorkerLine(cfg, row) == SingleLine(cfg, row)
  {
    hide Drops, KeptFrom, ToXmlid, MaxIndex, AllPathsAgree, SingleLine, SingleHeader, FallbackPathsAgree;
    PathsPart(cfg);
    SameLine(cfg, row);
    WorkerKept(cfg, 0);
    var kept := Kept(cfg, FallbackPath);
    var i := IndexOf(kept, cfg.uid).value;
    assert i == cfg.uid;
    if cfg.ignore == [] {
      NothingIgnored(cfg, FallbackPath, 0);
      KeepingAll(row.cells, kept);
      KeepingAll(cfg.header, kept);
    }
  }

  lemma KeepingAll(cells: seq<string>, kept: seq<nat>)
    requires |kept| == |cells| && forall j :: 0 <= j < |kept| ==> kept[j] == j
    ensures Project(cells, kept) == cells
  {
  }

  /** The line stands for the row in the store: same key, same content. */
  lemma LineHasKey(cfg: Config, row: Row)
    requires FallbackPathsAgree(cfg) && !Malformed(cfg, row)
    ensures LineKey(SingleHeader(cfg), SingleLine(cfg, row)) == Key(cfg, row)
  {
    hide Drops, KeptFrom, ToXmlid;
    UidKept(cfg);
    var kept := Kept(cfg, SinglePath);
    var j := IndexOf(kept, cfg.uid).value;
    assert cfg.header[cfg.uid] == "id" && SingleHeader(cfg)[j] == "id";
  }

  lemma CarriedLine(cfg: Config, request: Request, j: nat, row: Row)
    requires AllPathsAgree(cfg) && cfg.Valid() && !Malformed(cfg, row) && Carries(cfg, request, j, row)
    ensures j < |request.lines| && request.header == SingleHeader(cfg) && request.lines[j] == SingleLine(cfg, row)
  {
    hide WorkerHeader, WorkerLine, SingleHeader, SingleLine, FallbackHeader, FallbackLine, AllPathsAgree, TooShort;
    WorkerLineAgrees(cfg, row);
    PathsPart(cfg);
    SameLine(cfg, row);
  }

  /** Where the load paths agree, an acknowledgement is of a line with the row's own sanitised id. */
  lemma EvidenceNamesTheRow(cfg: Config, h: History, a: Ack)
    requires AllPathsAgree(cfg) && cfg.Valid() && !Malformed(cfg, a.row) && Evident(cfg, h, a)
    ensures LineKey(h[a.call].request.header, h[a.call].request.lines[a.pos]) == Key(cfg, a.row)
  {
    hide AllPathsAgree, FallbackPathsAgree, Carries, SingleHeader, SingleLine, Malformed, Key;
    CarriedLine(cfg, h[a.call].request, a.pos, a.row);
    PathsPart(cfg);
    LineHasKey(cfg, a.row);
  }

  // ----- When the worker sanitises the id it sends -----

  predicate KeepsId(cfg: Config) {
    cfg.Valid() && !Drops(cfg, WorkerPath, cfg.header[cfg.uid])
  }

  /** Where the id column is among the columns that the worker sends. */
  function IdColumn(cfg: Config): (i: nat)
    requires KeepsId(cfg)
    ensures i < |Kept(cfg, WorkerPath)| && Kept(cfg, WorkerPath)[i] == cfg.uid
  {
    KeptContains(cfg, WorkerPath, 0, cfg.uid);
    IndexOf(Kept(cfg, WorkerPath), cfg.uid).value
  }

  predicate SendsItsId(cfg: Config, row: Row)
    requires KeepsId(cfg) && !Malformed(cfg, row)
  {
    var cells := WorkerLine(cfg, row).cells;
    IdColumn(cfg) < |cells| && cells[IdColumn(cfg)] == Key(cfg, row)
  }

  predicate KeepsLeftOfId(cfg: Config)
    requires cfg.Valid()
  {
    forall k :: 0 <= k < cfg.uid ==> !Drops(cfg, WorkerPath, cfg.header[k])
  }

  lemma {:induction false} KeptAreNotDropped(cfg: Config, path: LoadPath, i: nat)
    requires i <= |cfg.header|
    ensures forall j :: 0 <= j < |KeptFrom(cfg, path, i)| ==> !Drops(cfg, path, cfg.header[KeptFrom(cfg, path, i)[j]])
    decreases |cfg.header| - i
  {
    hide Drops;
    if i < |cfg.header| {
      KeptAreNotDropped(cfg, path, i + 1);
    }
  }

  /** The n-th kept column has at least n columns before it, and exactly n if none of them is dropped. */
  lemma {:induction false} PlaceOfKept(kept: seq<nat>, n: nat)
    requires n < |kept| && forall a, b :: 0 <= a < b < |kept| ==> kept[a] < kept[b]
    ensures kept[n] >= n
    ensures kept[n] == n ==> forall k :: 0 <= k <= n ==> kept[k] == k
  {
    if n > 0 {
      PlaceOfKept(kept, n - 1);
    }
  }

  lemma IdColumnStays(cfg: Config)
    requires KeepsId(cfg)
    ensures IdColumn(cfg) <= cfg.uid
    ensures IdColumn(cfg) == cfg.uid <==> KeepsLeftOfId(cfg)
  {
    hide Drops, KeptFrom;
    var kept, i := Kept(cfg, WorkerPath), IdColumn(cfg);
    PlaceOfKept(kept, i);
    KeptAreNotDropped(cfg, WorkerPath, 0);
    if i == cfg.uid {
      forall k | 0 <= k < cfg.uid ensures !Drops(cfg, WorkerPath, cfg.header[k]) {
        assert kept[k] == k;
      }
    } else if KeepsLeftOfId(cfg) {
      forall k | 0 <= k < cfg.uid ensures k in kept {
        KeptContains(cfg, WorkerPath, 0, k);
      }
      Filled(kept, i, cfg.uid);
    }
  }

  lemma {:induction false} Filled(kept: seq<nat>, i: nat, n: nat)
    requires forall a, b :: 0 <= a < b < |kept| ==> kept[a] < kept[b]
    requires i < |kept| && kept[i] == n && forall k: nat :: k < n ==> k in kept
    ensures i == n
    decreases n
  {
    assert i > 0 ==> kept[0] < kept[i];
    if n > 0 {
      var before: nat := n - 1;
      assert before in kept;
      var j :| 0 <= j < |kept| && kept[j] == before;
      assert j < i;
      assert j + 1 < |kept| && kept[j] < kept[j + 1];
      Filled(kept, j, n - 1);
    }
  }

  /**
   The worker sends each row's sanitised id, whatever the row, if and only if no column left of the id
   column is dropped: the id is sanitised at its place in the unfiltered row.
   */
  lemma SendsItsIdIffKeepsLeftOfId(cfg: Config)
    requires KeepsId(cfg)
    ensures (forall row :: !Malformed(cfg, row) ==> SendsItsId(cfg, row)) <==> KeepsLeftOfId(cfg)
  {
    hide Drops, KeptFrom, ToXmlid, KeepsLeftOfId;
    IdColumnStays(cfg);
    var kept := Kept(cfg, WorkerPath);
    if cfg.ignore == [] {
      NothingIgnored(cfg, WorkerPath, 0);
    }
    if KeepsLeftOfId(cfg) {
      forall row | !Malformed(cfg, row) ensures SendsItsId(cfg, row) {
        assert IdColumn(cfg) == cfg.uid;
      }
    } else {
      var blank := Row(seq(|cfg.header|, _ => " "));
      BlankIsReplaced();
      assert !SendsItsId(cfg, blank);
    }
  }

  lemma BlankIsReplaced()
    ensures ToXmlid(" ") == "_"
  {
    assert Translate(" ") == "_";
  }

  // ----- What every step keeps of the store -----

  /** The batch, as far as the store is concerned. */
  predicate Importable(cfg: Config, batch: seq<Row>) {
    && cfg.Valid() && AllWellFormed(cfg, batch) && AllKeyed(cfg, batch) && DistinctKeys(cfg, batch)
  }

  predicate Holds(cfg: Config, db: Db, row: Row)
    requires cfg.Valid() && !Malformed(cfg, row)
  {
    Key(cfg, row) in db.named && db.named[Key(cfg, row)].line == SingleLine(cfg, row)
  }

  predicate IsGoodRow(b: Backend, cfg: Config, batch: seq<Row>, row: Row)
    requires cfg.Valid()
  {
    row in batch && !Malformed(cfg, row) && Accepted(b, cfg, row)
  }

  ghost predicate SameAt(db: Db, db': Db, key: string) {
    (key in db.named <==> key in db'.named) && (key in db.named ==> db.named[key] == db'.named[key])
  }

  ghost predicate FromGoodRow(b: Backend, cfg: Config, batch: seq<Row>, db: Db, key: string)
    requires cfg.Valid()
  {
    exists row :: IsGoodRow(b, cfg, batch, row) && Key(cfg, row) == key && Holds(cfg, db, row)
  }

  /** Since `start` the store changed only by upserts of good rows of the batch. */
  ghost predicate Clean(b: Backend, cfg: Config, batch: seq<Row>, start: Db, db: Db)
    requires cfg.Valid()
  {
    && db.unnamed == start.unnamed
    && (forall key :: SameAt(start, db, key) || FromGoodRow(b, cfg, batch, db, key))
    && (forall key :: key in start.named ==> key in db.named && db.named[key].id == start.named[key].id)
  }

  lemma UpsertKeepsClean(b: Backend, cfg: Config, batch: seq<Row>, start: Db, db: Db, row: Row)
    requires FallbackPathsAgree(cfg) && Importable(cfg, batch) && db.Valid()
    requires Clean(b, cfg, batch, start, db) && IsGoodRow(b, cfg, batch, row)
    ensures var db' := Upsert(db, SingleHeader(cfg), SingleLine(cfg, row));
      && Clean(b, cfg, batch, start, db') && Holds(cfg, db', row)
      && (forall other :: other in batch && !Malformed(cfg, other) && Holds(cfg, db, other) ==> Holds(cfg, db', other))
  {
    hide ToXmlid, SingleLine, SingleHeader, FallbackPathsAgree, Accepted, AllWellFormed;
    LineHasKey(cfg, row);
    var db' := Upsert(db, SingleHeader(cfg), SingleLine(cfg, row));
    var k := Key(cfg, row);
    KeyedMember(cfg, batch, row);
    assert db'.named == db.named[k := Record(IdFor(db, k), SingleLine(cfg, row))];
    forall other | other in batch && !Malformed(cfg, other) && Holds(cfg, db, other)
      ensures Holds(cfg, db', other)
    {
      if Key(cfg, other) == k {
        SameKeySameRow(cfg, batch, other, row);
      }
    }
    forall key ensures SameAt(start, db', key) || FromGoodRow(b, cfg, batch, db', key) {
      if key == k {
        assert Holds(cfg, db', row);
      } else if !SameAt(start, db, key) {
        var other :| IsGoodRow(b, cfg, batch, other) && Key(cfg, other) == key && Holds(cfg, db, other);
        assert Holds(cfg, db', other);
      }
    }
  }

  lemma KeyedMember(cfg: Config, batch: seq<Row>, row: Row)
    requires AllKeyed(cfg, batch) && row in batch
    ensures cfg.uid < |row.cells| && Key(cfg, row) != "" && row in multiset(batch)
  {
    var i :| 0 <= i < |batch| && batch[i] == row;
    assert Keyed(cfg, batch[i]);
  }

  /** Upserts so far: a clean store that holds everything it held before. */
  ghost predicate Grown(b: Backend, cfg: Config, batch: seq<Row>, start: Db, db: Db, db': Db)
    requires cfg.Valid()
  {
    && Clean(b, cfg, batch, start, db')
    && forall row :: row in batch && !Malformed(cfg, row) && Holds(cfg, db, row) ==> Holds(cfg, db', row)
  }

  lemma GrownTwice(b: Backend, cfg: Config, batch: seq<Row>, start: Db, db0: Db, db1: Db, db2: Db)
    requires cfg.Valid() && Grown(b, cfg, batch, start, db0, db1) && Grown(b, cfg, batch, start, db1, db2)
    ensures Grown(b, cfg, batch, start, db0, db2)
  {
    hide Clean, Holds, Malformed;
  }

  /** The store holds every batch row that the first n lines carry. */
  ghost predicate LinesHeld(cfg: Config, batch: seq<Row>, request: Request, n: nat, db: Db)
    requires cfg.Valid()
  {
    forall j, row :: 0 <= j < n && row in batch && !Malformed(cfg, row) && Carries(cfg, request, j, row) ==>
      Holds(cfg, db, row)
  }

  lemma LinesHeldStep(b: Backend, cfg: Config, batch: seq<Row>, start: Db, request: Request, n: nat, db: Db, db': Db,
                      row: Row)
    requires AllPathsAgree(cfg) && cfg.Valid() && AllKeyed(cfg, batch) && row in batch && !Malformed(cfg, row)
    requires n < |request.lines| && request.lines[n] == SingleLine(cfg, row)
    requires LinesHeld(cfg, batch, request, n, db) && Grown(b, cfg, batch, start, db, db') && Holds(cfg, db', row)
    ensures LinesHeld(cfg, batch, request, n + 1, db')
  {
    hide Clean, Holds, Malformed, Carries, AllPathsAgree, AllKeyed, SingleLine;
    forall j, other | 0 <= j < n + 1 && other in batch && !Malformed(cfg, other) && Carries(cfg, request, j, other)
      ensures Holds(cfg, db', other)
    {
      if j == n {
        SameLineHolds(cfg, batch, request, n, row, other, db');
      }
    }
  }

  lemma {:induction false} LinesGrow(b: Backend, cfg: Config, batch: seq<Row>, start: Db, db: Db, request: Request,
                                     n: nat)
    requires AllPathsAgree(cfg) && Importable(cfg, batch) && db.Valid() && Clean(b, cfg, batch, start, db)
    requires FromBatch(cfg, batch, request) && AllGood(b, request) && n <= |request.lines|
    ensures Grown(b, cfg, batch, start, db, UpsertLines(db, request.header, request.lines, n))
    ensures LinesHeld(cfg, batch, request, n, UpsertLines(db, request.header, request.lines, n))
  {
    if n == 0 {
    } else {
      hide LinesHeld, Grown, Holds, Malformed, AllPathsAgree, DistinctKeys, Upsert, SingleLine, SingleHeader, Accepted,
           FromBatch, AllGood;
      LinesGrow(b, cfg, batch, start, db, request, n - 1);
      var before := UpsertLines(db, request.header, request.lines, n - 1);
      var row := CarriedGoodRow(b, cfg, batch, request, n - 1);
      PathsPart(cfg);
      GrownIsClean(b, cfg, batch, start, db, before);
      UpsertGrows(b, cfg, batch, start, before, row);
      var after := Upsert(before, SingleHeader(cfg), SingleLine(cfg, row));
      GrownTwice(b, cfg, batch, start, db, before, after);
      LinesHeldStep(b, cfg, batch, start, request, n - 1, before, after, row);
    }
  }

  lemma GrownIsClean(b: Backend, cfg: Config, batch: seq<Row>, start: Db, db: Db, db': Db)
    requires cfg.Valid() && Grown(b, cfg, batch, start, db, db')
    ensures Clean(b, cfg, batch, start, db')
  {
  }

  lemma UpsertGrows(b: Backend, cfg: Config, batch: seq<Row>, start: Db, db: Db, row: Row)
    requires FallbackPathsAgree(cfg) && Importable(cfg, batch) && db.Valid()
    requires Clean(b, cfg, batch, start, db) && IsGoodRow(b, cfg, batch, row)
    ensures var db' := Upsert(db, SingleHeader(cfg), SingleLine(cfg, row));
      Grown(b, cfg, batch, start, db, db') && Holds(cfg, db', row)
  {
    hide Clean, Holds, FallbackPathsAgree, Importable, Upsert, Accepted;
    UpsertKeepsClean(b, cfg, batch, start, db, row);
  }

  lemma CarriedGoodRow(b: Backend, cfg: Config, batch: seq<Row>, request: Request, j: nat) returns (row: Row)
    requires AllPathsAgree(cfg) && Importable(cfg, batch)
    requires FromBatch(cfg, batch, request) && AllGood(b, request) && j < |request.lines|
    ensures cfg.Valid() && IsGoodRow(b, cfg, batch, row)
    ensures request.header == SingleHeader(cfg) && request.lines[j] == SingleLine(cfg, row)
  {
    hide AllPathsAgree, SingleHeader, SingleLine, Carries, DistinctKeys, AllKeyed;
    assert CarriesSome(cfg, batch, request, j);
    row :| row in batch && Carries(cfg, request, j, row);
    WidthMember(cfg, batch, row);
    CarriedLine(cfg, request, j, row);
    assert b.good(request.header, request.lines[j]);
  }

  lemma WidthMember(cfg: Config, batch: seq<Row>, row: Row)
    requires AllWellFormed(cfg, batch) && row in batch
    ensures !Malformed(cfg, row)
  {
  }

  lemma SameLineHolds(cfg: Config, batch: seq<Row>, request: Request, j: nat, row: Row, other: Row, db: Db)
    requires AllPathsAgree(cfg) && cfg.Valid() && AllKeyed(cfg, batch) && row in batch && other in batch
    requires !Malformed(cfg, row) && !Malformed(cfg, other)
    requires j < |request.lines| && request.lines[j] == SingleLine(cfg, row) && Carries(cfg, request, j, other)
    requires Holds(cfg, db, row)
    ensures Holds(cfg, db, other)
  {
    hide AllPathsAgree, SingleHeader, SingleLine, Carries, Malformed, ToXmlid;
    CarriedLine(cfg, request, j, other);
    PathsPart(cfg);
    KeyedMember(cfg, batch, row);
    KeyedMember(cfg, batch, other);
    LineHasKey(cfg, row);
    LineHasKey(cfg, other);
  }

  // ----- The rows the server refuses -----

  function Refused(b: Backend, cfg: Config, rows: seq<Row>): seq<Row>
    requires cfg.Valid() && AllWellFormed(cfg, rows)
  {
    if rows == [] then []
    else
      var init, last := Refused(b, cfg, rows[..|rows| - 1]), rows[|rows| - 1];
      if Accepted(b, cfg, last) then init else init + [last]
  }

  lemma {:induction false} RefusedCounts(b: Backend, cfg: Config, rows: seq<Row>, row: Row)
    requires cfg.Valid() && AllWellFormed(cfg, rows) && !Malformed(cfg, row)
    ensures multiset(Refused(b, cfg, rows))[row] == if Accepted(b, cfg, row) then 0 else multiset(rows)[row]
  {
    hide Accepted, Malformed;
    if rows != [] {
      var init, last := rows[..|rows| - 1], rows[|rows| - 1];
      RefusedCounts(b, cfg, init, row);
      assert rows == init + [last];
      Appended(last, init);
      Appended(last, Refused(b, cfg, init));
    }
  }

  lemma {:induction false} FailedAreRefused(b: Backend, cfg: Config, rows: seq<Row>, db: Db)
    requires cfg.Valid() && AllWellFormed(cfg, rows) && db.Valid()
    ensures OneByOne(b, cfg, rows, db).failed == Refused(b, cfg, rows)
  {
    if rows != [] {
      hide Accepted, Malformed, Upsert, IdOf;
      FailedAreRefused(b, cfg, rows[..|rows| - 1], db);
    }
  }

  ghost predicate GoodHeld(b: Backend, cfg: Config, rows: seq<Row>, db: Db)
    requires cfg.Valid() && AllWellFormed(cfg, rows)
  {
    forall i :: 0 <= i < |rows| && Accepted(b, cfg, rows[i]) ==> Holds(cfg, db, rows[i])
  }

  lemma {:induction false} SinglePassGrows(b: Backend, cfg: Config, batch: seq<Row>, start: Db, rows: seq<Row>, db: Db)
    requires FallbackPathsAgree(cfg) && Importable(cfg, batch) && Within(rows, batch) && AllWellFormed(cfg, rows)
    requires db.Valid() && Clean(b, cfg, batch, start, db)
    ensures Grown(b, cfg, batch, start, db, OneByOne(b, cfg, rows, db).db)
    ensures GoodHeld(b, cfg, rows, OneByOne(b, cfg, rows, db).db)
  {
    hide Grown, GoodHeld, Malformed, FallbackPathsAgree, DistinctKeys, AllKeyed, AllWellFormed, Within, Clean, OneByOne,
         One;
    if rows == [] {
      EmptyPass(b, cfg, batch, start, db);
    } else {
      var init, last := rows[..|rows| - 1], rows[|rows| - 1];
      assert rows == init + [last];
      InitWithin(cfg, batch, rows);
      SinglePassGrows(b, cfg, batch, start, init, db);
      OneByOneExtend(b, cfg, init, last, db);
      PassStep(b, cfg, batch, start, init, last, db, OneByOne(b, cfg, init, db).db);
    }
  }

  lemma InitWithin(cfg: Config, batch: seq<Row>, rows: seq<Row>)
    requires rows != [] && Within(rows, batch) && AllWellFormed(cfg, rows)
    ensures Within(rows[..|rows| - 1], batch) && AllWellFormed(cfg, rows[..|rows| - 1])
    ensures rows[|rows| - 1] in batch && !Malformed(cfg, rows[|rows| - 1])
  {
  }

  lemma EmptyPass(b: Backend, cfg: Config, batch: seq<Row>, start: Db, db: Db)
    requires cfg.Valid() && db.Valid() && Clean(b, cfg, batch, start, db)
    ensures AllWellFormed(cfg, []) && OneByOne(b, cfg, [], db).db == db
    ensures Grown(b, cfg, batch, start, db, db) && GoodHeld(b, cfg, [], db)
  {
  }

  lemma PassStep(b: Backend, cfg: Config, batch: seq<Row>, start: Db, rows: seq<Row>, last: Row, db: Db, before: Db)
    requires FallbackPathsAgree(cfg) && Importable(cfg, batch) && Within(rows, batch) && AllWellFormed(cfg, rows)
    requires last in batch && !Malformed(cfg, last) && before.Valid()
    requires Grown(b, cfg, batch, start, db, before) && GoodHeld(b, cfg, rows, before)
    ensures var after := One(b, cfg, last, before).db;
      Grown(b, cfg, batch, start, db, after) && AllWellFormed(cfg, rows + [last])
          && GoodHeld(b, cfg, rows + [last], after)
  {
    hide Grown, GoodHeld, Malformed, FallbackPathsAgree, DistinctKeys, AllKeyed, Accepted, SingleLine, SingleHeader,
         Upsert, IdOf;
    GrownIsClean(b, cfg, batch, start, db, before);
    if Accepted(b, cfg, last) {
      var after := Upsert(before, SingleHeader(cfg), SingleLine(cfg, last));
      UpsertGrows(b, cfg, batch, start, before, last);
      GrownTwice(b, cfg, batch, start, db, before, after);
      GoodHeldStep(b, cfg, batch, start, rows, last, before, after);
    } else {
      GrownItself(b, cfg, batch, start, before);
      GoodHeldStep(b, cfg, batch, start, rows, last, before, before);
    }
  }

  lemma GrownItself(b: Backend, cfg: Config, batch: seq<Row>, start: Db, db: Db)
    requires cfg.Valid() && Clean(b, cfg, batch, start, db)
    ensures Grown(b, cfg, batch, start, db, db)
  {
  }

  lemma GoodHeldStep(b: Backend, cfg: Config, batch: seq<Row>, start: Db, rows: seq<Row>, last: Row, db: Db, db': Db)
    requires cfg.Valid() && AllWellFormed(cfg, rows) && !Malformed(cfg, last) && Within(rows, batch)
    requires GoodHeld(b, cfg, rows, db) && Grown(b, cfg, batch, start, db, db')
    requires Accepted(b, cfg, last) ==> Holds(cfg, db', last)
    ensures AllWellFormed(cfg, rows + [last]) && GoodHeld(b, cfg, rows + [last], db')
  {
    hide Clean, Holds, Malformed, Accepted;
  }
}
