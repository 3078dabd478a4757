/**
 What the load requests contain, said of the columns themselves: which columns of the source file each
 load path sends, in what order, and where each cell comes from.
 */
module RequestShape {
  import opened XmlId
  import opened LoadProtocol
  import opened ColumnNames
  import opened LoadFallback
  import opened FallbackFacts
  import opened LoadWorker
  import opened WorkerFacts
  import opened HistoryFacts
  import opened StoreFacts
  import opened Packing

  /** The ignore list, as each path reads it: with or without "/id", the whole column, or its field. */
  ghost predicate Ignored(ignore: seq<string>, path: LoadPath, column: string) {
    match path
    case WorkerPath => exists field :: ColumnOf(column, field) && (field in ignore || field + "/id" in ignore)
    case FallbackPath => column in ignore
    case SinglePath => exists field :: ColumnOf(column, field) && field in ignore
  }

  /** The column numbers not ignored, in order. */
  ghost predicate Selects(cfg: Config, path: LoadPath, kept: seq<nat>) {
    && (forall j :: 0 <= j < |kept| ==> kept[j] < |cfg.header|)
    && (forall a, b :: 0 <= a < b < |kept| ==> kept[a] < kept[b])
    && (forall k: nat :: k < |cfg.header| ==> (k in kept <==> !Ignored(cfg.ignore, path, cfg.header[k])))
  }

  ghost predicate HeaderSent(cfg: Config, kept: seq<nat>, header: seq<string>)
    requires forall j :: 0 <= j < |kept| ==> kept[j] < |cfg.header|
  {
    |header| == |kept| && forall j :: 0 <= j < |kept| ==> header[j] == cfg.header[kept[j]]
  }

  /**
   The cell that is sanitised: at the id's place in the unfiltered row, at the id column, or at the first
   column called "id".
   */
  ghost predicate SanitisedAt(cfg: Config, path: LoadPath, kept: seq<nat>, j: nat)
    requires j < |kept| && forall j :: 0 <= j < |kept| ==> kept[j] < |cfg.header|
  {
    match path
    case WorkerPath => j == cfg.uid
    case FallbackPath => kept[j] == cfg.uid
    case SinglePath => cfg.header[kept[j]] == "id" && forall i :: 0 <= i < j ==> cfg.header[kept[i]] != "id"
  }

  /** Each cell comes from the column its header comes from; the single-record path puts the unique id under "id". */
  ghost predicate LineSent(cfg: Config, path: LoadPath, kept: seq<nat>, row: Row, line: Row)
    requires forall j :: 0 <= j < |kept| ==> kept[j] < |cfg.header|
  {
    && |line.cells| == |kept|
    && forall j: nat :: j < |kept| ==>
         && kept[j] < |row.cells|
         && line.cells[j] ==
            if !SanitisedAt(cfg, path, kept, j) then row.cells[kept[j]]
            else if path == SinglePath && cfg.uid < |row.cells| then ToXmlid(row.cells[cfg.uid])
            else ToXmlid(row.cells[kept[j]])
  }

  /** With nothing to ignore the worker sends the row as it is, short or long, its id sanitised. */
  ghost predicate WholeRowSent(cfg: Config, row: Row, line: Row) {
    && |line.cells| == |row.cells|
    && forall j: nat :: j < |row.cells| ==>
         line.cells[j] == if j == cfg.uid then ToXmlid(row.cells[j]) else row.cells[j]
  }

  // ----- Reading the ignore list -----

  lemma DropsIgnored(cfg: Config, path: LoadPath, column: string)
    ensures Drops(cfg, path, column) <==> Ignored(cfg.ignore, path, column)
  {
    hide Base, WithoutIdSuffix, ColumnOf;
    var field := Base(column);
    BaseIsField(column);
    forall entry ensures WithoutIdSuffix(entry) == field <==> entry == field || entry == field + "/id" {
      SuffixCut(field, entry);
    }
  }

  lemma KeptSelects(cfg: Config, path: LoadPath)
    ensures Selects(cfg, path, Kept(cfg, path))
  {
    hide Drops, Ignored, KeptFrom;
    var kept := Kept(cfg, path);
    KeptAreNotDropped(cfg, path, 0);
    forall k: nat | k < |cfg.header| ensures k in kept <==> !Ignored(cfg.ignore, path, cfg.header[k]) {
      DropsIgnored(cfg, path, cfg.header[k]);
      if !Drops(cfg, path, cfg.header[k]) {
        KeptContains(cfg, path, 0, k);
      }
    }
  }

  // ----- The three paths -----

  /** The bulk load of a chunk. */
  lemma WorkerSends(cfg: Config, row: Row) returns (kept: seq<nat>)
    requires cfg.Valid() && !TooShort(cfg, row)
    ensures Selects(cfg, WorkerPath, kept) && HeaderSent(cfg, kept, WorkerHeader(cfg))
    ensures cfg.ignore == [] ==> WholeRowSent(cfg, row, WorkerLine(cfg, row))
    ensures cfg.ignore != [] ==> LineSent(cfg, WorkerPath, kept, row, WorkerLine(cfg, row))
  {
    hide KeptFrom, ToXmlid, Selects, WholeRowSent, LineSent;
    kept := Kept(cfg, WorkerPath);
    KeptSelects(cfg, WorkerPath);
    if cfg.ignore == [] {
      NothingIgnored(cfg, WorkerPath, 0);
      WholeRow(cfg, row);
    } else {
      KeptColumns(cfg, row);
    }
  }

  lemma WholeRow(cfg: Config, row: Row)
    requires cfg.Valid() && cfg.ignore == [] && !TooShort(cfg, row)
    ensures WholeRowSent(cfg, row, WorkerLine(cfg, row))
  {
    hide KeptFrom, ToXmlid;
  }

  lemma KeptColumns(cfg: Config, row: Row)
    requires cfg.Valid() && cfg.ignore != [] && !TooShort(cfg, row)
    ensures LineSent(cfg, WorkerPath, Kept(cfg, WorkerPath), row, WorkerLine(cfg, row))
  {
    hide KeptFrom, ToXmlid;
  }

  /** A row is left out of a chunk if it lacks a column that has to be sent. */
  lemma TooShortMeans(cfg: Config, row: Row)
    requires cfg.Valid()
    ensures TooShort(cfg, row) <==>
            && cfg.ignore != []
            && (|| row.cells == []
                || exists k: nat :: |row.cells| <= k < |cfg.header| && !Ignored(cfg.ignore, WorkerPath, cfg.header[k]))
  {
    hide KeptFrom, Ignored;
    var kept := Kept(cfg, WorkerPath);
    KeptSelects(cfg, WorkerPath);
    if kept != [] {
      var last := kept[|kept| - 1];
      assert last in kept && last == MaxIndex(cfg);
    } else {
      forall k: nat | k < |cfg.header| ensures Ignored(cfg.ignore, WorkerPath, cfg.header[k]) {
        assert k !in kept;
      }
    }
  }

  /** The bulk load of the binary fallback. */
  lemma FallbackSends(cfg: Config, row: Row) returns (kept: seq<nat>)
    requires cfg.Valid() && |row.cells| == |cfg.header|
    ensures Selects(cfg, FallbackPath, kept) && HeaderSent(cfg, kept, FallbackHeader(cfg))
    ensures LineSent(cfg, FallbackPath, kept, row, FallbackLine(cfg, row))
  {
    hide KeptFrom, ToXmlid, Ignored;
    kept := Kept(cfg, FallbackPath);
    KeptSelects(cfg, FallbackPath);
  }

  /** The load of a single record. */
  lemma SingleSends(cfg: Config, row: Row) returns (kept: seq<nat>)
    requires cfg.Valid() && |row.cells| == |cfg.header|
    ensures Selects(cfg, SinglePath, kept) && HeaderSent(cfg, kept, SingleHeader(cfg))
    ensures LineSent(cfg, SinglePath, kept, row, SingleLine(cfg, row))
  {
    hide KeptFrom, ToXmlid, Ignored;
    kept := Kept(cfg, SinglePath);
    KeptSelects(cfg, SinglePath);
  }

  /**
   The streaming reader skips a row that lacks a column to be sent, and sends the columns of the single-record path.
   */
  lemma StreamSends(cfg: Config, row: Row) returns (kept: seq<nat>)
    requires cfg.ignore != [] && Kept(cfg, SinglePath) != []
    ensures Selects(cfg, SinglePath, kept)
    ensures Skipped(cfg, row) <==>
            exists k: nat :: |row.cells| <= k < |cfg.header| && !Ignored(cfg.ignore, SinglePath, cfg.header[k])
    ensures var out := Streamed(cfg, [row]);
      if Skipped(cfg, row) then out == []
      else |out| == 1 && |out[0].cells| == |kept|
           && forall j :: 0 <= j < |kept| ==> kept[j] < |row.cells| && out[0].cells[j] == row.cells[kept[j]]
  {
    hide KeptFrom, Ignored;
    kept := Kept(cfg, SinglePath);
    KeptSelects(cfg, SinglePath);
    assert kept[|kept| - 1] in kept;
    assert [row][..0] == [];
    assert Streamed(cfg, [row][..0]) == [];
  }

  // ----- Every request of a batch -----

  /** The request is one of the given path and its line `pos` is made of the row. */
  ghost predicate Shaped(cfg: Config, path: LoadPath, request: Request, pos: nat, row: Row, kept: seq<nat>) {
    && pos < |request.lines| && Selects(cfg, path, kept) && HeaderSent(cfg, kept, request.header)
    && if path == WorkerPath && cfg.ignore == [] then WholeRowSent(cfg, row, request.lines[pos])
       else LineSent(cfg, path, kept, row, request.lines[pos])
  }

  lemma CarriedIsShaped(cfg: Config, request: Request, pos: nat, row: Row) returns (path: LoadPath, kept: seq<nat>)
    requires cfg.Valid() && Carries(cfg, request, pos, row)
    ensures Shaped(cfg, path, request, pos, row, kept)
  {
    hide Selects, HeaderSent, LineSent, WholeRowSent, WorkerLine, WorkerHeader, SingleLine, SingleHeader, FallbackLine,
         FallbackHeader;
    if !TooShort(cfg, row) && request.header == WorkerHeader(cfg) && request.lines[pos] == WorkerLine(cfg, row) {
      path := WorkerPath;
      kept := WorkerSends(cfg, row);
    } else if request.header == FallbackHeader(cfg) && request.lines[pos] == FallbackLine(cfg, row) {
      path := FallbackPath;
      kept := FallbackSends(cfg, row);
    } else {
      path := SinglePath;
      kept := SingleSends(cfg, row);
    }
  }

  ghost predicate SomeShape(cfg: Config, batch: seq<Row>, request: Request, pos: nat) {
    exists path, row, kept :: row in batch && Shaped(cfg, path, request, pos, row, kept)
  }

  /** Whatever the server answers, each line the worker ever sends is a row of its batch in one of the three shapes. */
  lemma RequestsAreShaped(server: Server, cfg: Config, batch: seq<Row>, forceCreate: bool, h: History, k: nat, pos: nat)
    requires cfg.Valid() && AnswersProgress(server)
    requires var sent := Execute(server, cfg, batch, forceCreate, h).out.hist;
      |h| <= k < |sent| && pos < |sent[k].request.lines|
    ensures SomeShape(cfg, batch, Execute(server, cfg, batch, forceCreate, h).out.hist[k].request, pos)
  {
    hide Execute, AnswersProgress, Carries, Shaped;
    BatchGenuine(server, cfg, batch, forceCreate, h);
    var request := Execute(server, cfg, batch, forceCreate, h).out.hist[k].request;
    assert FromBatch(cfg, batch, request);
    assert CarriesSome(cfg, batch, request, pos);
    var row :| row in batch && Carries(cfg, request, pos, row);
    var path, kept := CarriedIsShaped(cfg, request, pos, row);
  }

  lemma ChunkIsSent(server: Server, cfg: Config, current: seq<Row>, chunk: nat, conflicts: nat, h: History)
    requires cfg.Valid() && AnswersProgress(server) && chunk >= 1
    requires forall i :: 0 <= i < |current| ==> !TooShort(cfg, current[i])
    ensures var request := WorkerRequest(cfg, current);
      h + [Exchange(request, server(h, request))] <= TryChunk(server, cfg, current, current, chunk, conflicts,
          h).done.out.hist
  {
    hide Absorb, Fallback, WorkerRequest, Verdict, TooShort, AnswersProgress;
  }

  lemma BatchIsSent(server: Server, cfg: Config, batch: seq<Row>, h: History)
    requires cfg.Valid() && AnswersProgress(server) && batch != []
    requires forall i :: 0 <= i < |batch| ==> !TooShort(cfg, batch[i])
    ensures var request := WorkerRequest(cfg, batch);
      h + [Exchange(request, server(h, request))] <= Execute(server, cfg, batch, false, h).out.hist
  {
    hide TryChunk, WorkerRequest, TooShort, AnswersProgress, Sendable, Dropped;
    assert batch[..|batch|] == batch;
    NothingDropped(cfg, batch);
    ChunkIsSent(server, cfg, batch, |batch|, 0, h);
  }

  /** A batch first goes out whole, through the worker's path, one line for each row and in order. */
  lemma FirstRequest(server: Server, cfg: Config, batch: seq<Row>, h: History) returns (kept: seq<nat>)
    requires cfg.Valid() && AnswersProgress(server) && batch != []
    requires forall i :: 0 <= i < |batch| ==> !TooShort(cfg, batch[i])
    ensures var sent := Execute(server, cfg, batch, false, h).out.hist;
      && |sent| > |h| && |sent[|h|].request.lines| == |batch|
      && forall i: nat :: i < |batch| ==> Shaped(cfg, WorkerPath, sent[|h|].request, i, batch[i], kept)
  {
    hide Execute, TooShort, AnswersProgress, Selects, HeaderSent, LineSent, WholeRowSent, WorkerLine, WorkerHeader;
    BatchIsSent(server, cfg, batch, h);
    var request := WorkerRequest(cfg, batch);
    assert Execute(server, cfg, batch, false, h).out.hist[|h|].request == request;
    kept := WorkerSends(cfg, batch[0]);
    forall i: nat | i < |batch| ensures Shaped(cfg, WorkerPath, request, i, batch[i], kept) {
      var kept' := WorkerSends(cfg, batch[i]);
      SameSelection(cfg, WorkerPath, kept, kept');
    }
  }

  /** The fallback sends its rows in bulk first, through its own path. */
  lemma FallbackRequest(server: Server, cfg: Config, valid: seq<Row>, h: History) returns (kept: seq<nat>)
    requires cfg.Valid() && AnswersProgress(server) && |valid| >= 2
    requires forall i :: 0 <= i < |valid| ==> |valid[i].cells| == |cfg.header|
    ensures var sent := Fallback(server, cfg, valid, h).hist;
      && |sent| > |h| && |sent[|h|].request.lines| == |valid|
      && forall i: nat :: i < |valid| ==> Shaped(cfg, FallbackPath, sent[|h|].request, i, valid[i], kept)
  {
    hide AnswersProgress, Selects, HeaderSent, LineSent, FallbackLine, FallbackHeader, Singles, Missing, Credits, Acks;
    FallbackIsBisect(server, cfg, valid, h);
    var request := BisectRequest(cfg, valid);
    assert h + [Exchange(request, server(h, request))] <= Bisect(server, cfg, valid, h).hist;
    assert Bisect(server, cfg, valid, h).hist[|h|].request == request;
    kept := FallbackSends(cfg, valid[0]);
    forall i: nat | i < |valid| ensures Shaped(cfg, FallbackPath, request, i, valid[i], kept) {
      var kept' := FallbackSends(cfg, valid[i]);
      SameSelection(cfg, FallbackPath, kept, kept');
    }
  }

  /** A row whose width is not the header's fails in both fallbacks, in its place and without a call. */
  lemma OddRowsAreNotSent(server: Server, cfg: Config, row: Row, h: History)
    requires cfg.Valid() && AnswersProgress(server) && |row.cells| != |cfg.header|
    ensures Single(server, cfg, row, h) == Outcome(h, map[], [row], [])
    ensures Fallback(server, cfg, [row], h) == Outcome(h, map[], [row], [])
  {
    assert [row][..0] == [] && [row][|[row]| - 1] == row;
    assert MalformedRows(cfg, [row][..0]) == [] && WellFormed(cfg, [row][..0]) == [];
    assert MalformedRows(cfg, [row]) == [row] && WellFormed(cfg, [row]) == [];
  }

  /** A single-record load sends one line, through the single-record path. */
  lemma SingleRecordRequest(server: Server, cfg: Config, row: Row, h: History) returns (kept: seq<nat>)
    requires cfg.Valid() && |row.cells| == |cfg.header|
    ensures var sent := Single(server, cfg, row, h).hist;
      |sent| == |h| + 1 && |sent[|h|].request.lines| == 1 && Shaped(cfg, SinglePath, sent[|h|].request, 0, row, kept)
  {
    kept := SingleSends(cfg, row);
  }

  /** The ignore list leaves no choice. */
  lemma {:induction false} SameSelection(cfg: Config, path: LoadPath, a: seq<nat>, b: seq<nat>)
    requires Selects(cfg, path, a) && Selects(cfg, path, b)
    ensures a == b
  {
    forall k: nat ensures k in a <==> k in b {
    }
    SameAscending(a, b);
  }

  lemma {:induction false} SameAscending(a: seq<nat>, b: seq<nat>)
    requires forall i, j :: 0 <= i < j < |a| ==> a[i] < a[j]
    requires forall i, j :: 0 <= i < j < |b| ==> b[i] < b[j]
    requires forall k: nat :: k in a <==> k in b
    ensures a == b
  {
    assert (a != [] ==> a[0] in a) && (b != [] ==> b[0] in b);
    if a != [] && b != [] {
      var x, y := a[|a| - 1], b[|b| - 1];
      assert x in b && y in a && x == y;
      var a', b' := a[..|a| - 1], b[..|b| - 1];
      WithoutLast(a);
      WithoutLast(b);
      forall k: nat ensures k in a' <==> k in b' {
        assert (k in a' <==> k in a && k != x) && (k in b' <==> k in b && k != y);
      }
      SameAscending(a', b');
      assert a == a' + [x] && b == b' + [y];
    }
  }

  lemma WithoutLast(a: seq<nat>)
    requires a != [] && forall i, j :: 0 <= i < j < |a| ==> a[i] < a[j]
    ensures forall k: nat :: k in a[..|a| - 1] <==> k in a && k != a[|a| - 1]
  {
  }
}
