/**
 The client side of `model.load`: what a row becomes on the wire in each of the three load paths,
 what the server may answer, and the assumptions the importer makes about those answers.

 The server is an adversary: its reply may be any function of the whole history of the connection
 and of the request at hand.
 */
module LoadProtocol {
  import opened Basics
  import opened XmlId

  /** One source line, or one line of a request. */
  datatype Row = Row(cells: seq<string>)

  /** The thread state a load worker reads: header, index of the unique id column, ignore list. */
  datatype Config = Config(header: seq<string>, uid: nat, ignore: seq<string>) {
    predicate Valid() {
      uid < |header|
    }
  }

  /** What the client concluded from an error, in the order the worker tests for it. */
  datatype ErrorKind = ReadTimeout | TooLarge | Transient(serialization: bool) | Permanent

  datatype Request = Request(header: seq<string>, lines: seq<Row>)

  /**
   An answer carries the `ids` list and, possibly, an error message; `perRow` says whether the
   messages name row numbers. An `ids` of False is a raised Permanent error in every path.
   */
  datatype Reply =
    | Answer(ids: seq<Option<int>>, error: Option<ErrorKind>, perRow: bool)
    | Raised(kind: ErrorKind)

  datatype Exchange = Exchange(request: Request, reply: Reply)
  type History = seq<Exchange>
  type Server = (History, Request) -> Reply

  /** The server acknowledged line i. */
  predicate Acked(ids: seq<Option<int>>, i: nat) {
    i < |ids| && ids[i].Some?
  }

  /**
   A non-empty answer to several lines acknowledges at least one of them; without it the fallback would
   not terminate. A single line may be answered with a None.
   */
  ghost predicate AnswersProgress(server: Server) {
    forall h: History, request: Request :: ReplyProgresses(server(h, request), |request.lines|)
  }

  ghost predicate ReplyProgresses(reply: Reply, n: nat) {
    n >= 2 && reply.Answer? && reply.ids != [] ==> exists i :: 0 <= i < n && Acked(reply.ids, i)
  }

  /** An answer as long as the request has no hole; the worker compares lengths only. */
  ghost predicate AnswersWithoutHoles(server: Server) {
    forall h: History, request: Request :: ReplyHasNoHole(server(h, request), |request.lines|)
  }

  ghost predicate ReplyHasNoHole(reply: Reply, n: nat) {
    reply.Answer? && |reply.ids| >= n ==> forall i :: 0 <= i < n ==> Acked(reply.ids, i)
  }

  // ----- Column projection: each load path has its own rule for the ignore list -----

  datatype LoadPath = WorkerPath | FallbackPath | SinglePath

  /** `h.split("/")[0]` */
  function Base(column: string): string {
    if column == "" || column[0] == '/' then "" else [column[0]] + Base(column[1..])
  }

  function WithoutIdSuffix(field: string): string {
    if |field| >= 3 && field[|field| - 3..] == "/id" then field[..|field| - 3] else field
  }

  predicate Drops(cfg: Config, path: LoadPath, column: string) {
    match path
    case WorkerPath => exists f :: f in cfg.ignore && WithoutIdSuffix(f) == Base(column)
    case FallbackPath => column in cfg.ignore
    case SinglePath => Base(column) in cfg.ignore
  }

  function KeptFrom(cfg: Config, path: LoadPath, i: nat): (kept: seq<nat>)
    requires i <= |cfg.header|
    ensures forall j :: 0 <= j < |kept| ==> i <= kept[j] < |cfg.header|
    ensures forall a, b :: 0 <= a < b < |kept| ==> kept[a] < kept[b]
    decreases |cfg.header| - i
  {
    if i == |cfg.header| then []
    else if Drops(cfg, path, cfg.header[i]) then KeptFrom(cfg, path, i + 1)
    else
      var rest := KeptFrom(cfg, path, i + 1);
      [i] + rest
  }

  lemma {:induction false} KeptContains(cfg: Config, path: LoadPath, i: nat, k: nat)
    requires i <= k < |cfg.header| && !Drops(cfg, path, cfg.header[k])
    ensures k in KeptFrom(cfg, path, i)
    decreases k - i
  {
    if i < k {
      KeptContains(cfg, path, i + 1, k);
    }
  }

  function Kept(cfg: Config, path: LoadPath): seq<nat> {
    KeptFrom(cfg, path, 0)
  }

  /** `max_index_needed`: the largest kept index, 0 when nothing is kept. */
  function MaxIndex(cfg: Config): (m: nat)
    ensures var kept := Kept(cfg, WorkerPath); forall j :: 0 <= j < |kept| ==> kept[j] <= m
    ensures cfg.Valid() ==> m < |cfg.header|
  {
    var kept := Kept(cfg, WorkerPath);
    if kept == [] then 0 else kept[|kept| - 1]
  }

  function Project(cells: seq<string>, kept: seq<nat>): seq<string>
    requires forall j :: 0 <= j < |kept| ==> kept[j] < |cells|
  {
    seq(|kept|, j requires 0 <= j < |kept| => cells[kept[j]])
  }

  function IndexOf<T(==)>(s: seq<T>, x: T): (i: Option<nat>)
    ensures i.None? ==> x !in s
    ensures i.Some? ==> i.value < |s| && s[i.value] == x
    ensures i.Some? ==> forall k :: 0 <= k < i.value ==> s[k] != x
  {
    if s == [] then None
    else if s[0] == x then Some(0)
    else
      match IndexOf(s[1..], x)
      case None => None
      case Some(i) => Some(i + 1)
  }

  /** A row the worker drops before sending: it lacks a column that has to be sent. */
  predicate TooShort(cfg: Config, row: Row) {
    cfg.ignore != [] && |row.cells| <= MaxIndex(cfg)
  }

  /** A row the fallbacks refuse to send. */
  predicate Malformed(cfg: Config, row: Row) {
    |row.cells| != |cfg.header|
  }

  function SanitiseAt(cells: seq<string>, i: nat): seq<string> {
    if i < |cells| then cells[i := ToXmlid(cells[i])] else cells
  }

  function Key(cfg: Config, row: Row): string
    requires cfg.uid < |row.cells|
  {
    ToXmlid(row.cells[cfg.uid])
  }

  /** The worker sanitises at the index of the unfiltered header, even on a filtered line. */
  function WorkerLine(cfg: Config, row: Row): Row
    requires !TooShort(cfg, row)
  {
    Row(SanitiseAt(if cfg.ignore == [] then row.cells else Project(row.cells, Kept(cfg, WorkerPath)), cfg.uid))
  }

  function WorkerHeader(cfg: Config): seq<string> {
    if cfg.ignore == [] then cfg.header else Project(cfg.header, Kept(cfg, WorkerPath))
  }

  function FallbackLine(cfg: Config, row: Row): Row
    requires cfg.Valid() && !Malformed(cfg, row)
  {
    var kept := Kept(cfg, FallbackPath);
    match IndexOf(kept, cfg.uid)
    case None => Row(Project(row.cells, kept))
    case Some(i) => Row(SanitiseAt(Project(row.cells, kept), i))
  }

  function FallbackHeader(cfg: Config): seq<string> {
    Project(cfg.header, Kept(cfg, FallbackPath))
  }

  /** The single-record path overwrites the column called "id" with the sanitised unique id. */
  function SingleLine(cfg: Config, row: Row): Row
    requires cfg.Valid() && !Malformed(cfg, row)
  {
    var kept := Kept(cfg, SinglePath);
    match IndexOf(SingleHeader(cfg), "id")
    case None => Row(Project(row.cells, kept))
    case Some(i) => Row(Project(row.cells, kept)[i := Key(cfg, row)])
  }

  function SingleHeader(cfg: Config): seq<string> {
    Project(cfg.header, Kept(cfg, SinglePath))
  }

  /** The two fallback paths send the same request for a row. */
  ghost predicate FallbackPathsAgree(cfg: Config) {
    && cfg.Valid()
    && (forall column :: column in cfg.header ==> (column in cfg.ignore <==> Base(column) in cfg.ignore))
    && IndexOf(cfg.header, "id") == Some(cfg.uid)
    && "id" !in cfg.ignore
  }

  lemma {:induction false} SameKept(cfg: Config, i: nat)
    requires FallbackPathsAgree(cfg) && i <= |cfg.header|
    ensures KeptFrom(cfg, FallbackPath, i) == KeptFrom(cfg, SinglePath, i)
    decreases |cfg.header| - i
  {
    if i < |cfg.header| {
      var column := cfg.header[i];
      assert column in cfg.header;
      assert Drops(cfg, FallbackPath, column) == Drops(cfg, SinglePath, column);
      SameKept(cfg, i + 1);
    }
  }

  lemma UidKept(cfg: Config)
    requires FallbackPathsAgree(cfg)
    ensures cfg.uid in Kept(cfg, SinglePath)
  {
    assert cfg.header[cfg.uid] == "id" && "id" in cfg.header;
    KeptContains(cfg, SinglePath, 0, cfg.uid);
  }

  lemma SameLine(cfg: Config, row: Row)
    requires FallbackPathsAgree(cfg) && !Malformed(cfg, row)
    ensures FallbackHeader(cfg) == SingleHeader(cfg)
    ensures FallbackLine(cfg, row) == SingleLine(cfg, row)
    ensures cfg.uid in Kept(cfg, FallbackPath)
  {
    hide ToXmlid, Drops, KeptFrom, MaxIndex;
    SameKept(cfg, 0);
    var kept := Kept(cfg, SinglePath);
    assert cfg.header[cfg.uid] == "id" && "id" in cfg.header;
    UidKept(cfg);
    var j := IndexOf(kept, cfg.uid).value;
    assert SingleHeader(cfg)[j] == "id";
    var i := IndexOf(SingleHeader(cfg), "id").value;
    assert i <= j && cfg.header[kept[i]] == "id";
  }
}
