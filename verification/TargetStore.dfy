/**
 The server the importer hopes for: it upserts by external id, accepts or refuses each line on its own
 merits, and applies a request entirely or not at all.
 */
module TargetStore {
  import opened Basics
  import opened LoadProtocol

  datatype Record = Record(id: int, line: Row)

  /** Records with an external id, records without one, and the next database id. */
  datatype Db = Db(named: map<string, Record>, unnamed: seq<Record>, next: int) {
    predicate Valid() {
      next >= 1 && forall key :: key in named ==> 1 <= named[key].id < next
    }
  }

  /** `good` decides each line by itself; `refuse` is what the server says to a bad request. */
  datatype Backend = Backend(start: Db, good: (seq<string>, Row) -> bool, refuse: (History, Request) -> Reply) {
    ghost predicate Valid() {
      start.Valid() && forall h, request :: NoIds(refuse(h, request))
    }
  }

  predicate NoIds(reply: Reply) {
    reply.Raised? || reply.ids == []
  }

  function LineKey(header: seq<string>, line: Row): string {
    match IndexOf(header, "id")
    case None => ""
    case Some(i) => if i < |line.cells| then line.cells[i] else ""
  }

  function IdFor(db: Db, key: string): (id: int)
    requires db.Valid()
    ensures 1 <= id <= db.next
  {
    if key in db.named then db.named[key].id else db.next
  }

  function Upsert(db: Db, header: seq<string>, line: Row): (r: Db)
    requires db.Valid()
    ensures r.Valid()
  {
    var key := LineKey(header, line);
    var record := Record(IdFor(db, key), line);
    var next := if record.id == db.next then db.next + 1 else db.next;
    if key == "" then Db(db.named, db.unnamed + [Record(db.next, line)], db.next + 1)
    else Db(db.named[key := record], db.unnamed, next)
  }

  /** The id an upsert of this line answers. */
  function IdOf(db: Db, header: seq<string>, line: Row): (id: int)
    requires db.Valid()
    ensures id >= 1
  {
    var key := LineKey(header, line);
    if key == "" then db.next else IdFor(db, key)
  }

  /** The first n lines upserted in order. */
  function UpsertLines(db: Db, header: seq<string>, lines: seq<Row>, n: nat): (r: Db)
    requires db.Valid() && n <= |lines|
    ensures r.Valid()
  {
    if n == 0 then db else Upsert(UpsertLines(db, header, lines, n - 1), header, lines[n - 1])
  }

  function UpsertIds(db: Db, header: seq<string>, lines: seq<Row>, n: nat): (ids: seq<Option<int>>)
    requires db.Valid() && n <= |lines|
    ensures |ids| == n
  {
    seq(n, i requires 0 <= i < n => Some(IdOf(UpsertLines(db, header, lines, i), header, lines[i])))
  }

  predicate AllGood(b: Backend, request: Request) {
    forall i :: 0 <= i < |request.lines| ==> b.good(request.header, request.lines[i])
  }

  function Apply(b: Backend, db: Db, request: Request): (r: Db)
    requires db.Valid()
    ensures r.Valid()
  {
    if AllGood(b, request) then UpsertLines(db, request.header, request.lines, |request.lines|) else db
  }

  /** The store after a history of requests. */
  function DbAfter(b: Backend, h: History): (r: Db)
    requires b.start.Valid()
    ensures r.Valid()
  {
    if h == [] then b.start else Apply(b, DbAfter(b, h[..|h| - 1]), h[|h| - 1].request)
  }

  function Serve(b: Backend, h: History, request: Request): Reply
    requires b.start.Valid()
  {
    if AllGood(b, request) then
      Answer(UpsertIds(DbAfter(b, h), request.header, request.lines, |request.lines|), None, false)
    else b.refuse(h, request)
  }

  function ServerOf(b: Backend): Server
    requires b.start.Valid()
  {
    (h: History, request: Request) => Serve(b, h, request)
  }

  lemma ServerIsHonest(b: Backend)
    requires b.Valid()
    ensures AnswersProgress(ServerOf(b))
  {
    forall h: History, request: Request
      ensures ReplyProgresses(ServerOf(b)(h, request), |request.lines|)
    {
      var reply := ServerOf(b)(h, request);
      assert NoIds(b.refuse(h, request));
      if reply.Answer? && reply.ids != [] {
        assert Acked(reply.ids, 0);
      }
    }
  }

  lemma OneMore(b: Backend, h: History, e: Exchange)
    requires b.start.Valid()
    ensures DbAfter(b, h + [e]) == Apply(b, DbAfter(b, h), e.request)
  {
    assert (h + [e])[..|h|] == h;
  }
}
