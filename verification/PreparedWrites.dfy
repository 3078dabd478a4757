/** `_prepare_pass_2_data`: the deferred cells of each loaded row become the values of one write. */
module PreparedWrites {
  import opened Basics
  import opened XmlId
  import opened LoadProtocol
  import opened WireValues
  import opened Writes

  /** A deferred field found in the header: its column, whether it ends in "/id", whether it is many2many. */
  datatype Deferred = Deferred(name: string, index: nat, external: bool, many: bool)

  /** The id map of Pass 1 and the server's external ids; `proxy` says whether those can be asked for. */
  datatype Links = Links(idMap: map<string, int>, proxy: bool, lookup: string -> Option<int>)

  function PutColumn(columns: seq<Deferred>, d: Deferred): seq<Deferred> {
    if columns == [] then [d]
    else if columns[0].name == d.name then [d] + columns[1..]
    else [columns[0]] + PutColumn(columns[1..], d)
  }

  predicate Asked(deferred: seq<string>, name: string) {
    exists f :: f in deferred && WithoutIdSuffix(f) == name
  }

  function ColumnAt(header: seq<string>, i: nat, many2many: set<string>): Deferred
    requires i < |header|
  {
    var name := Base(header[i]);
    Deferred(name, i, WithoutIdSuffix(header[i]) != header[i], name in many2many)
  }

  /** The fields found among the first n columns; a later column takes the place of an earlier one. */
  function DeferredColumns(header: seq<string>, n: nat, deferred: seq<string>, many2many: set<string>): seq<Deferred>
    requires n <= |header|
  {
    if n == 0 then []
    else
      var before := DeferredColumns(header, n - 1, deferred, many2many);
      if Asked(deferred, Base(header[n - 1])) then PutColumn(before, ColumnAt(header, n - 1, many2many)) else before
  }

  predicate DistinctNames(columns: seq<Deferred>) {
    forall i, j :: 0 <= i < j < |columns| ==> columns[i].name != columns[j].name
  }

  /** `d` is the last of the first n columns for its field. */
  predicate IsLast(header: seq<string>, n: nat, d: Deferred)
    requires n <= |header|
  {
    d.index < n && Base(header[d.index]) == d.name && forall k :: d.index < k < n ==> Base(header[k]) != d.name
  }

  lemma {:induction false} PutFacts(columns: seq<Deferred>, d: Deferred)
    requires DistinctNames(columns)
    ensures var put := PutColumn(columns, d);
      DistinctNames(put) && forall e :: e in put <==> e == d || (e in columns && e.name != d.name)
  {
    if columns != [] {
      assert columns == [columns[0]] + columns[1..];
      PutFacts(columns[1..], d);
      var put := PutColumn(columns, d);
      if columns[0].name == d.name {
        assert forall e :: e in columns[1..] ==> e.name != d.name;
      } else {
        forall j | 1 <= j < |put| ensures put[0].name != put[j].name {
          assert put[j] in PutColumn(columns[1..], d);
        }
      }
    }
  }

  /** One entry for each deferred field that has a column, and it is the last such column. */
  lemma {:induction false} LastColumnWins(header: seq<string>, n: nat, deferred: seq<string>, many2many: set<string>)
    requires n <= |header|
    ensures DistinctNames(DeferredColumns(header, n, deferred, many2many))
    ensures forall d :: d in DeferredColumns(header, n, deferred, many2many) <==>
              Asked(deferred, d.name) && IsLast(header, n, d) && d == ColumnAt(header, d.index, many2many)
  {
    hide Base, WithoutIdSuffix, Asked;
    if n > 0 {
      LastColumnWins(header, n - 1, deferred, many2many);
      if Asked(deferred, Base(header[n - 1])) {
        PutFacts(DeferredColumns(header, n - 1, deferred, many2many), ColumnAt(header, n - 1, many2many));
      }
    }
  }

  /** An id the id map has for the value; 0 is no id. */
  function Loaded(links: Links, value: string): Option<int> {
    var key := ToXmlid(value);
    if key in links.idMap && links.idMap[key] != 0 then Some(links.idMap[key]) else None
  }

  function Remote(links: Links, value: string): Option<int> {
    if links.lookup(value) == Some(0) then None else links.lookup(value)
  }

  /** Values that are taken for external ids even when the id map does not have them. */
  predicate AsksServer(links: Links, external: bool, value: string) {
    links.proxy && (external || '.' in value)
  }

  function Resolved(links: Links, external: bool, value: string): Option<int> {
    if Loaded(links, value).Some? then Loaded(links, value)
    else if AsksServer(links, external, value) then Remote(links, value)
    else None
  }

  /** `str.split(",")`, reading from the left; `part` is what was read of the current part. */
  function SplitComma(s: string, part: string): seq<string>
    decreases |s|
  {
    if s == "" then [part]
    else if s[0] == ',' then [part] + SplitComma(s[1..], "")
    else SplitComma(s[1..], part + [s[0]])
  }

  /** The ids of the parts that resolve, in order. */
  function ResolvedParts(links: Links, external: bool, parts: seq<string>): seq<int> {
    if parts == [] then []
    else
      var before, part := ResolvedParts(links, external, parts[..|parts| - 1]), Strip(parts[|parts| - 1]);
      if part == "" || Resolved(links, external, part).None? then before
      else before + [Resolved(links, external, part).value]
  }

  function Numbers(ids: seq<int>): (r: seq<Value>)
    ensures |r| == |ids|
  {
    seq(|ids|, i requires 0 <= i < |ids| => Number(ids[i]))
  }

  /** `[(6, 0, ids)]` */
  function ReplaceCommand(ids: seq<int>): Value {
    List([Tuple([Number(6), Number(0), List(Numbers(ids))])])
  }

  /** The value written for one cell, if any. */
  function CellValue(links: Links, d: Deferred, value: string): Option<Value> {
    if value == "" then None
    else if d.many then
      var ids := ResolvedParts(links, d.external, SplitComma(value, ""));
      if ids == [] then None else Some(ReplaceCommand(ids))
    else
      var id := Resolved(links, d.external, value);
      if id.Some? then Some(Number(id.value))
      else if d.external || AsksServer(links, d.external, value) then None
      else Some(Text(value))
  }

  function RowVals(links: Links, columns: seq<Deferred>, row: Row): Fields<Value> {
    if columns == [] then map[]
    else
      var before, d := RowVals(links, columns[..|columns| - 1], row), columns[|columns| - 1];
      if d.index < |row.cells| && CellValue(links, d, row.cells[d.index]).Some? then
        before[d.name := CellValue(links, d, row.cells[d.index]).value]
      else before
  }

  function Prepared(cfg: Config, links: Links, columns: seq<Deferred>, rows: seq<Row>): seq<Cell<Fields<Value>>>
    requires forall i :: 0 <= i < |rows| ==> cfg.uid < |rows[i].cells|
  {
    if rows == [] then []
    else
      var before, row := Prepared(cfg, links, columns, rows[..|rows| - 1]), rows[|rows| - 1];
      var id, vals := Loaded(links, row.cells[cfg.uid]), RowVals(links, columns, row);
      if id.Some? && vals != map[] then before + [Cell(id.value, vals)] else before
  }

  // ----- The loops, with their cache of server look-ups -----

  predicate CacheFaithful(links: Links, cache: map<string, Option<int>>) {
    forall value :: value in cache ==> cache[value] == links.lookup(value)
  }

  method AskServer(links: Links, value: string, cache: map<string, Option<int>>)
    returns (id: Option<int>, cache': map<string, Option<int>>)
    requires CacheFaithful(links, cache)
    ensures id == Remote(links, value) && CacheFaithful(links, cache')
  {
    cache' := cache;
    if value !in cache {
      cache' := cache[value := links.lookup(value)];
    }
    id := cache'[value];
    if id == Some(0) {
      id := None;
    }
  }

  method ResolveReference(links: Links, external: bool, value: string, cache: map<string, Option<int>>)
    returns (id: Option<int>, cache': map<string, Option<int>>)
    requires CacheFaithful(links, cache)
    ensures id == Resolved(links, external, value) && CacheFaithful(links, cache')
  {
    id, cache' := Loaded(links, value), cache;
    if id.None? && links.proxy && (external || '.' in value) {
      id, cache' := AskServer(links, value, cache);
    }
  }

  method ResolveCell(links: Links, d: Deferred, value: string, cache: map<string, Option<int>>)
    returns (v: Option<Value>, cache': map<string, Option<int>>)
    requires CacheFaithful(links, cache)
    ensures v == CellValue(links, d, value) && CacheFaithful(links, cache')
  {
    hide Resolved, CacheFaithful, Strip;
    cache' := cache;
    if value == "" {
      return None, cache';
    }
    if d.many {
      var parts, ids := SplitComma(value, ""), [];
      for i := 0 to |parts|
        invariant ids == ResolvedParts(links, d.external, parts[..i]) && CacheFaithful(links, cache')
      {
        assert parts[..i + 1][..i] == parts[..i];
        var part := Strip(parts[i]);
        if part != "" {
          var id;
          id, cache' := ResolveReference(links, d.external, part, cache');
          if id.Some? {
            ids := ids + [id.value];
          }
        }
      }
      assert parts[..|parts|] == parts;
      return if ids == [] then None else Some(ReplaceCommand(ids)), cache';
    }
    var id;
    id, cache' := ResolveReference(links, d.external, value, cache');
    if id.Some? {
      return Some(Number(id.value)), cache';
    }
    return if d.external || (links.proxy && '.' in value) then None else Some(Text(value)), cache';
  }

  method FindDeferredColumns(header: seq<string>, deferred: seq<string>, many2many: set<string>)
    returns (columns: seq<Deferred>)
    ensures columns == DeferredColumns(header, |header|, deferred, many2many)
  {
    columns := [];
    for i := 0 to |header|
      invariant columns == DeferredColumns(header, i, deferred, many2many)
    {
      if Asked(deferred, Base(header[i])) {
        columns := PutColumn(columns, ColumnAt(header, i, many2many));
      }
    }
  }

  lemma {:induction false} NothingDeferred(cfg: Config, links: Links, rows: seq<Row>)
    requires forall i :: 0 <= i < |rows| ==> cfg.uid < |rows[i].cells|
    ensures Prepared(cfg, links, [], rows) == []
  {
    if rows != [] {
      NothingDeferred(cfg, links, rows[..|rows| - 1]);
    }
  }

  method PreparePass2Data(cfg: Config, links: Links, deferred: seq<string>, many2many: set<string>, rows: seq<Row>)
    returns (prepared: seq<Cell<Fields<Value>>>)
    requires forall i :: 0 <= i < |rows| ==> cfg.uid < |rows[i].cells|
    ensures prepared == Prepared(cfg, links, DeferredColumns(cfg.header, |cfg.header|, deferred, many2many), rows)
  {
    hide DeferredColumns;
    var columns := FindDeferredColumns(cfg.header, deferred, many2many);
    if columns == [] {
      NothingDeferred(cfg, links, rows);
      return [];
    }
    prepared := PrepareRows(cfg, links, columns, rows);
  }

  method PrepareRows(cfg: Config, links: Links, columns: seq<Deferred>, rows: seq<Row>)
    returns (prepared: seq<Cell<Fields<Value>>>)
    requires forall i :: 0 <= i < |rows| ==> cfg.uid < |rows[i].cells|
    ensures prepared == Prepared(cfg, links, columns, rows)
  {
    hide CellValue, CacheFaithful, Loaded;
    prepared := [];
    var cache: map<string, Option<int>> := map[];
    assert CacheFaithful(links, cache) by {
      EmptyCache(links);
    }
    for i := 0 to |rows|
      invariant prepared == Prepared(cfg, links, columns, rows[..i]) && CacheFaithful(links, cache)
    {
      assert rows[..i + 1][..i] == rows[..i];
      var row, vals: Fields<Value> := rows[i], map[];
      var id := Loaded(links, row.cells[cfg.uid]);
      if id.Some? {
        for j := 0 to |columns|
          invariant vals == RowVals(links, columns[..j], row) && CacheFaithful(links, cache)
        {
          assert columns[..j + 1][..j] == columns[..j];
          if columns[j].index < |row.cells| {
            var v;
            v, cache := ResolveCell(links, columns[j], row.cells[columns[j].index], cache);
            if v.Some? {
              vals := vals[columns[j].name := v.value];
            }
          }
        }
        assert columns[..|columns|] == columns;
        if vals != map[] {
          prepared := prepared + [Cell(id.value, vals)];
        }
      }
    }
    assert rows[..|rows|] == rows;
  }

  lemma EmptyCache(links: Links)
    ensures CacheFaithful(links, map[])
  {
  }

  // ----- Prepared writes are fit for Pass 2 -----

  lemma {:induction false} NumbersTransportable(ids: seq<int>)
    ensures TransportableAll(Numbers(ids))
  {
    if ids != [] {
      NumbersTransportable(ids[1..]);
      assert Numbers(ids)[1..] == Numbers(ids[1..]);
    }
  }

  lemma CellTransportable(links: Links, d: Deferred, value: string)
    requires CellValue(links, d, value).Some?
    ensures Transportable(CellValue(links, d, value).value)
  {
    hide ResolvedParts, Resolved, SplitComma;
    if value != "" && d.many {
      var ids := ResolvedParts(links, d.external, SplitComma(value, ""));
      NumbersTransportable(ids);
      var command := Tuple([Number(6), Number(0), List(Numbers(ids))]);
      assert Transportable(command);
      assert [command][1..] == [];
      assert TransportableAll([command]);
    }
  }

  lemma {:induction false} ValsTransportable(links: Links, columns: seq<Deferred>, row: Row)
    ensures forall k :: k in RowVals(links, columns, row) ==> Transportable(RowVals(links, columns, row)[k])
  {
    hide CellValue, Transportable;
    if columns != [] {
      ValsTransportable(links, columns[..|columns| - 1], row);
      var d := columns[|columns| - 1];
      if d.index < |row.cells| && CellValue(links, d, row.cells[d.index]).Some? {
        CellTransportable(links, d, row.cells[d.index]);
      }
    }
  }

  predicate WellKeyed(cfg: Config, rows: seq<Row>) {
    && (forall i :: 0 <= i < |rows| ==> cfg.uid < |rows[i].cells|)
    && (forall i, j :: 0 <= i < j < |rows| ==> Key(cfg, rows[i]) != Key(cfg, rows[j]))
  }

  predicate Injective(idMap: map<string, int>) {
    forall a, b :: a in idMap && b in idMap && a != b ==> idMap[a] != idMap[b]
  }

  ghost predicate OfSomeRow(cfg: Config, links: Links, columns: seq<Deferred>, rows: seq<Row>,
                            cell: Cell<Fields<Value>>)
    requires forall i :: 0 <= i < |rows| ==> cfg.uid < |rows[i].cells|
  {
    exists i :: 0 <= i < |rows| && Loaded(links, rows[i].cells[cfg.uid]) == Some(cell.id)
        && cell.vals == RowVals(links, columns, rows[i])
  }

  /**
   Whatever the rows refer to, the prepared list is what Pass 2 needs: one write for each record, with
   values that survive the grouping. The only needs are distinct sanitised ids and an injective id map.
   */
  lemma {:induction false} PreparedIsSound(cfg: Config, links: Links, columns: seq<Deferred>, rows: seq<Row>)
    requires WellKeyed(cfg, rows) && Injective(links.idMap)
    ensures DistinctIds(Prepared(cfg, links, columns, rows))
    ensures forall i :: 0 <= i < |Prepared(cfg, links, columns, rows)| ==>
              OfSomeRow(cfg, links, columns, rows, Prepared(cfg, links, columns, rows)[i])
  {
    hide RowVals, ToXmlid, Loaded;
    if rows != [] {
      var init, row := rows[..|rows| - 1], rows[|rows| - 1];
      PreparedIsSound(cfg, links, columns, init);
      var before, all := Prepared(cfg, links, columns, init), Prepared(cfg, links, columns, rows);
      forall i | 0 <= i < |all| ensures OfSomeRow(cfg, links, columns, rows, all[i]) {
        if i < |before| {
          assert OfSomeRow(cfg, links, columns, init, before[i]);
          var k :| 0 <= k < |init| && Loaded(links, init[k].cells[cfg.uid]) == Some(before[i].id)
              && before[i].vals == RowVals(links, columns, init[k]);
          assert rows[k] == init[k];
        } else {
          assert Loaded(links, rows[|rows| - 1].cells[cfg.uid]) == Some(all[i].id);
        }
      }
      if |all| > |before| {
        forall i | 0 <= i < |before| ensures before[i].id != all[|before|].id {
          assert OfSomeRow(cfg, links, columns, init, before[i]);
          var k :| 0 <= k < |init| && Loaded(links, init[k].cells[cfg.uid]) == Some(before[i].id)
              && before[i].vals == RowVals(links, columns, init[k]);
          assert Key(cfg, rows[k]) != Key(cfg, rows[|rows| - 1]);
          OneIdPerKey(links, rows[k].cells[cfg.uid], row.cells[cfg.uid]);
        }
      }
    }
  }

  lemma OneIdPerKey(links: Links, a: string, b: string)
    requires Injective(links.idMap) && ToXmlid(a) != ToXmlid(b)
    ensures Loaded(links, a).Some? ==> Loaded(links, a) != Loaded(links, b)
  {
    hide ToXmlid;
  }

  /** No row with an id and something to write is left out. */
  lemma {:induction false} PreparedIsComplete(cfg: Config, links: Links, columns: seq<Deferred>, rows: seq<Row>, k: nat)
    requires k < |rows| && forall i :: 0 <= i < |rows| ==> cfg.uid < |rows[i].cells|
    requires Loaded(links, rows[k].cells[cfg.uid]).Some? && RowVals(links, columns, rows[k]) != map[]
    ensures Cell(Loaded(links, rows[k].cells[cfg.uid]).value, RowVals(links, columns, rows[k]))
            in Prepared(cfg, links, columns, rows)
  {
    hide RowVals, Loaded;
    if k < |rows| - 1 {
      PreparedIsComplete(cfg, links, columns, rows[..|rows| - 1], k);
    }
  }
}
