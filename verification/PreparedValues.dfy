/**
 What Pass 2 is given to write, said of the source cells: which rows, which fields, and for each field a
 database id, a replace command or a text.
 */
module PreparedValues {
  import opened Basics
  import opened XmlId
  import opened LoadProtocol
  import opened ColumnNames
  import opened WireValues
  import opened Writes
  import opened PreparedWrites

  // ----- What a cell refers to -----

  /** The id map has an id other than 0 for the value, once it is sanitised. */
  predicate KnownAs(links: Links, value: string, id: int) {
    id != 0 && ToXmlid(value) in links.idMap && links.idMap[ToXmlid(value)] == id
  }

  /** The value is looked up on the server: it stands in an "/id" column or has a dot, and there is a server to ask. */
  predicate TakenForId(links: Links, external: bool, value: string) {
    links.proxy && (external || '.' in value)
  }

  ghost predicate RefersTo(links: Links, external: bool, value: string, id: int) {
    || KnownAs(links, value, id)
    || ((forall id' :: !KnownAs(links, value, id')) && TakenForId(links, external, value)
        && id != 0 && links.lookup(value) == Some(id))
  }

  ghost predicate Unresolved(links: Links, external: bool, value: string) {
    forall id :: !RefersTo(links, external, value, id)
  }

  // ----- What is written for a cell -----

  function Joined(parts: seq<string>): string {
    if parts == [] then "" else if |parts| == 1 then parts[0] else parts[0] + "," + Joined(parts[1..])
  }

  /** `parts` are what stands between the commas of the cell. */
  predicate CommaParts(cell: string, parts: seq<string>) {
    parts != [] && Joined(parts) == cell && forall i :: 0 <= i < |parts| ==> ',' !in parts[i]
  }

  /** `ids` are those of the parts numbered `ks`, in order; the other parts are blank or have no id. */
  ghost predicate PartIds(links: Links, external: bool, parts: seq<string>, ks: seq<nat>, ids: seq<int>) {
    && |ks| == |ids|
    && (forall j :: 0 <= j < |ks| ==> ks[j] < |parts|)
    && (forall a, b :: 0 <= a < b < |ks| ==> ks[a] < ks[b])
    && (forall j :: 0 <= j < |ks| ==>
          Strip(parts[ks[j]]) != "" && RefersTo(links, external, Strip(parts[ks[j]]), ids[j]))
    && (forall i: nat :: i < |parts| && i !in ks ==>
          Strip(parts[i]) == "" || Unresolved(links, external, Strip(parts[i])))
  }

  /** `[(6, 0, ids)]` */
  predicate Replaces(v: Value, ids: seq<int>) {
    && v.List? && |v.items| == 1 && v.items[0].Tuple? && |v.items[0].items| == 3
    && v.items[0].items[0] == Number(6) && v.items[0].items[1] == Number(0) && v.items[0].items[2].List?
    && |v.items[0].items[2].items| == |ids|
    && forall i :: 0 <= i < |ids| ==> v.items[0].items[2].items[i] == Number(ids[i])
  }

  /** Several references become one replace command with all their ids, if any. */
  ghost predicate WrittenMany(links: Links, external: bool, cell: string, v: Option<Value>) {
    exists parts, ks, ids ::
      && CommaParts(cell, parts) && PartIds(links, external, parts, ks, ids)
      && if ids == [] then v == None else v.Some? && Replaces(v.value, ids)
  }

  /** A reference becomes its id; what is not one, and was not taken for one, stays text; the rest is not written. */
  ghost predicate WrittenOne(links: Links, external: bool, cell: string, v: Option<Value>) {
    && (forall id :: RefersTo(links, external, cell, id) ==> v == Some(Number(id)))
    && (Unresolved(links, external, cell) ==>
          v == if external || TakenForId(links, external, cell) then None else Some(Text(cell)))
  }

  ghost predicate WrittenAs(links: Links, many: bool, external: bool, cell: string, v: Option<Value>) {
    if cell == "" then v == None
    else if many then WrittenMany(links, external, cell, v)
    else WrittenOne(links, external, cell, v)
  }

  // ----- What is written for a row -----

  /** Column c is the last one of the field, and the field is deferred, by its name or with "/id" after it. */
  predicate DeferredAt(header: seq<string>, deferred: seq<string>, field: string, c: nat) {
    && c < |header| && ColumnOf(header[c], field) && (field in deferred || field + "/id" in deferred)
    && forall k :: c < k < |header| ==> !ColumnOf(header[k], field)
  }

  predicate EndsInId(column: string) {
    |column| >= 3 && column[|column| - 3..] == "/id"
  }

  function CellAt(row: Row, c: nat): string {
    if c < |row.cells| then row.cells[c] else ""
  }

  function Field(vals: Fields<Value>, field: string): Option<Value> {
    if field in vals then Some(vals[field]) else None
  }

  ghost predicate ValuesOf(header: seq<string>, links: Links, deferred: seq<string>, many2many: set<string>, row: Row,
                           vals: Fields<Value>)
  {
    && (forall field :: field in vals ==> exists c: nat :: DeferredAt(header, deferred, field, c))
    && (forall field: string, c: nat :: DeferredAt(header, deferred, field, c) ==>
          WrittenAs(links, field in many2many, EndsInId(header[c]), CellAt(row, c), Field(vals, field)))
  }

  // ----- References -----

  lemma ResolvedMeans(links: Links, external: bool, value: string)
    ensures Resolved(links, external, value).Some? ==>
            RefersTo(links, external, value, Resolved(links, external, value).value)
    ensures Resolved(links, external, value).None? ==> Unresolved(links, external, value)
    ensures forall id :: RefersTo(links, external, value, id) ==> Resolved(links, external, value) == Some(id)
  {
    hide ToXmlid;
    var key := ToXmlid(value);
    if key in links.idMap && links.idMap[key] != 0 {
      assert KnownAs(links, value, links.idMap[key]);
    }
  }

  lemma {:induction false} SplitJoins(s: string, part: string)
    requires ',' !in part
    ensures CommaParts(part + s, SplitComma(s, part))
    decreases |s|
  {
    if s == "" {
      assert part + s == part;
    } else if s[0] == ',' {
      var rest := SplitComma(s[1..], "");
      SplitJoins(s[1..], "");
      assert ([part] + rest)[1..] == rest && "" + s[1..] == s[1..];
      assert part + "," + s[1..] == part + s;
    } else {
      SplitJoins(s[1..], part + [s[0]]);
      assert part + [s[0]] + s[1..] == part + s;
    }
  }

  lemma {:induction false} PartIdsAre(links: Links, external: bool, parts: seq<string>) returns (ks: seq<nat>)
    ensures PartIds(links, external, parts, ks, ResolvedParts(links, external, parts))
  {
    hide Strip, RefersTo, Unresolved, Resolved;
    if parts == [] {
      ks := [];
    } else {
      var n := |parts| - 1;
      var init, part := parts[..n], Strip(parts[n]);
      ks := PartIdsAre(links, external, init);
      ResolvedMeans(links, external, part);
      assert parts == init + [parts[n]];
      if part != "" && Resolved(links, external, part).Some? {
        ks := ks + [n];
      }
      forall i: nat | i < |parts| && i !in ks
        ensures Strip(parts[i]) == "" || Unresolved(links, external, Strip(parts[i]))
      {
        if i < n {
          assert init[i] == parts[i];
        }
      }
    }
  }

  lemma CellMeans(links: Links, d: Deferred, cell: string)
    ensures WrittenAs(links, d.many, d.external, cell, CellValue(links, d, cell))
  {
    hide Resolved, RefersTo, PartIds, CommaParts, ResolvedParts;
    if cell != "" && d.many {
      var parts := SplitComma(cell, "");
      SplitJoins(cell, "");
      assert "" + cell == cell;
      var ks := PartIdsAre(links, d.external, parts);
      assert PartIds(links, d.external, parts, ks, ResolvedParts(links, d.external, parts));
    } else if cell != "" {
      ResolvedMeans(links, d.external, cell);
    }
  }

  // ----- Rows -----

  lemma AskedMeans(deferred: seq<string>, column: string, field: string)
    requires ColumnOf(column, field)
    ensures field == Base(column)
    ensures Asked(deferred, field) <==> field in deferred || field + "/id" in deferred
  {
    hide Base, WithoutIdSuffix;
    BaseIsField(column);
    forall entry ensures WithoutIdSuffix(entry) == field <==> entry == field || entry == field + "/id" {
      SuffixCut(field, entry);
    }
  }

  lemma SuffixMeans(column: string)
    ensures WithoutIdSuffix(column) != column <==> EndsInId(column)
  {
  }

  lemma LastMeans(header: seq<string>, d: Deferred)
    requires d.index < |header|
    ensures IsLast(header, |header|, d) <==>
            ColumnOf(header[d.index], d.name) && forall k :: d.index < k < |header| ==> !ColumnOf(header[k], d.name)
  {
    hide Base, ColumnOf;
    forall k | 0 <= k < |header| ensures ColumnOf(header[k], d.name) <==> Base(header[k]) == d.name {
      BaseIsField(header[k]);
    }
  }

  /** The deferred columns are those at which a deferred field has its last column. */
  lemma ColumnMeans(header: seq<string>, deferred: seq<string>, many2many: set<string>, d: Deferred)
    ensures d in DeferredColumns(header, |header|, deferred, many2many) <==>
            && DeferredAt(header, deferred, d.name, d.index)
            && d.external == EndsInId(header[d.index]) && d.many == (d.name in many2many)
  {
    hide DeferredColumns, Base, ColumnOf, Asked, WithoutIdSuffix, EndsInId;
    LastColumnWins(header, |header|, deferred, many2many);
    if d.index < |header| {
      LastMeans(header, d);
      SuffixMeans(header[d.index]);
      if ColumnOf(header[d.index], d.name) {
        AskedMeans(deferred, header[d.index], d.name);
      }
    }
  }

  lemma {:induction false} ValsAt(links: Links, columns: seq<Deferred>, row: Row)
    requires DistinctNames(columns)
    ensures forall d :: d in columns ==> Field(RowVals(links, columns, row), d.name)
                                         == CellValue(links, d, CellAt(row, d.index))
    ensures forall field :: field in RowVals(links, columns, row) ==> exists d :: d in columns && d.name == field
  {
    hide CellValue;
    if columns != [] {
      var n := |columns| - 1;
      ValsAt(links, columns[..n], row);
      NoText(links, columns[n]);
      assert columns == columns[..n] + [columns[n]];
      forall d | d in columns[..n] ensures d.name != columns[n].name {
      }
    }
  }

  lemma NoText(links: Links, d: Deferred)
    ensures CellValue(links, d, "") == None
  {
  }

  lemma RowMeans(cfg: Config, links: Links, deferred: seq<string>, many2many: set<string>, row: Row)
    ensures ValuesOf(cfg.header, links, deferred, many2many, row,
                     RowVals(links, DeferredColumns(cfg.header, |cfg.header|, deferred, many2many), row))
  {
    hide RowVals, DeferredColumns, ColumnOf, WrittenAs, EndsInId, CellValue;
    var header, columns := cfg.header, DeferredColumns(cfg.header, |cfg.header|, deferred, many2many);
    var vals := RowVals(links, columns, row);
    LastColumnWins(header, |header|, deferred, many2many);
    ValsAt(links, columns, row);
    forall field | field in vals ensures exists c: nat :: DeferredAt(header, deferred, field, c) {
      var d :| d in columns && d.name == field;
      ColumnMeans(header, deferred, many2many, d);
    }
    forall field: string, c: nat | c < |header| && DeferredAt(header, deferred, field, c)
      ensures WrittenAs(links, field in many2many, EndsInId(header[c]), CellAt(row, c), Field(vals, field))
    {
      var d := Deferred(field, c, EndsInId(header[c]), field in many2many);
      ColumnMeans(header, deferred, many2many, d);
      CellMeans(links, d, CellAt(row, c));
    }
  }

  // ----- The prepared list -----

  lemma LoadedMeans(links: Links, value: string)
    ensures Loaded(links, value).Some? ==> KnownAs(links, value, Loaded(links, value).value)
    ensures Loaded(links, value).None? ==> forall id :: !KnownAs(links, value, id)
  {
  }

  /**
   The row is written: its id is known, and `cell` holds the values of its deferred fields, of which there are some.
   */
  ghost predicate WrittenRow(cfg: Config, links: Links, deferred: seq<string>, many2many: set<string>, row: Row,
                             cell: Cell<Fields<Value>>)
    requires cfg.uid < |row.cells|
  {
    && KnownAs(links, row.cells[cfg.uid], cell.id) && cell.vals != map[]
    && ValuesOf(cfg.header, links, deferred, many2many, row, cell.vals)
  }

  /** The row is not written: its id is not known, or none of its deferred fields has a value. */
  ghost predicate UnwrittenRow(cfg: Config, links: Links, deferred: seq<string>, many2many: set<string>, row: Row)
    requires cfg.uid < |row.cells|
  {
    || (forall id :: !KnownAs(links, row.cells[cfg.uid], id))
    || ValuesOf(cfg.header, links, deferred, many2many, row, map[])
  }

  /**
   The prepared list is exactly the rows, in order, whose id the id map knows and that have something to
   write, each with its database id and the values of its deferred cells.
   */
  lemma {:induction false} PreparedIsExactly(cfg: Config, links: Links, deferred: seq<string>, many2many: set<string>,
                                             rows: seq<Row>)
    returns (ks: seq<nat>)
    requires forall i :: 0 <= i < |rows| ==> cfg.uid < |rows[i].cells|
    ensures var prepared := Prepared(cfg, links, DeferredColumns(cfg.header, |cfg.header|, deferred, many2many), rows);
      && |ks| == |prepared|
      && (forall j :: 0 <= j < |ks| ==> ks[j] < |rows|)
      && (forall a, b :: 0 <= a < b < |ks| ==> ks[a] < ks[b])
      && (forall j :: 0 <= j < |ks| ==> WrittenRow(cfg, links, deferred, many2many, rows[ks[j]], prepared[j]))
      && (forall i: nat :: i < |rows| && i !in ks ==> UnwrittenRow(cfg, links, deferred, many2many, rows[i]))
  {
    hide RowVals, DeferredColumns, Loaded, WrittenRow, UnwrittenRow;
    if rows == [] {
      ks := [];
    } else {
      var n := |rows| - 1;
      var init := rows[..n];
      ks := PreparedIsExactly(cfg, links, deferred, many2many, init);
      LastRow(cfg, links, deferred, many2many, rows[n]);
      var columns := DeferredColumns(cfg.header, |cfg.header|, deferred, many2many);
      if Loaded(links, rows[n].cells[cfg.uid]).Some? && RowVals(links, columns, rows[n]) != map[] {
        ks := ks + [n];
      }
      assert forall i :: 0 <= i < n ==> init[i] == rows[i];
    }
  }

  lemma LastRow(cfg: Config, links: Links, deferred: seq<string>, many2many: set<string>, row: Row)
    requires cfg.uid < |row.cells|
    ensures var id := Loaded(links, row.cells[cfg.uid]);
      var vals := RowVals(links, DeferredColumns(cfg.header, |cfg.header|, deferred, many2many), row);
      if id.Some? && vals != map[] then WrittenRow(cfg, links, deferred, many2many, row, Cell(id.value, vals))
      else UnwrittenRow(cfg, links, deferred, many2many, row)
  {
    hide RowVals, DeferredColumns, Loaded, KnownAs, ValuesOf;
    RowMeans(cfg, links, deferred, many2many, row);
    LoadedMeans(links, row.cells[cfg.uid]);
  }
}
