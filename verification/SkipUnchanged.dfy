/**
 The skip-unchanged filter of lib/idempotent.py: the row-by-row loop over `compare_values`, and the
 left join that replaces it. Cells of the source are strings.
 */
module SkipUnchanged {
  import opened Basics
  import opened XmlId
  import opened LoadProtocol
  import opened ColumnNames

  /** A field value as the server returns it; Nothing is None or False. */
  datatype Target = Nothing | Str(text: string) | Number(n: int) | Many(items: seq<Target>)

  type Record = map<string, Target>

  /** `show` is Python's `str`. */
  datatype Filter = Filter(header: seq<string>, idField: string, compare: Option<seq<string>>,
                           existing: map<string, Record>, show: Target -> string)
  {
    /** What is used of `str`: numbers and lists show as something, without white space at the ends. */
    ghost predicate Valid() {
      NoDuplicates(header) && forall v: Target :: !v.Str? ==> show(v) != "" && Strip(show(v)) == show(v)
    }

    function Fields(): seq<string> {
      if compare.Some? then compare.value else OtherColumns(header, idField)
    }
  }

  function OtherColumns(header: seq<string>, idField: string): (columns: seq<string>)
    ensures idField !in columns
  {
    if header == [] then []
    else if header[0] == idField then OtherColumns(header[1..], idField)
    else [header[0]] + OtherColumns(header[1..], idField)
  }

  /** `normalize_value`; None is Nothing. */
  function Normalized(v: Target): Target {
    match v
    case Nothing => Nothing
    case Str(text) => if Strip(text) == "" then Nothing else Str(Strip(text))
    case Number(n) => v
    case Many(items) => if items == [] then Nothing else if |items| == 2 && items[0].Number? then items[0] else v
  }

  function Shown(f: Filter, v: Target): string {
    if v.Str? then v.text else f.show(v)
  }

  /** `compare_values` */
  predicate SameValue(f: Filter, source: string, target: Target) {
    var s, t := Normalized(Str(source)), Normalized(target);
    if s.Nothing? && t.Nothing? then true
    else if s.Nothing? || t.Nothing? then false
    else Shown(f, s) == Shown(f, t)
  }

  /** `_norm_str` */
  function NormStr(f: Filter, v: Target): string {
    if Normalized(v).Nothing? then "" else Shown(f, Normalized(v))
  }

  lemma NormStrCompares(f: Filter, source: string, target: Target)
    requires f.Valid()
    ensures SameValue(f, source, target) <==> Strip(source) == NormStr(f, target)
  {
    hide Strip;
  }

  // ----- The loop -----

  predicate LoopDiffers(f: Filter, row: Row, record: Record, field: string) {
    var i := IndexOf(f.header, field);
    i.Some? && i.value < |row.cells| && Base(field) in record && !SameValue(f, row.cells[i.value], record[Base(field)])
  }

  /** The external id of a row, "" when there is none. */
  function ExternalId(f: Filter, row: Row): string {
    var i := IndexOf(f.header, f.idField);
    if i.None? || i.value >= |row.cells| then "" else Strip(row.cells[i.value])
  }

  predicate Matched(f: Filter, row: Row) {
    ExternalId(f, row) != "" && ExternalId(f, row) in f.existing
  }

  predicate LoopKeeps(f: Filter, row: Row) {
    Matched(f, row) ==>
      exists j :: 0 <= j < |f.Fields()| && LoopDiffers(f, row, f.existing[ExternalId(f, row)], f.Fields()[j])
  }

  function Kept(rows: seq<Row>, keeps: Row -> bool): seq<Row> {
    if rows == [] then []
    else Kept(rows[..|rows| - 1], keeps) + if keeps(rows[|rows| - 1]) then [rows[|rows| - 1]] else []
  }

  /** How many rows have a property. */
  function Tally(rows: seq<Row>, has: Row -> bool): (n: nat)
    ensures n <= |rows|
  {
    if rows == [] then 0 else Tally(rows[..|rows| - 1], has) + if has(rows[|rows| - 1]) then 1 else 0
  }

  lemma {:induction false} KeptCounts(rows: seq<Row>, keeps: Row -> bool)
    ensures |Kept(rows, keeps)| == Tally(rows, keeps)
  {
    if rows != [] {
      KeptCounts(rows[..|rows| - 1], keeps);
    }
  }

  datatype Stats = Stats(total: nat, same: nat, changed: nat, added: nat, skipped: nat)

  predicate HasId(f: Filter, row: Row) {
    var i := IndexOf(f.header, f.idField);
    i.Some? && i.value < |row.cells|
  }

  /** `_filter_unchanged_pyloop`; a row without an id cell is kept and counted as nothing. */
  method FilterUnchangedPyloop(f: Filter, rows: seq<Row>) returns (kept: seq<Row>, stats: Stats)
    ensures f.idField in f.header ==> kept == Kept(rows, row => LoopKeeps(f, row))
    ensures f.idField !in f.header ==> kept == rows
    ensures stats.total == |rows| && stats.skipped == stats.same == |rows| - |kept|
    ensures f.idField in f.header ==>
              && stats.added == Tally(rows, row => HasId(f, row) && !Matched(f, row))
              && stats.changed == Tally(rows, row => Matched(f, row) && LoopKeeps(f, row))
  {
    hide SameValue, Strip, IndexOf;
    var at := IndexOf(f.header, f.idField);
    if at.None? {
      return rows, Stats(|rows|, 0, 0, 0, 0);
    }
    ghost var keeps := row => LoopKeeps(f, row);
    kept := [];
    var same, changed, added := 0, 0, 0;
    for i := 0 to |rows|
      invariant kept == Kept(rows[..i], keeps)
      invariant same == i - |kept|
      invariant added == Tally(rows[..i], row => HasId(f, row) && !Matched(f, row))
      invariant changed == Tally(rows[..i], row => Matched(f, row) && LoopKeeps(f, row))
    {
      assert rows[..i + 1][..i] == rows[..i];
      var row := rows[i];
      if at.value >= |row.cells| {
        kept := kept + [row];
        continue;
      }
      var externalId := Strip(row.cells[at.value]);
      if externalId == "" || externalId !in f.existing {
        added := added + 1;
        kept := kept + [row];
        continue;
      }
      var isChanged := RowDiffers(f, row, f.existing[externalId]);
      if isChanged {
        changed, kept := changed + 1, kept + [row];
      } else {
        same := same + 1;
      }
    }
    assert rows[..|rows|] == rows;
    stats := Stats(|rows|, same, changed, added, same);
  }

  method RowDiffers(f: Filter, row: Row, record: Record) returns (isChanged: bool)
    ensures isChanged <==> exists j :: 0 <= j < |f.Fields()| && LoopDiffers(f, row, record, f.Fields()[j])
  {
    hide SameValue;
    isChanged := false;
    var fields := f.Fields();
    for j := 0 to |fields|
      invariant forall k :: 0 <= k < j ==> !LoopDiffers(f, row, record, fields[k])
    {
      var i := IndexOf(f.header, fields[j]);
      if i.Some? && i.value < |row.cells| && Base(fields[j]) in record {
        if !SameValue(f, row.cells[i.value], record[Base(fields[j])]) {
          return true;
        }
      }
    }
  }

  // ----- The join -----

  /** A field is compared when some existing record has its base field. */
  predicate Comparable(f: Filter, field: string) {
    field in f.header && exists key :: key in f.existing && Base(field) in f.existing[key]
  }

  /** The joined column: a record without the field joins as the empty string. */
  function Joined(f: Filter, record: Record, field: string): string {
    NormStr(f, if Base(field) in record then record[Base(field)] else Nothing)
  }

  predicate JoinDiffers(f: Filter, row: Row, record: Record, field: string) {
    var i := IndexOf(f.header, field);
    Comparable(f, field) && i.Some? && i.value < |row.cells| && Strip(row.cells[i.value]) != Joined(f, record, field)
  }

  predicate JoinKeeps(f: Filter, row: Row) {
    Matched(f, row) ==>
      exists j :: 0 <= j < |f.Fields()| && JoinDiffers(f, row, f.existing[ExternalId(f, row)], f.Fields()[j])
  }

  // ----- The join, step by step -----

  /** Three-valued logic of dataframe expressions; None is null. */
  function Or3(a: Option<bool>, b: Option<bool>): Option<bool> {
    if a == Some(true) || b == Some(true) then Some(true)
    else if a.None? || b.None? then None
    else Some(false)
  }

  function And3(a: Option<bool>, b: Option<bool>): Option<bool> {
    if a == Some(false) || b == Some(false) then Some(false)
    else if a.None? || b.None? then None
    else Some(true)
  }

  /** The row padded with nulls to the width of the header, or cut to it. */
  function Padded(f: Filter, row: Row): (cells: seq<Option<string>>)
    ensures |cells| == |f.header|
  {
    seq(|f.header|, i requires 0 <= i < |f.header| => if i < |row.cells| then Some(row.cells[i]) else None)
  }

  /** `str.strip_chars().fill_null("")` */
  function Stripped(cell: Option<string>): string {
    if cell.None? then "" else Strip(cell.value)
  }

  /** The compared fields: those in the header whose base some existing record has. */
  method ListComparable(f: Filter) returns (comparable: seq<string>)
    ensures forall field :: field in comparable <==> field in f.Fields() && Comparable(f, field)
  {
    hide Base;
    var fields := f.Fields();
    comparable := [];
    for j := 0 to |fields|
      invariant forall field :: field in comparable <==> field in fields[..j] && Comparable(f, field)
    {
      if fields[j] in f.header && exists key :: key in f.existing && Base(fields[j]) in f.existing[key] {
        comparable := comparable + [fields[j]];
      }
    }
  }

  /** The right side of the join: for each existing record its normalised compared values. */
  function JoinTable(f: Filter, comparable: seq<string>): map<string, seq<string>> {
    map key | key in f.existing ::
      seq(|comparable|, i requires 0 <= i < |comparable| => Joined(f, f.existing[key], comparable[i]))
  }

  /** `any_horizontal` over the compared columns: present and different, where an unmatched row compares with null. */
  method AnyHorizontal(f: Filter, cells: seq<Option<string>>, comparable: seq<string>, joined: Option<seq<string>>)
    returns (changed: Option<bool>)
    requires |cells| == |f.header| && (joined.Some? ==> |joined.value| == |comparable|)
    requires forall i :: 0 <= i < |comparable| ==> comparable[i] in f.header
    ensures joined.Some? ==> changed == Some(exists i: nat :: CellDiffers(f, cells, comparable, joined.value, i))
  {
    changed := Some(false);
    for i := 0 to |comparable|
      invariant joined.Some? ==>
                  changed == Some(exists k: nat :: k < i && CellDiffers(f, cells, comparable, joined.value, k))
    {
      var cell := cells[IndexOf(f.header, comparable[i]).value];
      var differs := if joined.None? then None else Some(Stripped(cell) != joined.value[i]);
      if joined.Some? {
        assert CellDiffers(f, cells, comparable, joined.value, i) <==>
            (cell.Some? && Stripped(cell) != joined.value[i]);
      }
      changed := Or3(changed, And3(Some(cell.Some?), differs));
    }
  }

  predicate CellDiffers(f: Filter, cells: seq<Option<string>>, comparable: seq<string>, joined: seq<string>, i: nat) {
    && i < |comparable| && i < |joined|
    && var at := IndexOf(f.header, comparable[i]);
       at.Some? && at.value < |cells| && cells[at.value].Some? && Stripped(cells[at.value]) != joined[i]
  }

  lemma CellIsJoinDiffers(f: Filter, row: Row, comparable: seq<string>, record: Record, joined: seq<string>)
    requires forall field :: field in comparable <==> field in f.Fields() && Comparable(f, field)
    requires joined == seq(|comparable|, i requires 0 <= i < |comparable| => Joined(f, record, comparable[i]))
    ensures (exists i: nat :: CellDiffers(f, Padded(f, row), comparable, joined, i))
       <==> (exists j :: 0 <= j < |f.Fields()| && JoinDiffers(f, row, record, f.Fields()[j]))
  {
    hide Comparable, Joined, Strip;
    if i: nat :| CellDiffers(f, Padded(f, row), comparable, joined, i) {
      assert comparable[i] in comparable;
      var j :| 0 <= j < |f.Fields()| && f.Fields()[j] == comparable[i];
      assert JoinDiffers(f, row, record, f.Fields()[j]);
    }
    if j :| 0 <= j < |f.Fields()| && JoinDiffers(f, row, record, f.Fields()[j]) {
      assert f.Fields()[j] in comparable;
      var i :| 0 <= i < |comparable| && comparable[i] == f.Fields()[j];
      assert CellDiffers(f, Padded(f, row), comparable, joined, i);
    }
  }

  /** One row through the join: matched or not, and kept or not. */
  method JoinRow(f: Filter, row: Row, comparable: seq<string>) returns (matched: bool, keep: bool)
    requires f.idField in f.header
    requires forall field :: field in comparable <==> field in f.Fields() && Comparable(f, field)
    ensures matched == Matched(f, row) && keep == JoinKeeps(f, row)
  {
    hide JoinDiffers, CellDiffers, Joined, Strip;
    var cells, table := Padded(f, row), JoinTable(f, comparable);
    var key := Stripped(cells[IndexOf(f.header, f.idField).value]);
    EmptyStripped();
    assert key == ExternalId(f, row);
    forall i | 0 <= i < |comparable| ensures comparable[i] in f.header {
      assert comparable[i] in comparable;
    }
    var joined := if key in table then Some(table[key]) else None;
    matched := joined.Some? && key != "";
    var changed := AnyHorizontal(f, cells, comparable, joined);
    if joined.Some? {
      CellIsJoinDiffers(f, row, comparable, f.existing[key], joined.value);
    }
    keep := Or3(Some(!matched), changed) == Some(true);
  }

  /** `filter_unchanged_rows` */
  method FilterUnchangedRows(f: Filter, rows: seq<Row>) returns (kept: seq<Row>, stats: Stats)
    ensures f.idField in f.header ==> kept == Kept(rows, row => JoinKeeps(f, row))
    ensures f.idField !in f.header ==> kept == rows
    ensures stats.total == |rows| && stats.skipped == stats.same == |rows| - |kept|
    ensures f.idField in f.header || f.existing == map[] ==>
              && stats.added == Tally(rows, row => !Matched(f, row))
              && stats.changed == Tally(rows, row => Matched(f, row) && JoinKeeps(f, row))
              && stats.added + stats.changed == |kept|
  {
    hide JoinKeeps, Matched;
    ghost var keeps := row => JoinKeeps(f, row);
    if f.existing == map[] {
      NothingExists(f, rows);
      AllKept(rows, keeps);
      MatchedCounts(f, rows);
      KeptCounts(rows, row => JoinKeeps(f, row));
      NoneMatched(f, rows);
      return rows, Stats(|rows|, 0, 0, |rows|, 0);
    }
    if f.idField !in f.header {
      return rows, Stats(|rows|, 0, 0, 0, 0);
    }
    var comparable := ListComparable(f);
    var keptSet: set<nat>, matchedCount := {}, 0;
    for i := 0 to |rows|
      invariant forall k: nat :: k in keptSet <==> k < i && JoinKeeps(f, rows[k])
      invariant matchedCount == Tally(rows[..i], row => Matched(f, row))
    {
      assert rows[..i + 1][..i] == rows[..i];
      var matched, keep := JoinRow(f, rows[i], comparable);
      if keep {
        keptSet := keptSet + {i};
      }
      if matched {
        matchedCount := matchedCount + 1;
      }
    }
    assert rows[..|rows|] == rows;
    kept := [];
    for i := 0 to |rows|
      invariant kept == Kept(rows[..i], keeps)
    {
      assert rows[..i + 1][..i] == rows[..i];
      if i in keptSet {
        kept := kept + [rows[i]];
      }
    }
    KeptCounts(rows, row => JoinKeeps(f, row));
    MatchedCounts(f, rows);
    var skipped := |rows| - |kept|;
    stats := Stats(|rows|, skipped, matchedCount - skipped, |rows| - matchedCount, skipped);
  }

  lemma NothingExists(f: Filter, rows: seq<Row>)
    requires f.existing == map[]
    ensures forall i :: 0 <= i < |rows| ==> JoinKeeps(f, rows[i])
  {
  }

  lemma {:induction false} AllKept(rows: seq<Row>, keeps: Row -> bool)
    requires forall i :: 0 <= i < |rows| ==> keeps(rows[i])
    ensures Kept(rows, keeps) == rows
  {
    if rows != [] {
      AllKept(rows[..|rows| - 1], keeps);
    }
  }

  lemma {:induction false} NoneMatched(f: Filter, rows: seq<Row>)
    requires f.existing == map[]
    ensures Tally(rows, row => Matched(f, row)) == 0
  {
    if rows != [] {
      NoneMatched(f, rows[..|rows| - 1]);
    }
  }

  /** Rows are unmatched or matched; unmatched rows are kept. */
  lemma {:induction false} MatchedCounts(f: Filter, rows: seq<Row>)
    ensures Tally(rows, row => !Matched(f, row)) + Tally(rows, row => Matched(f, row)) == |rows|
    ensures Tally(rows, row => !Matched(f, row)) + Tally(rows, row => Matched(f, row) && JoinKeeps(f, row))
            == Tally(rows, row => JoinKeeps(f, row))
  {
    hide JoinDiffers, Matched;
    if rows != [] {
      MatchedCounts(f, rows[..|rows| - 1]);
    }
  }

  // ----- What makes a row unchanged -----

  /** The cell shows the existing value: nothing, a text, a number, the id of a pair, or a whole list. */
  predicate Unchanged(f: Filter, cell: string, target: Target) {
    match target
    case Nothing => Strip(cell) == ""
    case Str(text) => Strip(cell) == Strip(text)
    case Number(_) => Strip(cell) == f.show(target)
    case Many(items) =>
      if items == [] then Strip(cell) == ""
      else if |items| == 2 && items[0].Number? then Strip(cell) == f.show(items[0])
      else Strip(cell) == f.show(target)
  }

  /** The field is compared: it was asked for, or nothing was and it is not the id. */
  predicate IsCompared(f: Filter, field: string) {
    if f.compare.Some? then field in f.compare.value else field in f.header && field != f.idField
  }

  /** The existing record that the row is about. */
  predicate IsAbout(f: Filter, row: Row, key: string) {
    key != "" && key in f.existing
    && exists i :: 0 <= i < |f.header| && i < |row.cells| && f.header[i] == f.idField && Strip(row.cells[i]) == key
  }

  /**
   Column c holds a compared field, the row has a cell there, and `name` is the field without what follows a slash.
   */
  predicate ComparedAt(f: Filter, row: Row, c: nat, name: string) {
    c < |f.header| && c < |row.cells| && IsCompared(f, f.header[c]) && ColumnOf(f.header[c], name)
  }

  predicate SomeHas(f: Filter, name: string) {
    exists key :: key in f.existing && name in f.existing[key]
  }

  lemma {:induction false} OtherColumnsMean(header: seq<string>, idField: string)
    ensures forall field :: field in OtherColumns(header, idField) <==> field in header && field != idField
  {
    if header != [] {
      OtherColumnsMean(header[1..], idField);
      assert header == [header[0]] + header[1..];
    }
  }

  lemma FieldsMean(f: Filter)
    ensures forall field :: field in f.Fields() <==> IsCompared(f, field)
  {
    OtherColumnsMean(f.header, f.idField);
  }

  lemma VerdictMeans(f: Filter, cell: string, target: Target)
    requires f.Valid()
    ensures SameValue(f, cell, target) <==> Unchanged(f, cell, target)
    ensures Strip(cell) == NormStr(f, target) <==> Unchanged(f, cell, target)
  {
    hide Strip;
    NormStrCompares(f, cell, target);
  }

  lemma MatchMeans(f: Filter, row: Row, key: string)
    requires f.Valid()
    ensures IsAbout(f, row, key) <==> Matched(f, row) && ExternalId(f, row) == key
  {
    hide Strip;
    var at := IndexOf(f.header, f.idField);
    if i :| 0 <= i < |f.header| && i < |row.cells| && f.header[i] == f.idField && Strip(row.cells[i]) == key {
      assert at.Some? && at.value == i;
    }
  }

  /** The loop drops a row when every compared cell it has shows the value the record has, if it has one. */
  lemma LoopDropsMeans(f: Filter, row: Row)
    requires f.Valid()
    ensures !LoopKeeps(f, row) <==>
            exists key :: IsAbout(f, row, key) && LoopSame(f, row, f.existing[key])
  {
    hide LoopDiffers, Strip, LoopSame;
    var key := ExternalId(f, row);
    MatchMeans(f, row, key);
    forall key' ensures IsAbout(f, row, key') ==> key' == key {
      MatchMeans(f, row, key');
    }
    if Matched(f, row) {
      LoopRecord(f, row, f.existing[key]);
    }
  }

  ghost predicate LoopSame(f: Filter, row: Row, record: Record) {
    forall c: nat, name: string :: ComparedAt(f, row, c, name) && name in record ==>
      Unchanged(f, row.cells[c], record[name])
  }

  lemma LoopRecord(f: Filter, row: Row, record: Record)
    requires f.Valid()
    ensures LoopSame(f, row, record) <==>
            forall j :: 0 <= j < |f.Fields()| ==> !LoopDiffers(f, row, record, f.Fields()[j])
  {
    hide SameValue, Unchanged, Base, ColumnOf, IsCompared;
    FieldsMean(f);
    if LoopSame(f, row, record) {
      forall j | 0 <= j < |f.Fields()| ensures !LoopDiffers(f, row, record, f.Fields()[j]) {
        var field := f.Fields()[j];
        var i := IndexOf(f.header, field);
        BaseIsField(field);
        assert field in f.Fields();
        if i.Some? && i.value < |row.cells| && Base(field) in record {
          assert ComparedAt(f, row, i.value, Base(field));
          VerdictMeans(f, row.cells[i.value], record[Base(field)]);
        }
      }
    } else {
      var c: nat, name: string :| ComparedAt(f, row, c, name) && name in record
                                  && !Unchanged(f, row.cells[c], record[name]);
      BaseIsField(f.header[c]);
      VerdictMeans(f, row.cells[c], record[name]);
      var j :| 0 <= j < |f.Fields()| && f.Fields()[j] == f.header[c];
      assert IndexOf(f.header, f.header[c]) == Some(c);
      assert LoopDiffers(f, row, record, f.Fields()[j]);
    }
  }

  /** The join compares each field that some existing record has; where the record itself lacks it, with nothing. */
  lemma JoinDropsMeans(f: Filter, row: Row)
    requires f.Valid()
    ensures !JoinKeeps(f, row) <==>
            exists key :: IsAbout(f, row, key) && JoinSame(f, row, f.existing[key])
  {
    hide JoinDiffers, Strip, JoinSame;
    var key := ExternalId(f, row);
    MatchMeans(f, row, key);
    forall key' ensures IsAbout(f, row, key') ==> key' == key {
      MatchMeans(f, row, key');
    }
    if Matched(f, row) {
      JoinRecord(f, row, f.existing[key]);
    }
  }

  ghost predicate JoinSame(f: Filter, row: Row, record: Record) {
    forall c: nat, name: string :: ComparedAt(f, row, c, name) && SomeHas(f, name) ==>
      Unchanged(f, row.cells[c], if name in record then record[name] else Nothing)
  }

  lemma JoinRecord(f: Filter, row: Row, record: Record)
    requires f.Valid()
    ensures JoinSame(f, row, record) <==>
            forall j :: 0 <= j < |f.Fields()| ==> !JoinDiffers(f, row, record, f.Fields()[j])
  {
    hide Unchanged, Base, ColumnOf, IsCompared, NormStr, Strip;
    FieldsMean(f);
    if JoinSame(f, row, record) {
      forall j | 0 <= j < |f.Fields()| ensures !JoinDiffers(f, row, record, f.Fields()[j]) {
        var field := f.Fields()[j];
        var i := IndexOf(f.header, field);
        BaseIsField(field);
        assert field in f.Fields();
        if Comparable(f, field) && i.Some? && i.value < |row.cells| {
          assert ComparedAt(f, row, i.value, Base(field));
          VerdictMeans(f, row.cells[i.value], if Base(field) in record then record[Base(field)] else Nothing);
        }
      }
    } else {
      var c: nat, name: string :| ComparedAt(f, row, c, name) && SomeHas(f, name)
                                  && !Unchanged(f, row.cells[c], if name in record then record[name] else Nothing);
      BaseIsField(f.header[c]);
      VerdictMeans(f, row.cells[c], if name in record then record[name] else Nothing);
      var j :| 0 <= j < |f.Fields()| && f.Fields()[j] == f.header[c];
      assert IndexOf(f.header, f.header[c]) == Some(c);
      assert JoinDiffers(f, row, record, f.Fields()[j]);
    }
  }

  /** `out` is the rows numbered `ks`, in order: those that are to be kept. */
  predicate Selected(rows: seq<Row>, keeps: Row -> bool, out: seq<Row>, ks: seq<nat>) {
    && |ks| == |out| && (forall a, b :: 0 <= a < b < |ks| ==> ks[a] < ks[b])
    && (forall j :: 0 <= j < |ks| ==> ks[j] < |rows| && out[j] == rows[ks[j]])
    && (forall i: nat :: i < |rows| ==> (i in ks <==> keeps(rows[i])))
  }

  lemma SelectedMore(rows: seq<Row>, keeps: Row -> bool, out: seq<Row>, ks: seq<nat>, last: Row)
    requires Selected(rows, keeps, out, ks)
    ensures keeps(last) ==> Selected(rows + [last], keeps, out + [last], ks + [|rows|])
    ensures !keeps(last) ==> Selected(rows + [last], keeps, out, ks)
  {
    var all := rows + [last];
    forall i: nat | i < |all| ensures (i in ks <==> i < |rows| && keeps(all[i])) {
      if i < |rows| {
        assert all[i] == rows[i];
      }
    }
  }

  /** The kept rows are those to be kept, in order. */
  lemma {:induction false} KeptMeans(rows: seq<Row>, keeps: Row -> bool) returns (ks: seq<nat>)
    ensures Selected(rows, keeps, Kept(rows, keeps), ks)
  {
    if rows == [] {
      ks := [];
    } else {
      hide Selected;
      var n := |rows| - 1;
      ks := KeptMeans(rows[..n], keeps);
      SelectedMore(rows[..n], keeps, Kept(rows[..n], keeps), ks, rows[n]);
      assert rows[..n] + [rows[n]] == rows;
      if keeps(rows[n]) {
        ks := ks + [n];
      }
    }
  }

  // ----- Loop and join -----

  /** Every existing record that a row can match has every compared field. */
  ghost predicate SharedKeys(f: Filter) {
    forall key, j :: key in f.existing && Reachable(key) && 0 <= j < |f.Fields()| && Comparable(f, f.Fields()[j]) ==>
      Base(f.Fields()[j]) in f.existing[key]
  }

  predicate Reachable(key: string) {
    key != "" && Strip(key) == key
  }

  lemma DiffersAlike(f: Filter, row: Row, record: Record, field: string)
    requires f.Valid() && exists key :: key in f.existing && f.existing[key] == record
    ensures LoopDiffers(f, row, record, field) ==> JoinDiffers(f, row, record, field)
    ensures Base(field) in record ==> (LoopDiffers(f, row, record, field) <==> JoinDiffers(f, row, record, field))
  {
    hide Strip, SameValue, NormStr, Base;
    var i := IndexOf(f.header, field);
    if i.Some? && i.value < |row.cells| && Base(field) in record {
      NormStrCompares(f, row.cells[i.value], record[Base(field)]);
    }
  }

  /** The join never drops a row that the loop keeps; with shared keys it keeps exactly the same rows. */
  lemma RowAgreement(f: Filter, row: Row)
    requires f.Valid()
    ensures LoopKeeps(f, row) ==> JoinKeeps(f, row)
    ensures SharedKeys(f) ==> (LoopKeeps(f, row) <==> JoinKeeps(f, row))
  {
    hide LoopDiffers, JoinDiffers, Comparable, Base, Strip;
    if Matched(f, row) {
      var key := ExternalId(f, row);
      var record := f.existing[key];
      StripIsStableAt(f, row);
      forall j | 0 <= j < |f.Fields()|
        ensures LoopDiffers(f, row, record, f.Fields()[j]) ==> JoinDiffers(f, row, record, f.Fields()[j])
        ensures SharedKeys(f) && JoinDiffers(f, row, record, f.Fields()[j]) ==>
                LoopDiffers(f, row, record, f.Fields()[j])
      {
        DiffersAlike(f, row, record, f.Fields()[j]);
        OnlyComparableDiffer(f, row, record, f.Fields()[j]);
      }
    }
  }

  lemma OnlyComparableDiffer(f: Filter, row: Row, record: Record, field: string)
    ensures JoinDiffers(f, row, record, field) ==> Comparable(f, field)
  {
  }

  lemma StripIsStableAt(f: Filter, row: Row)
    ensures Matched(f, row) ==> Reachable(ExternalId(f, row))
  {
    hide Strip;
    var i := IndexOf(f.header, f.idField);
    if i.Some? && i.value < |row.cells| {
      StripIsStable(row.cells[i.value]);
    }
  }

  /** The two filters keep the same rows in the same order. */
  predicate AgreeOn(f: Filter, rows: seq<Row>) {
    Kept(rows, row => LoopKeeps(f, row)) == Kept(rows, row => JoinKeeps(f, row))
  }

  ghost predicate Agree(f: Filter) {
    forall rows: seq<Row> :: AgreeOn(f, rows)
  }

  lemma {:induction false} SharedKeysAgree(f: Filter, rows: seq<Row>)
    requires f.Valid() && SharedKeys(f)
    ensures AgreeOn(f, rows)
  {
    hide LoopKeeps, JoinKeeps, SharedKeys;
    if rows != [] {
      SharedKeysAgree(f, rows[..|rows| - 1]);
      RowAgreement(f, rows[|rows| - 1]);
    }
  }

  // ----- Without shared keys -----

  /** The cell that looks unchanged to the loop, and changed to the join if the record lacks the field. */
  function QuietCell(f: Filter, key: string, column: string): string
    requires key in f.existing
  {
    if column == f.idField then key
    else if Base(column) in f.existing[key] then NormStr(f, f.existing[key][Base(column)])
    else "x"
  }

  function QuietRow(f: Filter, key: string): (row: Row)
    requires key in f.existing
    ensures |row.cells| == |f.header|
    ensures forall i :: 0 <= i < |f.header| ==> row.cells[i] == QuietCell(f, key, f.header[i])
  {
    Row(seq(|f.header|, i requires 0 <= i < |f.header| => QuietCell(f, key, f.header[i])))
  }

  lemma NormStrIsStripped(f: Filter, v: Target)
    requires f.Valid()
    ensures Strip(NormStr(f, v)) == NormStr(f, v)
  {
    hide Strip;
    if v.Str? {
      StripIsStable(v.text);
    }
    EmptyStripped();
  }

  lemma EmptyStripped()
    ensures Strip("") == "" && Strip("x") == "x"
  {
  }

  lemma QuietRowIsDropped(f: Filter, key: string)
    requires f.Valid() && f.idField in f.header && f.idField !in f.Fields() && key in f.existing && Reachable(key)
    ensures Matched(f, QuietRow(f, key)) && ExternalId(f, QuietRow(f, key)) == key && !LoopKeeps(f, QuietRow(f, key))
  {
    hide SameValue, NormStr, Strip, Base;
    var row, record := QuietRow(f, key), f.existing[key];
    forall j | 0 <= j < |f.Fields()| ensures !LoopDiffers(f, row, record, f.Fields()[j]) {
      var field := f.Fields()[j];
      var i := IndexOf(f.header, field);
      if i.Some? && Base(field) in record {
        NormStrIsStripped(f, record[Base(field)]);
        NormStrCompares(f, row.cells[i.value], record[Base(field)]);
      }
    }
  }

  lemma QuietRowIsJoined(f: Filter, key: string, j: nat)
    requires f.Valid() && f.idField in f.header && f.idField !in f.Fields() && key in f.existing && Reachable(key)
    requires j < |f.Fields()| && Comparable(f, f.Fields()[j]) && Base(f.Fields()[j]) !in f.existing[key]
    ensures JoinKeeps(f, QuietRow(f, key))
  {
    hide LoopKeeps, Strip, Base;
    QuietRowIsDropped(f, key);
    EmptyStripped();
    assert JoinDiffers(f, QuietRow(f, key), f.existing[key], f.Fields()[j]);
  }

  /**
   Exactly when the vectorised filter is the loop: every existing record a row can match has every
   compared field. Otherwise some row is kept by the join that the loop drops.
   */
  lemma AgreementIsSharedKeys(f: Filter)
    requires f.Valid() && f.idField in f.header && f.idField !in f.Fields()
    ensures Agree(f) <==> SharedKeys(f)
  {
    hide LoopKeeps, JoinKeeps, Comparable, Base, Reachable;
    if SharedKeys(f) {
      forall rows: seq<Row> ensures AgreeOn(f, rows) {
        SharedKeysAgree(f, rows);
      }
    } else {
      var key, j :| key in f.existing && Reachable(key) && 0 <= j < |f.Fields()| && Comparable(f, f.Fields()[j])
                    && Base(f.Fields()[j]) !in f.existing[key];
      QuietRowIsDropped(f, key);
      QuietRowIsJoined(f, key, j);
      var rows := [QuietRow(f, key)];
      OneKept(rows, row => LoopKeeps(f, row));
      OneKept(rows, row => JoinKeeps(f, row));
      assert !AgreeOn(f, rows);
    }
  }

  lemma OneKept(rows: seq<Row>, keeps: Row -> bool)
    requires |rows| == 1
    ensures Kept(rows, keeps) == if keeps(rows[0]) then rows else []
  {
    assert rows[..0] == [] && rows == [rows[0]];
    assert Kept(rows[..0], keeps) == [];
  }
}
