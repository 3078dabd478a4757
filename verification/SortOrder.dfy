/** The order `--groupby` sorts rows in: by group column, empty values last, ties in input order. */
module SortOrder {
  import opened LoadProtocol

  /** Python's order on strings: by code point. */
  predicate StrLeq(a: string, b: string) {
    a == [] || (b != [] && if a[0] == b[0] then StrLeq(a[1..], b[1..]) else a[0] < b[0])
  }

  /** The tuple order on (is empty, value). */
  predicate CellLeq(a: string, b: string) {
    b == "" || (a != "" && StrLeq(a, b))
  }

  lemma {:induction false} StrOrder(a: string, b: string, c: string)
    ensures StrLeq(a, b) || StrLeq(b, a)
    ensures StrLeq(a, b) && StrLeq(b, a) ==> a == b
    ensures StrLeq(a, b) && StrLeq(b, c) ==> StrLeq(a, c)
  {
    if a != [] && b != [] {
      StrOrder(a[1..], b[1..], if c == [] then [] else c[1..]);
      assert a == [a[0]] + a[1..] && b == [b[0]] + b[1..];
    }
  }

  lemma CellOrder(a: string, b: string, c: string)
    ensures CellLeq(a, b) || CellLeq(b, a)
    ensures CellLeq(a, b) && CellLeq(b, a) ==> a == b
    ensures CellLeq(a, b) && CellLeq(b, c) ==> CellLeq(a, c)
  {
    StrOrder(a, b, c);
  }

  /** The strings are alike up to place i, where a has the smaller character. */
  predicate SmallerAt(a: string, b: string, i: nat) {
    i < |a| && i < |b| && a[..i] == b[..i] && a[i] < b[i]
  }

  /** A string comes before those it begins, and otherwise the first different character decides. */
  lemma {:induction false} StrLeqMeans(a: string, b: string)
    ensures StrLeq(a, b) <==> a <= b || exists i: nat :: SmallerAt(a, b, i)
  {
    if a != [] && b != [] {
      var c, d := a[1..], b[1..];
      assert a == [a[0]] + c && b == [b[0]] + d;
      StrLeqMeans(c, d);
      if a[0] == b[0] {
        forall i: nat ensures SmallerAt(c, d, i) <==> SmallerAt(a, b, i + 1) {
          if i < |c| && i < |d| {
            assert a[..i + 1] == [a[0]] + c[..i] && b[..i + 1] == [b[0]] + d[..i];
            assert a[..i + 1][1..] == c[..i] && b[..i + 1][1..] == d[..i];
          }
        }
        assert !SmallerAt(a, b, 0);
        if i: nat :| SmallerAt(a, b, i) {
          assert SmallerAt(c, d, i - 1);
        }
      } else {
        if a[0] < b[0] {
          assert SmallerAt(a, b, 0);
        }
        forall i: nat | i > 0 ensures !SmallerAt(a, b, i) {
          if i < |a| && i < |b| {
            assert a[..i][0] == a[0] && b[..i][0] == b[0];
          }
        }
      }
    }
  }

  /** The empty value comes last; others are in string order. */
  lemma CellLeqMeans(a: string, b: string)
    ensures CellLeq(a, "")
    ensures b != "" ==> (CellLeq(a, b) <==> a != "" && (a <= b || exists i: nat :: SmallerAt(a, b, i)))
  {
    StrLeqMeans(a, b);
  }

  // ----- Keys: the values of several columns, compared lexicographically -----

  type SortKey = seq<string>

  predicate Fits(row: Row, cols: seq<nat>) {
    forall i :: 0 <= i < |cols| ==> cols[i] < |row.cells|
  }

  predicate AllFit(rows: seq<Row>, cols: seq<nat>) {
    forall i :: 0 <= i < |rows| ==> Fits(rows[i], cols)
  }

  function KeyOf(row: Row, cols: seq<nat>): (k: SortKey)
    requires Fits(row, cols)
    ensures |k| == |cols|
  {
    if cols == [] then [] else [row.cells[cols[0]]] + KeyOf(row, cols[1..])
  }

  predicate LexLeq(a: SortKey, b: SortKey)
    requires |a| == |b|
  {
    a == [] || if a[0] == b[0] then LexLeq(a[1..], b[1..]) else CellLeq(a[0], b[0])
  }

  lemma {:induction false} LexAntisymmetric(a: SortKey, b: SortKey)
    requires |a| == |b| && LexLeq(a, b) && LexLeq(b, a)
    ensures a == b
  {
    if a != [] {
      CellOrder(a[0], b[0], a[0]);
      LexAntisymmetric(a[1..], b[1..]);
      assert a == [a[0]] + a[1..] && b == [b[0]] + b[1..];
    }
  }

  /** The first column in which the keys differ decides. */
  lemma {:induction false} LexLeqMeans(a: SortKey, b: SortKey, i: nat)
    requires |a| == |b|
    ensures a == b ==> LexLeq(a, b)
    ensures i < |a| && a[..i] == b[..i] && a[i] != b[i] ==> (LexLeq(a, b) <==> CellLeq(a[i], b[i]))
  {
    if a != [] {
      LexLeqMeans(a[1..], b[1..], if i == 0 then 0 else i - 1);
      if 0 < i < |a| && a[..i] == b[..i] {
        assert a[..i][0] == b[..i][0] && a[1..][..i - 1] == a[..i][1..] && b[1..][..i - 1] == b[..i][1..];
      }
    }
  }

  predicate Sorted(rows: seq<Row>, cols: seq<nat>)
    requires AllFit(rows, cols)
  {
    forall i, j :: 0 <= i < j < |rows| ==> LexLeq(KeyOf(rows[i], cols), KeyOf(rows[j], cols))
  }

  /** The rows with this key, in order. */
  function WithKey(rows: seq<Row>, cols: seq<nat>, key: SortKey): (r: seq<Row>)
    requires AllFit(rows, cols)
  {
    if rows == [] then []
    else (if KeyOf(rows[0], cols) == key then [rows[0]] else []) + WithKey(rows[1..], cols, key)
  }

  /** `output` is `input` sorted by the columns, rows with equal keys keeping their order. */
  ghost predicate StablySorted(output: seq<Row>, input: seq<Row>, cols: seq<nat>) {
    && AllFit(output, cols) && AllFit(input, cols)
    && Sorted(output, cols)
    && forall key: SortKey :: WithKey(output, cols, key) == WithKey(input, cols, key)
  }

  lemma {:induction false} WithKeyAppend(a: seq<Row>, b: seq<Row>, cols: seq<nat>, key: SortKey)
    requires AllFit(a, cols) && AllFit(b, cols)
    ensures AllFit(a + b, cols)
    ensures WithKey(a + b, cols, key) == WithKey(a, cols, key) + WithKey(b, cols, key)
  {
    hide KeyOf, Fits;
    if a == [] {
      assert a + b == b;
    } else {
      var ab := a + b;
      assert ab[1..] == a[1..] + b;
      WithKeyAppend(a[1..], b, cols, key);
      var first := if KeyOf(a[0], cols) == key then [a[0]] else [];
      assert first + (WithKey(a[1..], cols, key) + WithKey(b, cols, key))
          == first + WithKey(a[1..], cols, key) + WithKey(b, cols, key);
    }
  }

  lemma {:induction false} WithKeyMember(rows: seq<Row>, cols: seq<nat>, key: SortKey, row: Row)
    requires AllFit(rows, cols)
    ensures row in WithKey(rows, cols, key) <==> row in rows && KeyOf(row, cols) == key
    ensures multiset(WithKey(rows, cols, key))[row]
            == if Fits(row, cols) && KeyOf(row, cols) == key then multiset(rows)[row] else 0
  {
    if rows != [] {
      WithKeyMember(rows[1..], cols, key, row);
      assert rows == [rows[0]] + rows[1..];
    }
  }

  /** A stable sort is a permutation. */
  lemma SortedIsPermutation(output: seq<Row>, input: seq<Row>, cols: seq<nat>)
    requires StablySorted(output, input, cols)
    ensures multiset(output) == multiset(input)
  {
    forall row ensures multiset(output)[row] == multiset(input)[row] {
      if row in output || row in input {
        var key := KeyOf(row, cols);
        WithKeyMember(output, cols, key, row);
        WithKeyMember(input, cols, key, row);
      }
    }
  }

  lemma FirstOfKey(rows: seq<Row>, cols: seq<nat>)
    requires AllFit(rows, cols) && rows != []
    ensures WithKey(rows, cols, KeyOf(rows[0], cols)) == [rows[0]] + WithKey(rows[1..], cols, KeyOf(rows[0], cols))
  {
  }

  lemma SameFirst(a: seq<Row>, b: seq<Row>, cols: seq<nat>)
    requires StablySorted(a, b, cols) && Sorted(b, cols) && a != [] && b != []
    ensures a[0] == b[0]
  {
    hide Sorted, LexLeq, KeyOf;
    var ka, kb := KeyOf(a[0], cols), KeyOf(b[0], cols);
    WithKeyMember(b, cols, ka, a[0]);
    WithKeyMember(a, cols, ka, a[0]);
    WithKeyMember(a, cols, kb, b[0]);
    WithKeyMember(b, cols, kb, b[0]);
    SmallestFirst(a, b[0], cols);
    SmallestFirst(b, a[0], cols);
    LexAntisymmetric(ka, kb);
    FirstOfKey(a, cols);
    FirstOfKey(b, cols);
    assert WithKey(a, cols, ka)[0] == WithKey(b, cols, ka)[0];
  }

  lemma TailsAgree(a: seq<Row>, b: seq<Row>, cols: seq<nat>)
    requires StablySorted(a, b, cols) && Sorted(b, cols) && a != [] && b != [] && a[0] == b[0]
    ensures StablySorted(a[1..], b[1..], cols) && Sorted(b[1..], cols)
  {
    hide LexLeq, KeyOf;
    forall key: SortKey ensures WithKey(a[1..], cols, key) == WithKey(b[1..], cols, key) {
      var wa, wb := WithKey(a[1..], cols, key), WithKey(b[1..], cols, key);
      assert WithKey(a, cols, key) == WithKey(b, cols, key);
      if KeyOf(a[0], cols) == key {
        assert ([a[0]] + wa)[1..] == wa && ([b[0]] + wb)[1..] == wb;
      } else {
        assert [] + wa == wa && [] + wb == wb;
      }
    }
  }

  /** There is only one stable sort of an input, so the predicate determines the order completely. */
  lemma {:induction false} StableSortUnique(a: seq<Row>, b: seq<Row>, cols: seq<nat>)
    requires StablySorted(a, b, cols) && Sorted(b, cols)
    ensures a == b
    decreases |a|
  {
    hide Sorted;
    if a == [] || b == [] {
      SortedIsPermutation(a, b, cols);
      assert |multiset(a)| == |multiset(b)|;
    } else {
      hide StablySorted;
      SameFirst(a, b, cols);
      TailsAgree(a, b, cols);
      StableSortUnique(a[1..], b[1..], cols);
      assert a == [a[0]] + a[1..] && b == [b[0]] + b[1..];
    }
  }

  lemma SmallestFirst(rows: seq<Row>, row: Row, cols: seq<nat>)
    requires AllFit(rows, cols) && Sorted(rows, cols) && row in rows
    ensures LexLeq(KeyOf(rows[0], cols), KeyOf(row, cols))
  {
    var i :| 0 <= i < |rows| && rows[i] == row;
    if i == 0 {
      LexReflexive(KeyOf(row, cols));
    }
  }

  lemma {:induction false} LexReflexive(a: SortKey)
    ensures LexLeq(a, a)
  {
    if a != [] {
      LexReflexive(a[1..]);
    }
  }

  // ----- The stable sort by one column -----

  predicate Wide(rows: seq<Row>, c: nat) {
    forall i :: 0 <= i < |rows| ==> c < |rows[i].cells|
  }

  lemma OneColumn(rows: seq<Row>, c: nat)
    requires Wide(rows, c)
    ensures AllFit(rows, [c])
    ensures forall i :: 0 <= i < |rows| ==> KeyOf(rows[i], [c]) == [rows[i].cells[c]]
  {
    assert [c][0] == c && [c][1..] == [];
  }

  function Insert(row: Row, rows: seq<Row>, c: nat): (r: seq<Row>)
    requires Wide(rows, c) && c < |row.cells|
    ensures Wide(r, c)
  {
    if rows == [] || CellLeq(row.cells[c], rows[0].cells[c]) then [row] + rows
    else [rows[0]] + Insert(row, rows[1..], c)
  }

  /** `current_data.sort(key=...)` on one column. */
  function StableSort(rows: seq<Row>, c: nat): (r: seq<Row>)
    requires Wide(rows, c)
    ensures Wide(r, c)
  {
    if rows == [] then [] else Insert(rows[0], StableSort(rows[1..], c), c)
  }

  predicate Ascending(rows: seq<Row>, c: nat)
    requires Wide(rows, c)
  {
    forall i, j :: 0 <= i < j < |rows| ==> CellLeq(rows[i].cells[c], rows[j].cells[c])
  }

  /** The rows with this value in column c, in order. */
  function WithCell(rows: seq<Row>, c: nat, v: string): seq<Row>
    requires Wide(rows, c)
  {
    if rows == [] then []
    else (if rows[0].cells[c] == v then [rows[0]] else []) + WithCell(rows[1..], c, v)
  }

  lemma PrependAscending(row: Row, rows: seq<Row>, c: nat)
    requires Wide(rows, c) && c < |row.cells| && Ascending(rows, c)
    requires rows == [] || CellLeq(row.cells[c], rows[0].cells[c])
    ensures Ascending([row] + rows, c)
  {
    hide CellLeq;
    forall j | 0 <= j < |rows| ensures CellLeq(row.cells[c], rows[j].cells[c]) {
      CellOrder(row.cells[c], rows[0].cells[c], rows[j].cells[c]);
    }
  }

  predicate AtLeast(rows: seq<Row>, c: nat, v: string)
    requires Wide(rows, c)
  {
    forall i :: 0 <= i < |rows| ==> CellLeq(v, rows[i].cells[c])
  }

  lemma {:induction false} InsertAtLeast(row: Row, rows: seq<Row>, c: nat, v: string)
    requires Wide(rows, c) && c < |row.cells| && AtLeast(rows, c, v) && CellLeq(v, row.cells[c])
    ensures AtLeast(Insert(row, rows, c), c, v)
  {
    hide CellLeq;
    if rows != [] {
      InsertAtLeast(row, rows[1..], c, v);
    }
  }

  lemma {:induction false} InsertAscends(row: Row, rows: seq<Row>, c: nat)
    requires Wide(rows, c) && c < |row.cells| && Ascending(rows, c)
    ensures Ascending(Insert(row, rows, c), c)
  {
    if rows == [] || CellLeq(row.cells[c], rows[0].cells[c]) {
      PrependAscending(row, rows, c);
    } else {
      CellOrder(row.cells[c], rows[0].cells[c], "");
      hide CellLeq, Insert;
      var rest := Insert(row, rows[1..], c);
      InsertAscends(row, rows[1..], c);
      InsertAtLeast(row, rows[1..], c, rows[0].cells[c]);
      assert Ascending([rows[0]] + rest, c);
      InsertLater(row, rows, c);
    }
  }

  lemma InsertLater(row: Row, rows: seq<Row>, c: nat)
    requires Wide(rows, c) && c < |row.cells| && rows != [] && !CellLeq(row.cells[c], rows[0].cells[c])
    ensures Insert(row, rows, c) == [rows[0]] + Insert(row, rows[1..], c)
  {
  }

  lemma {:induction false} InsertKeeps(row: Row, rows: seq<Row>, c: nat, v: string)
    requires Wide(rows, c) && c < |row.cells|
    ensures WithCell(Insert(row, rows, c), c, v) == (if row.cells[c] == v then [row] else []) + WithCell(rows, c, v)
  {
    if rows == [] || CellLeq(row.cells[c], rows[0].cells[c]) {
      assert ([row] + rows)[1..] == rows;
    } else {
      InsertKeeps(row, rows[1..], c, v);
      CellOrder(row.cells[c], row.cells[c], row.cells[c]);
      InsertLater(row, rows, c);
      hide CellLeq, Insert;
      WithCellCons(rows[0], Insert(row, rows[1..], c), c, v);
      var later := WithCell(rows[1..], c, v);
      if row.cells[c] == v {
        assert rows[0].cells[c] != v;
        assert [] + ([row] + later) == [row] + ([] + later);
      } else {
        assert [] + later == later;
      }
    }
  }

  lemma WithCellCons(row: Row, rows: seq<Row>, c: nat, v: string)
    requires Wide(rows, c) && c < |row.cells|
    ensures WithCell([row] + rows, c, v) == (if row.cells[c] == v then [row] else []) + WithCell(rows, c, v)
  {
    assert ([row] + rows)[1..] == rows;
  }

  lemma {:induction false} SortAscends(rows: seq<Row>, c: nat)
    requires Wide(rows, c)
    ensures Ascending(StableSort(rows, c), c)
  {
    if rows != [] {
      SortAscends(rows[1..], c);
      InsertAscends(rows[0], StableSort(rows[1..], c), c);
    }
  }

  lemma {:induction false} SortKeeps(rows: seq<Row>, c: nat, v: string)
    requires Wide(rows, c)
    ensures WithCell(StableSort(rows, c), c, v) == WithCell(rows, c, v)
  {
    if rows != [] {
      SortKeeps(rows[1..], c, v);
      InsertKeeps(rows[0], StableSort(rows[1..], c), c, v);
    }
  }

  lemma {:induction false} CellIsKey(rows: seq<Row>, c: nat, v: string)
    requires Wide(rows, c) && AllFit(rows, [c])
    ensures WithKey(rows, [c], [v]) == WithCell(rows, c, v)
  {
    if rows != [] {
      OneColumn(rows, c);
      CellIsKey(rows[1..], c, v);
    }
  }

  lemma {:induction false} LongKeyMatchesNothing(rows: seq<Row>, cols: seq<nat>, key: SortKey)
    requires AllFit(rows, cols) && |key| != |cols|
    ensures WithKey(rows, cols, key) == []
  {
    if rows != [] {
      LongKeyMatchesNothing(rows[1..], cols, key);
    }
  }

  /** The library sort used for each group column: sorted, empties last, stable. */
  lemma StableSortIsStable(rows: seq<Row>, c: nat)
    requires Wide(rows, c)
    ensures StablySorted(StableSort(rows, c), rows, [c])
  {
    var output := StableSort(rows, c);
    SortAscends(rows, c);
    OneColumn(rows, c);
    OneColumn(output, c);
    forall i, j | 0 <= i < j < |output|
      ensures LexLeq(KeyOf(output[i], [c]), KeyOf(output[j], [c]))
    {
      assert CellLeq(output[i].cells[c], output[j].cells[c]);
    }
    forall key: SortKey ensures WithKey(output, [c], key) == WithKey(rows, [c], key) {
      if |key| == 1 {
        assert key == [key[0]];
        CellIsKey(rows, c, key[0]);
        CellIsKey(output, c, key[0]);
        SortKeeps(rows, c, key[0]);
      } else {
        LongKeyMatchesNothing(rows, [c], key);
        LongKeyMatchesNothing(output, [c], key);
      }
    }
  }
}
