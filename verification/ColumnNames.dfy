/** Column names: a column belongs to the field before its first slash. */
module ColumnNames {
  import opened LoadProtocol

  /** The column is `field`, or `field/...`, and the field has no slash. */
  predicate ColumnOf(column: string, field: string) {
    '/' !in field && field <= column && (|column| == |field| || column[|field|] == '/')
  }

  lemma {:induction false} BaseIsField(column: string)
    ensures ColumnOf(column, Base(column))
    ensures forall field :: ColumnOf(column, field) ==> field == Base(column)
  {
    if column != "" && column[0] != '/' {
      var tail := column[1..];
      BaseIsField(tail);
      assert column == [column[0]] + tail;
      forall field | ColumnOf(column, field) ensures field == Base(column) {
        if field == "" {
          assert false;
        } else {
          assert field[0] == column[0] && field == [field[0]] + field[1..];
          assert ColumnOf(tail, field[1..]);
        }
      }
    }
  }

  lemma SuffixCut(field: string, entry: string)
    requires '/' !in field
    ensures WithoutIdSuffix(entry) == field <==> entry == field || entry == field + "/id"
  {
    if |entry| >= 3 && entry[|entry| - 3..] == "/id" {
      assert entry == entry[..|entry| - 3] + "/id";
      assert entry[|entry| - 3] == '/';
    }
    var long := field + "/id";
    assert long[|long| - 3..] == "/id" && long[..|long| - 3] == field;
  }
}
