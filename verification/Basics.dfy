/** Shared value types and the sequence facts the other modules rely on. */
module Basics {

  datatype Option<+T> = None | Some(value: T)

  /** All parts of a partition, joined in order. */
  function Flatten<T>(parts: seq<seq<T>>): seq<T> {
    if parts == [] then [] else parts[0] + Flatten(parts[1..])
  }

  lemma {:induction false} FlattenAppend<T>(a: seq<seq<T>>, b: seq<seq<T>>)
    ensures Flatten(a + b) == Flatten(a) + Flatten(b)
  {
    if a == [] {
      assert a + b == b;
    } else {
      var ab, first, rest, last := a + b, a[0], Flatten(a[1..]), Flatten(b);
      assert ab[1..] == a[1..] + b;
      FlattenAppend(a[1..], b);
      assert Flatten(ab) == first + (rest + last);
      assert Flatten(a) == first + rest;
    }
  }

  lemma FlattenOne<T>(part: seq<T>)
    ensures Flatten([part]) == part
  {
    assert [part][1..] == [];
    assert Flatten([part]) == part + Flatten([part][1..]);
  }

  /** `batch` of lib/internal/tools.py: consecutive slices of `size`, the last one possibly shorter. */
  function Chunks<T>(s: seq<T>, size: nat): (parts: seq<seq<T>>)
    requires size > 0
    ensures Flatten(parts) == s
    ensures forall i :: 0 <= i < |parts| ==> 0 < |parts[i]| <= size
    ensures forall i :: 0 <= i < |parts| - 1 ==> |parts[i]| == size
    decreases |s|
  {
    if s == [] then []
    else if |s| <= size then
      FlattenOne(s);
      [s]
    else
      var rest := Chunks(s[size..], size);
      assert ([s[..size]] + rest)[1..] == rest;
      assert s[..size] + s[size..] == s;
      [s[..size]] + rest
  }

  predicate NoDuplicates<T(==)>(s: seq<T>) {
    forall i, j :: 0 <= i < j < |s| ==> s[i] != s[j]
  }

  /** floor(log2 n) for n >= 1. */
  function Log2(n: nat): nat {
    if n <= 1 then 0 else 1 + Log2(n / 2)
  }

  function Min(a: int, b: int): int {
    if a <= b then a else b
  }

  lemma SplitMultiset<T>(s: seq<T>, k: nat)
    requires k <= |s|
    ensures multiset(s[..k]) + multiset(s[k..]) == multiset(s)
  {
    assert s[..k] + s[k..] == s;
  }

  lemma {:induction false} TakeOne<T>(parts: seq<seq<T>>, k: nat)
    requires k < |parts|
    ensures multiset(Flatten(parts[..k] + parts[k + 1..])) + multiset(parts[k]) == multiset(Flatten(parts))
  {
    var before, after := parts[..k], parts[k + 1..];
    FlattenAppend(before, after);
    assert parts == before + ([parts[k]] + after);
    FlattenAppend(before, [parts[k]] + after);
    assert ([parts[k]] + after)[1..] == after;
    ThreeParts(Flatten(before), parts[k], Flatten(after));
  }

  lemma ThreeParts<T>(a: seq<T>, b: seq<T>, c: seq<T>)
    ensures multiset(a + c) + multiset(b) == multiset(a + (b + c))
  {
  }

  lemma CountsTwice<T>(s: seq<T>, i: nat, j: nat)
    requires i < j < |s| && s[i] == s[j]
    ensures multiset(s)[s[i]] >= 2
  {
    assert s == s[..j] + s[j..];
    assert s[..j][i] == s[i] && s[j..][0] == s[i];
    assert s[i] in multiset(s[..j]) && s[i] in multiset(s[j..]);
  }

  lemma {:induction false} PartOfFlatten<T>(parts: seq<seq<T>>, i: nat, x: T)
    requires i < |parts| && x in parts[i]
    ensures x in Flatten(parts)
  {
    if i > 0 {
      PartOfFlatten(parts[1..], i - 1, x);
    }
  }
}
