/**
 Flow variables: `_resolve_vars` of lib/flow.py, a memoised depth-first search with a cycle check and a
 depth cap, against the equations it is meant to solve.
 */
module FlowVars {
  import opened Basics

  /** A value split at its markers. */
  datatype Piece = Lit(text: string) | Var(name: string) | Env(name: string)
  type Template = seq<Piece>

  const MAX_DEPTH := 25

  datatype FlowError =
    | Cycle(path: seq<string>)
    | Undefined(name: string)
    | UnsetEnv(name: string)
    | TooDeep(name: string)

  /** A flow file: the raw variables and the environment. */
  datatype Flow = Flow(raw: map<string, Template>, env: map<string, string>)

  /** The dictionary of resolved values, in the order of insertion. */
  datatype Memo = Memo(order: seq<string>, values: map<string, string>)

  datatype Outcome = Ok(memo: Memo) | Fail(error: FlowError)
  datatype TextOutcome = Text(text: string, memo: Memo) | NoText(error: FlowError)

  // ----- What it does -----

  function ResolveOne(f: Flow, memo: Memo, resolving: seq<string>, name: string): (out: Outcome)
    requires |resolving| <= MAX_DEPTH
    ensures out.Ok? ==> name in out.memo.values
    decreases MAX_DEPTH - |resolving|, 0
  {
    if name in memo.values then Ok(memo)
    else if name in resolving then Fail(Cycle(resolving + [name]))
    else if name !in f.raw then Fail(Undefined(name))
    else if |resolving| >= MAX_DEPTH then Fail(TooDeep(name))
    else
      var out := Interpolate(f, memo, resolving + [name], f.raw[name]);
      if out.NoText? then Fail(out.error)
      else Ok(Memo(out.memo.order + [name], out.memo.values[name := out.text]))
  }

  function Interpolate(f: Flow, memo: Memo, resolving: seq<string>, pieces: Template): TextOutcome
    requires |resolving| <= MAX_DEPTH
    decreases MAX_DEPTH - |resolving|, 2 * |pieces|
  {
    if pieces == [] then Text("", memo)
    else
      var before, last := Interpolate(f, memo, resolving, pieces[..|pieces| - 1]), pieces[|pieces| - 1];
      if before.NoText? then before
      else Substitute(f, before, resolving, last)
  }

  function Substitute(f: Flow, before: TextOutcome, resolving: seq<string>, piece: Piece): TextOutcome
    requires |resolving| <= MAX_DEPTH && before.Text?
    decreases MAX_DEPTH - |resolving|, 1
  {
    match piece
    case Lit(text) => Text(before.text + text, before.memo)
    case Env(name) => if name in f.env then Text(before.text + f.env[name], before.memo) else NoText(UnsetEnv(name))
    case Var(name) =>
      var out := ResolveOne(f, before.memo, resolving, name);
      if out.Fail? then NoText(out.error) else Text(before.text + out.memo.values[name], out.memo)
  }

  /** The loop of `_resolve_vars` over the names in a given visiting order. */
  function ResolveAll(f: Flow, names: seq<string>): Outcome {
    if names == [] then Ok(Memo([], map[]))
    else
      var before := ResolveAll(f, names[..|names| - 1]);
      if before.Fail? then before else ResolveOne(f, before.memo, [], names[|names| - 1])
  }

  // ----- What it means -----

  predicate Refers(t: Template, name: string) {
    exists i :: 0 <= i < |t| && t[i] == Var(name)
  }

  predicate NeedsEnv(t: Template, name: string) {
    exists i :: 0 <= i < |t| && t[i] == Env(name)
  }

  /** A piece's text under given values; an unknown reference counts as nothing. */
  function PieceText(f: Flow, values: map<string, string>, piece: Piece): string {
    match piece
    case Lit(text) => text
    case Env(name) => if name in f.env then f.env[name] else ""
    case Var(name) => if name in values then values[name] else ""
  }

  function Meaning(f: Flow, values: map<string, string>, t: Template): string {
    if t == [] then "" else Meaning(f, values, t[..|t| - 1]) + PieceText(f, values, t[|t| - 1])
  }

  ghost predicate Grounded(f: Flow, values: map<string, string>, t: Template) {
    && (forall x :: Refers(t, x) ==> x in values)
    && (forall x :: NeedsEnv(t, x) ==> x in f.env)
  }

  /** The equations: every name has the text of its template under the values themselves. */
  ghost predicate Solves(f: Flow, values: map<string, string>) {
    forall x :: x in values ==> x in f.raw && Grounded(f, values, f.raw[x]) && values[x] == Meaning(f, values, f.raw[x])
  }

  /** A walk along references. */
  ghost predicate Chain(f: Flow, c: seq<string>) {
    && (forall i :: 0 <= i < |c| ==> c[i] in f.raw)
    && (forall i :: 0 < i < |c| ==> Refers(f.raw[c[i - 1]], c[i]))
  }

  ghost predicate Acyclic(f: Flow) {
    forall c :: Chain(f, c) && |c| >= 2 ==> c[0] != c[|c| - 1]
  }

  ghost predicate FullyDefined(f: Flow) {
    forall x :: x in f.raw ==>
      (forall y :: Refers(f.raw[x], y) ==> y in f.raw) && (forall y :: NeedsEnv(f.raw[x], y) ==> y in f.env)
  }

  predicate Enumerates(f: Flow, names: seq<string>) {
    (forall i :: 0 <= i < |names| ==> names[i] in f.raw) && (forall x :: x in f.raw ==> x in names)
  }

  /** The memo grows in dependency order: each entry refers to earlier ones only. */
  ghost predicate Sound(f: Flow, memo: Memo) {
    && NoDuplicates(memo.order)
    && (forall x :: x in memo.values <==> x in memo.order)
    && Solves(f, memo.values)
    && (forall i :: 0 <= i < |memo.order| ==> EarlierRefs(f, memo.order, i))
  }

  ghost predicate EarlierRefs(f: Flow, order: seq<string>, i: nat)
    requires i < |order|
  {
    order[i] in f.raw && forall y :: Refers(f.raw[order[i]], y) ==> y in order[..i]
  }

  ghost predicate Extends(memo: Memo, memo': Memo) {
    memo.order <= memo'.order && forall x :: x in memo.values ==> x in memo'.values && memo'.values[x] == memo.values[x]
  }

  // ----- A run that returns -----

  lemma {:induction false} MeaningAgrees(f: Flow, values: map<string, string>, values': map<string, string>,
                                         t: Template)
    requires forall x :: Refers(t, x) ==> x in values && x in values' && values'[x] == values[x]
    ensures Meaning(f, values', t) == Meaning(f, values, t)
  {
    if t != [] {
      var init := t[..|t| - 1];
      assert forall x :: Refers(init, x) ==> Refers(t, x);
      MeaningAgrees(f, values, values', init);
      assert t[|t| - 1].Var? ==> Refers(t, t[|t| - 1].name);
    }
  }

  lemma MeaningStays(f: Flow, values: map<string, string>, values': map<string, string>, t: Template)
    requires Grounded(f, values, t)
    requires forall x :: x in values ==> x in values' && values'[x] == values[x]
    ensures Meaning(f, values', t) == Meaning(f, values, t)
  {
    MeaningAgrees(f, values, values', t);
  }

  lemma GroundedStays(f: Flow, values: map<string, string>, values': map<string, string>, t: Template)
    requires Grounded(f, values, t) && forall x :: x in values ==> x in values'
    ensures Grounded(f, values', t)
  {
  }

  lemma AddEntry(f: Flow, memo: Memo, name: string, text: string)
    requires Sound(f, memo) && name in f.raw && name !in memo.values
    requires Grounded(f, memo.values, f.raw[name]) && text == Meaning(f, memo.values, f.raw[name])
    ensures Sound(f, Memo(memo.order + [name], memo.values[name := text]))
  {
    hide Grounded, Meaning, Refers;
    var values' := memo.values[name := text];
    forall x | x in values'
      ensures x in f.raw && Grounded(f, values', f.raw[x]) && values'[x] == Meaning(f, values', f.raw[x])
    {
      GroundedStays(f, memo.values, values', f.raw[x]);
      MeaningStays(f, memo.values, values', f.raw[x]);
    }
    var order' := memo.order + [name];
    forall i | 0 <= i < |order'| ensures EarlierRefs(f, order', i) {
      if i < |memo.order| {
        assert EarlierRefs(f, memo.order, i);
        assert order'[..i] == memo.order[..i];
      } else {
        assert order'[..i] == memo.order;
        GroundedRefs(f, memo.values, f.raw[name]);
      }
    }
  }

  lemma GroundedRefs(f: Flow, values: map<string, string>, t: Template)
    requires Grounded(f, values, t)
    ensures forall y :: Refers(t, y) ==> y in values
    ensures forall y :: NeedsEnv(t, y) ==> y in f.env
  {
  }

  /** Resolving one name keeps the memo sound, adds the name, and does not touch names under resolution. */
  lemma {:induction false} ResolveOneIsSound(f: Flow, memo: Memo, resolving: seq<string>, name: string)
    requires |resolving| <= MAX_DEPTH && Sound(f, memo)
    requires forall x :: x in resolving ==> x !in memo.values
    ensures var out := ResolveOne(f, memo, resolving, name);
      out.Ok? ==>
        && Sound(f, out.memo) && Extends(memo, out.memo) && name in out.memo.values
        && forall x :: x in resolving ==> x !in out.memo.values
    decreases MAX_DEPTH - |resolving|, 0
  {
    hide Sound, Interpolate, Meaning, Grounded;
    if name !in memo.values && name !in resolving && name in f.raw && |resolving| < MAX_DEPTH {
      InterpolateIsSound(f, memo, resolving + [name], f.raw[name]);
      var out := Interpolate(f, memo, resolving + [name], f.raw[name]);
      if out.Text? {
        assert name in resolving + [name];
        AddEntry(f, out.memo, name, out.text);
      }
    }
  }

  lemma {:induction false} InterpolateIsSound(f: Flow, memo: Memo, resolving: seq<string>, pieces: Template)
    requires |resolving| <= MAX_DEPTH && Sound(f, memo)
    requires forall x :: x in resolving ==> x !in memo.values
    ensures var out := Interpolate(f, memo, resolving, pieces);
      out.Text? ==>
        && Sound(f, out.memo) && Extends(memo, out.memo)
        && Grounded(f, out.memo.values, pieces) && out.text == Meaning(f, out.memo.values, pieces)
        && forall x :: x in resolving ==> x !in out.memo.values
    decreases MAX_DEPTH - |resolving|, 2 * |pieces|
  {
    hide Sound, ResolveOne, Substitute, Meaning, Grounded;
    if pieces == [] {
      NothingToSay(f, memo);
    } else {
      var init, last := pieces[..|pieces| - 1], pieces[|pieces| - 1];
      InterpolateIsSound(f, memo, resolving, init);
      var before := Interpolate(f, memo, resolving, init);
      if before.Text? {
        assert Interpolate(f, memo, resolving, pieces) == Substitute(f, before, resolving, last);
        SubstituteIsSound(f, before, resolving, init, last);
        assert init + [last] == pieces;
      }
    }
  }

  lemma NothingToSay(f: Flow, memo: Memo)
    ensures Grounded(f, memo.values, []) && Meaning(f, memo.values, []) == "" && Extends(memo, memo)
  {
  }

  lemma SubstituteIsSound(f: Flow, before: TextOutcome, resolving: seq<string>, init: Template, last: Piece)
    requires |resolving| <= MAX_DEPTH && before.Text? && Sound(f, before.memo)
    requires forall x :: x in resolving ==> x !in before.memo.values
    requires Grounded(f, before.memo.values, init) && before.text == Meaning(f, before.memo.values, init)
    ensures var out := Substitute(f, before, resolving, last);
      out.Text? ==>
        && Sound(f, out.memo) && Extends(before.memo, out.memo)
        && Grounded(f, out.memo.values, init + [last]) && out.text == Meaning(f, out.memo.values, init + [last])
        && forall x :: x in resolving ==> x !in out.memo.values
    decreases MAX_DEPTH - |resolving|, 1
  {
    hide Sound, ResolveOne, Meaning, Grounded;
    if last.Var? {
      ResolveOneIsSound(f, before.memo, resolving, last.name);
    }
    var out := Substitute(f, before, resolving, last);
    if out.Text? {
      MeaningStays(f, before.memo.values, out.memo.values, init);
      GroundedStays(f, before.memo.values, out.memo.values, init);
      GroundedRefs(f, out.memo.values, init);
      GroundedSnoc(f, out.memo.values, init, last);
      MeaningSnoc(f, out.memo.values, init, last);
    }
  }

  lemma MeaningSnoc(f: Flow, values: map<string, string>, init: Template, last: Piece)
    ensures Meaning(f, values, init + [last]) == Meaning(f, values, init) + PieceText(f, values, last)
  {
    assert (init + [last])[..|init|] == init;
  }

  lemma GroundedSnoc(f: Flow, values: map<string, string>, init: Template, last: Piece)
    requires (forall x :: Refers(init, x) ==> x in values) && (forall x :: NeedsEnv(init, x) ==> x in f.env)
    requires last.Var? ==> last.name in values
    requires last.Env? ==> last.name in f.env
    ensures Grounded(f, values, init + [last])
  {
  }

  lemma {:induction false} ResolveAllIsSound(f: Flow, names: seq<string>)
    ensures var out := ResolveAll(f, names);
      out.Ok? ==> Sound(f, out.memo) && forall i :: 0 <= i < |names| ==> names[i] in out.memo.values
  {
    hide Solves, EarlierRefs, ResolveOne;
    if names == [] {
      EmptyIsSound(f);
    } else {
      ResolveAllIsSound(f, names[..|names| - 1]);
      var before := ResolveAll(f, names[..|names| - 1]);
      if before.Ok? {
        ResolveOneIsSound(f, before.memo, [], names[|names| - 1]);
      }
    }
  }

  lemma EmptyIsSound(f: Flow)
    ensures Sound(f, Memo([], map[]))
  {
  }

  function Position(order: seq<string>, x: string): (i: nat)
    requires x in order
    ensures i < |order| && order[i] == x
  {
    if order[0] == x then 0 else 1 + Position(order[1..], x)
  }

  /** Along a chain the positions in the memo go down. */
  lemma {:induction false} ChainDescends(f: Flow, memo: Memo, c: seq<string>, i: nat, j: nat)
    requires Sound(f, memo) && Chain(f, c) && i < j < |c| && forall k :: 0 <= k < |c| ==> c[k] in memo.order
    ensures Position(memo.order, c[j]) < Position(memo.order, c[i])
  {
    hide Solves, Refers, Position;
    var p := Position(memo.order, c[j - 1]);
    assert EarlierRefs(f, memo.order, p);
    assert Refers(f.raw[c[j - 1]], c[j]);
    var q :| 0 <= q < p && memo.order[q] == c[j];
    assert Position(memo.order, c[j]) == q;
    if i < j - 1 {
      ChainDescends(f, memo, c, i, j - 1);
    }
  }

  lemma {:induction false} SolutionIsForced(f: Flow, memo: Memo, other: map<string, string>, n: nat)
    requires Sound(f, memo) && Solves(f, other) && n <= |memo.order|
    requires forall x :: x in memo.values ==> x in other
    ensures forall i :: 0 <= i < n ==> other[memo.order[i]] == memo.values[memo.order[i]]
  {
    hide Refers, Meaning;
    if n > 0 {
      SolutionIsForced(f, memo, other, n - 1);
      var x := memo.order[n - 1];
      assert EarlierRefs(f, memo.order, n - 1);
      forall y | Refers(f.raw[x], y) ensures y in memo.values && y in other && other[y] == memo.values[y] {
        var k :| 0 <= k < n - 1 && memo.order[k] == y;
      }
      MeaningAgrees(f, memo.values, other, f.raw[x]);
    }
  }

  /**
   If resolution returns, the result solves the equations for exactly the declared names, it is the only
   map that does, and the reference graph is defined throughout and acyclic.
   */
  lemma ReturnedIsTheSolution(f: Flow, names: seq<string>, other: map<string, string>)
    requires Enumerates(f, names) && ResolveAll(f, names).Ok?
    ensures var values := ResolveAll(f, names).memo.values;
      && values.Keys == f.raw.Keys && Solves(f, values)
      && (other.Keys == f.raw.Keys && Solves(f, other) ==> other == values)
    ensures FullyDefined(f) && Acyclic(f)
  {
    hide ResolveAll, Refers, NeedsEnv, Meaning;
    var memo := ResolveAll(f, names).memo;
    ResolveAllIsSound(f, names);
    forall x ensures x in memo.values <==> x in f.raw {
    }
    if other.Keys == f.raw.Keys && Solves(f, other) {
      SolutionIsForced(f, memo, other, |memo.order|);
      forall x | x in memo.values ensures other[x] == memo.values[x] {
        assert memo.order[Position(memo.order, x)] == x;
      }
      assert other == memo.values;
    }
    forall c | Chain(f, c) && |c| >= 2 ensures c[0] != c[|c| - 1] {
      ChainDescends(f, memo, c, 0, |c| - 1);
    }
  }

  /** Any two visiting orders that both return, return the same values. */
  lemma OrderIndependence(f: Flow, names: seq<string>, names': seq<string>)
    requires Enumerates(f, names) && Enumerates(f, names') && ResolveAll(f, names).Ok? && ResolveAll(f, names').Ok?
    ensures ResolveAll(f, names).memo.values == ResolveAll(f, names').memo.values
  {
    hide ResolveAll, Enumerates;
    ReturnedIsTheSolution(f, names', map[]);
    ReturnedIsTheSolution(f, names, ResolveAll(f, names').memo.values);
  }

  // ----- A run that fails -----

  /** The error names something that is there in the flow file. */
  ghost predicate Real(f: Flow, e: FlowError) {
    match e
    case Cycle(path) => Chain(f, path) && exists j :: 0 <= j < |path| - 1 && path[j] == path[|path| - 1]
    case Undefined(name) => name !in f.raw && exists x :: x in f.raw && Refers(f.raw[x], name)
    case UnsetEnv(name) => name !in f.env && exists x :: x in f.raw && NeedsEnv(f.raw[x], name)
    case TooDeep(name) => exists c :: Chain(f, c) && |c| == 26 && c[25] == name
  }

  /** The names under resolution are a chain, and `name` continues it. */
  ghost predicate Follows(f: Flow, resolving: seq<string>, name: string) {
    Chain(f, resolving) && if resolving == [] then name in f.raw else Refers(f.raw[resolving[|resolving| - 1]], name)
  }

  lemma ChainContinues(f: Flow, resolving: seq<string>, name: string)
    requires Follows(f, resolving, name) && name in f.raw
    ensures Chain(f, resolving + [name])
  {
    hide Refers;
  }

  lemma {:induction false} ResolveOneIsTruthful(f: Flow, memo: Memo, resolving: seq<string>, name: string)
    requires |resolving| <= MAX_DEPTH && Follows(f, resolving, name)
    ensures var out := ResolveOne(f, memo, resolving, name); out.Fail? ==> Real(f, out.error)
    decreases MAX_DEPTH - |resolving|, 0
  {
    hide Interpolate, Refers, NeedsEnv;
    if name in f.raw && name !in memo.values {
      ChainContinues(f, resolving, name);
      if name !in resolving && |resolving| < MAX_DEPTH {
        InterpolateIsTruthful(f, memo, resolving + [name], f.raw[name]);
      } else if name in resolving {
        var j :| 0 <= j < |resolving| && resolving[j] == name;
        assert (resolving + [name])[j] == name;
      } else {
        assert (resolving + [name])[MAX_DEPTH] == name;
      }
    }
  }

  ghost predicate PartOf(pieces: Template, whole: Template) {
    && (forall x :: Refers(pieces, x) ==> Refers(whole, x))
    && (forall x :: NeedsEnv(pieces, x) ==> NeedsEnv(whole, x))
  }

  lemma {:induction false} InterpolateIsTruthful(f: Flow, memo: Memo, resolving: seq<string>, pieces: Template)
    requires 0 < |resolving| <= MAX_DEPTH && Chain(f, resolving) && PartOf(pieces, f.raw[resolving[|resolving| - 1]])
    ensures var out := Interpolate(f, memo, resolving, pieces); out.NoText? ==> Real(f, out.error)
    decreases MAX_DEPTH - |resolving|, 2 * |pieces|
  {
    hide ResolveOne, Chain, Real;
    if pieces != [] {
      var init, last := pieces[..|pieces| - 1], pieces[|pieces| - 1];
      assert PartOf(init, pieces);
      InterpolateIsTruthful(f, memo, resolving, init);
      var before := Interpolate(f, memo, resolving, init);
      if before.Text? {
        if last.Var? {
          assert Refers(pieces, last.name);
          ResolveOneIsTruthful(f, before.memo, resolving, last.name);
        } else if last.Env? {
          assert NeedsEnv(pieces, last.name);
          EnvIsNeeded(f, resolving, last.name);
        }
      }
    }
  }

  lemma EnvIsNeeded(f: Flow, resolving: seq<string>, name: string)
    requires resolving != [] && Chain(f, resolving) && NeedsEnv(f.raw[resolving[|resolving| - 1]], name)
    ensures name !in f.env ==> Real(f, UnsetEnv(name))
  {
    hide NeedsEnv;
  }

  /** Every error is true of the flow file, whatever the visiting order. */
  lemma {:induction false} ErrorsAreTruthful(f: Flow, names: seq<string>)
    requires forall i :: 0 <= i < |names| ==> names[i] in f.raw
    ensures ResolveAll(f, names).Fail? ==> Real(f, ResolveAll(f, names).error)
  {
    hide ResolveOne, Real;
    if names != [] {
      ErrorsAreTruthful(f, names[..|names| - 1]);
      var before := ResolveAll(f, names[..|names| - 1]);
      if before.Ok? {
        ResolveOneIsTruthful(f, before.memo, [], names[|names| - 1]);
      }
    }
  }

  /** Going round a cycle gives chains of every length. */
  lemma CycleIsEndless(f: Flow, path: seq<string>, j: nat, n: nat) returns (c: seq<string>)
    requires Chain(f, path) && j < |path| - 1 && path[j] == path[|path| - 1]
    ensures Chain(f, c) && |c| == n
  {
    hide Refers;
    var m := |path| - 1 - j;
    c := seq(n, i requires 0 <= i < n => path[j + i % m]);
    forall i | 0 < i < n ensures Refers(f.raw[c[i - 1]], c[i]) {
      Around(i, m);
      assert Refers(f.raw[path[j + (i - 1) % m]], path[j + (i - 1) % m + 1]);
    }
  }

  lemma Around(i: nat, m: nat)
    requires i > 0 && m > 0
    ensures i % m == if (i - 1) % m + 1 == m then 0 else (i - 1) % m + 1
  {
    var q, r := (i - 1) / m, (i - 1) % m;
    assert i == q * m + r + 1;
    if r + 1 == m {
      assert i == (q + 1) * m;
      MultipleOf(q + 1, m, 0);
    } else {
      MultipleOf(q, m, r + 1);
    }
  }

  lemma MultipleOf(q: nat, m: nat, r: nat)
    requires r < m
    ensures (q * m + r) % m == r
  {
    var i := q * m + r;
    var d := i / m - q;
    assert d * m == r - i % m;
    Grows(d, m);
  }

  lemma Grows(d: int, m: nat)
    requires m > 0
    ensures d >= 1 ==> d * m >= m
    ensures d <= -1 ==> d * m <= 0 - m
  {
  }

  /**
   A fully defined flow file whose chains have at most 25 names always resolves, in any visiting order.
   There is no premise about cycles: a cycle makes endless chains.
   */
  lemma ShallowFlowsResolve(f: Flow, names: seq<string>)
    requires Enumerates(f, names) && FullyDefined(f)
    requires forall c :: Chain(f, c) ==> |c| <= 25
    ensures ResolveAll(f, names).Ok?
  {
    hide ResolveAll, Refers, NeedsEnv, Chain;
    var out := ResolveAll(f, names);
    ErrorsAreTruthful(f, names);
    if out.Fail? {
      if out.error.Cycle? {
        var path := out.error.path;
        var j :| 0 <= j < |path| - 1 && path[j] == path[|path| - 1];
        var c := CycleIsEndless(f, path, j, MAX_DEPTH + 1);
        assert false;
      }
      assert false;
    }
  }

  // ----- Some visiting order returns exactly when the graph is defined and acyclic -----

  lemma {:induction false} DistinctFit(c: seq<string>, all: set<string>)
    requires NoDuplicates(c) && forall i :: 0 <= i < |c| ==> c[i] in all
    ensures |c| <= |all|
  {
    if c != [] {
      var init, last := c[..|c| - 1], c[|c| - 1];
      assert last !in init;
      DistinctFit(init, all - {last});
    }
  }

  /** A chain of an acyclic graph never comes back. */
  lemma ChainsAreDistinct(f: Flow, c: seq<string>)
    requires Acyclic(f) && Chain(f, c)
    ensures NoDuplicates(c)
  {
    hide Refers;
    forall i, j | 0 <= i < j < |c| ensures c[i] != c[j] {
      var loop := c[i..j + 1];
      assert Chain(f, loop) && loop[0] == c[i] && loop[|loop| - 1] == c[j];
    }
  }

  ghost predicate AllResolved(f: Flow, done: map<string, string>, x: string)
    requires x in f.raw
  {
    forall y :: Refers(f.raw[x], y) ==> y in done
  }

  /** Following unresolved references ends at a name that has none. */
  lemma {:induction false} ReadyName(f: Flow, done: map<string, string>, c: seq<string>) returns (x: string)
    requires FullyDefined(f) && Acyclic(f) && Chain(f, c) && c != [] && c[|c| - 1] !in done
    ensures x in f.raw && x !in done && AllResolved(f, done, x)
    decreases |f.raw.Keys| - |c|
  {
    hide Refers, Acyclic;
    x := c[|c| - 1];
    if !AllResolved(f, done, x) {
      var y :| Refers(f.raw[x], y) && y !in done;
      var longer := c + [y];
      assert Chain(f, longer);
      ChainsAreDistinct(f, longer);
      DistinctFit(longer, f.raw.Keys);
      x := ReadyName(f, done, longer);
    }
  }

  lemma OnePieceMore(f: Flow, memo: Memo, resolving: seq<string>, init: Template, last: Piece)
    requires |resolving| <= MAX_DEPTH
    ensures var before, out := Interpolate(f, memo, resolving, init), Interpolate(f, memo, resolving, init + [last]);
      && (before.NoText? ==> out == before)
      && (before.Text? && last.Lit? ==> out == Text(before.text + last.text, before.memo))
      && (before.Text? && last.Env? && last.name in f.env ==> out == Text(before.text + f.env[last.name], before.memo))
      && (before.Text? && last.Env? && last.name !in f.env ==> out.NoText?)
      && (before.Text? && last.Var? ==>
            var found := ResolveOne(f, before.memo, resolving, last.name);
            if found.Fail? then out.NoText? else out.Text? && out.memo == found.memo)
  {
    assert (init + [last])[..|init|] == init;
  }

  lemma {:induction false} ResolvedPieces(f: Flow, memo: Memo, resolving: seq<string>, pieces: Template)
    requires |resolving| <= MAX_DEPTH && Grounded(f, memo.values, pieces)
    ensures Interpolate(f, memo, resolving, pieces).Text? && Interpolate(f, memo, resolving, pieces).memo == memo
  {
    if pieces != [] {
      var init, last := pieces[..|pieces| - 1], pieces[|pieces| - 1];
      assert forall x :: Refers(init, x) ==> Refers(pieces, x);
      assert forall x :: NeedsEnv(init, x) ==> NeedsEnv(pieces, x);
      ResolvedPieces(f, memo, resolving, init);
      assert last.Var? ==> Refers(pieces, last.name);
      assert last.Env? ==> NeedsEnv(pieces, last.name);
      assert pieces == init + [last];
      OnePieceMore(f, memo, resolving, init, last);
    }
  }

  /** A name whose references are resolved resolves at once. */
  lemma ResolvesAtOnce(f: Flow, memo: Memo, x: string)
    requires FullyDefined(f) && x in f.raw && AllResolved(f, memo.values, x)
    ensures ResolveOne(f, memo, [], x).Ok?
    ensures ResolveOne(f, memo, [], x).memo.values.Keys == memo.values.Keys + {x}
  {
    hide Refers, NeedsEnv, Interpolate;
    ResolvedPieces(f, memo, [] + [x], f.raw[x]);
  }

  /** Names in dependency order, continued to the end. */
  lemma {:induction false} DependencyOrder(f: Flow, names: seq<string>) returns (all: seq<string>)
    requires FullyDefined(f) && Acyclic(f) && ResolveAll(f, names).Ok?
    requires (forall i :: 0 <= i < |names| ==> names[i] in f.raw)
    requires ResolveAll(f, names).memo.values.Keys == set x | x in names
    ensures Enumerates(f, all) && ResolveAll(f, all).Ok?
    decreases |f.raw.Keys - set x | x in names|
  {
    hide FullyDefined, Acyclic, ResolveOne, Refers, ResolveAll;
    var memo := ResolveAll(f, names).memo;
    if forall x :: x in f.raw ==> x in names {
      all := names;
    } else {
      var start :| start in f.raw && start !in names;
      assert Chain(f, [start]);
      var x := ReadyName(f, memo.values, [start]);
      ResolvesAtOnce(f, memo, x);
      OneNameMore(f, names, x);
      all := DependencyOrder(f, names + [x]);
    }
  }

  lemma OneNameMore(f: Flow, names: seq<string>, x: string)
    requires x in f.raw && x !in names
    ensures ResolveAll(f, names).Ok? ==> ResolveAll(f, names + [x]) == ResolveOne(f, ResolveAll(f, names).memo, [], x)
    ensures (set y | y in names + [x]) == (set y | y in names) + {x}
    ensures |f.raw.Keys - set y | y in names + [x]| < |f.raw.Keys - set y | y in names|
  {
    assert (names + [x])[..|names|] == names;
    Shrinks(f.raw.Keys - (set y | y in names + [x]), f.raw.Keys - (set y | y in names), x);
  }

  lemma Shrinks(a: set<string>, b: set<string>, x: string)
    requires a == b - {x} && x in b
    ensures |a| < |b|
  {
  }

  /** Some visiting order returns if and only if the file is defined throughout and acyclic. */
  lemma ResolvableIffDefinedAndAcyclic(f: Flow)
    ensures (exists names :: Enumerates(f, names) && ResolveAll(f, names).Ok?) <==> FullyDefined(f) && Acyclic(f)
  {
    hide FullyDefined, Acyclic, Enumerates;
    if names :| Enumerates(f, names) && ResolveAll(f, names).Ok? {
      ReturnedIsTheSolution(f, names, map[]);
    }
    if FullyDefined(f) && Acyclic(f) {
      var names := DependencyOrder(f, []);
    }
  }

  // ----- Every visiting order returns exactly when chains are short, if templates refer to one name -----

  ghost predicate OneReferenceEach(f: Flow) {
    forall x :: x in f.raw ==> forall y, z :: Refers(f.raw[x], y) && Refers(f.raw[x], z) ==> y == z
  }

  lemma {:induction false} NoReferences(f: Flow, memo: Memo, resolving: seq<string>, pieces: Template)
    requires |resolving| <= MAX_DEPTH && forall i :: 0 <= i < |pieces| ==> !pieces[i].Var?
    ensures var out := Interpolate(f, memo, resolving, pieces); out.Text? ==> out.memo == memo
  {
    if pieces != [] {
      var init, last := pieces[..|pieces| - 1], pieces[|pieces| - 1];
      NoReferences(f, memo, resolving, init);
      assert pieces == init + [last];
      OnePieceMore(f, memo, resolving, init, last);
    }
  }

  /** If the only reference of a template fails from the same memo, so does the template. */
  lemma ReferenceFails(f: Flow, memo: Memo, resolving: seq<string>, t: Template, y: string)
    requires |resolving| <= MAX_DEPTH && Refers(t, y) && forall z :: Refers(t, z) ==> z == y
    requires ResolveOne(f, memo, resolving, y).Fail?
    ensures Interpolate(f, memo, resolving, t).NoText?
  {
    hide ResolveOne;
    var k := FirstReference(t, 0);
    NoReferences(f, memo, resolving, t[..k]);
    assert t[..k + 1] == t[..k] + [Var(y)];
    OnePieceMore(f, memo, resolving, t[..k], Var(y));
    var part := Interpolate(f, memo, resolving, t[..k + 1]);
    assert part.NoText?;
    FailsEarly(f, memo, resolving, t, k + 1, part.error);
  }

  lemma {:induction false} FirstReference(t: Template, n: nat) returns (k: nat)
    requires n <= |t| && (exists i :: n <= i < |t| && t[i].Var?) && forall i :: 0 <= i < n ==> !t[i].Var?
    ensures k < |t| && t[k].Var? && Refers(t, t[k].name) && forall i :: 0 <= i < k ==> !t[i].Var?
    decreases |t| - n
  {
    k := n;
    if !t[n].Var? {
      k := FirstReference(t, n + 1);
    }
  }

  /** From the head of a chain of more than 25 names the search runs into the cap. */
  lemma {:induction false} LongChainFails(f: Flow, c: seq<string>, depth: nat)
    requires OneReferenceEach(f) && Chain(f, c) && |c| == MAX_DEPTH + 1 && depth <= MAX_DEPTH
    ensures ResolveOne(f, Memo([], map[]), c[..depth], c[depth]).Fail?
    decreases MAX_DEPTH - depth
  {
    hide Refers, Interpolate;
    if depth < MAX_DEPTH && c[depth] !in c[..depth] {
      LongChainFails(f, c, depth + 1);
      assert c[..depth] + [c[depth]] == c[..depth + 1];
      assert Refers(f.raw[c[depth + 1 - 1]], c[depth + 1]);
      ReferenceFails(f, Memo([], map[]), c[..depth + 1], f.raw[c[depth]], c[depth + 1]);
    }
  }

  lemma {:induction false} FirstFails(f: Flow, names: seq<string>, n: nat)
    requires 0 < n <= |names| && ResolveOne(f, Memo([], map[]), [], names[0]).Fail?
    ensures ResolveAll(f, names[..n]).Fail?
  {
    assert names[..n][..n - 1] == names[..n - 1];
    if n > 1 {
      FirstFails(f, names, n - 1);
    }
  }

  /** Some listing of the declared names that begins with a given one. */
  lemma {:induction false} Listing(f: Flow, names: seq<string>) returns (all: seq<string>)
    requires forall i :: 0 <= i < |names| ==> names[i] in f.raw
    ensures Enumerates(f, all) && names <= all
    decreases |f.raw.Keys - set x | x in names|
  {
    if forall x :: x in f.raw ==> x in names {
      all := names;
    } else {
      var x :| x in f.raw && x !in names;
      OneNameMore(f, names, x);
      all := Listing(f, names + [x]);
    }
  }

  /** Beyond the cap some visiting order fails. */
  lemma DeepFlowsCanFail(f: Flow, c: seq<string>) returns (names: seq<string>)
    requires OneReferenceEach(f) && Chain(f, c) && |c| > 25
    ensures Enumerates(f, names) && ResolveAll(f, names).Fail?
  {
    hide Refers, Enumerates, ResolveOne;
    var d := c[..MAX_DEPTH + 1];
    assert Chain(f, d);
    LongChainFails(f, d, 0);
    assert d[..0] == [];
    names := Listing(f, [d[0]]);
    assert names[0] == d[0];
    FirstFails(f, names, |names|);
    assert names[..|names|] == names;
  }

  /**
   Where each template refers to at most one name, the cap is exact: every visiting order returns if and
   only if the file is defined throughout and no chain has more than 25 names.
   */
  lemma CapIsExact(f: Flow)
    requires OneReferenceEach(f)
    ensures (forall names :: Enumerates(f, names) ==> ResolveAll(f, names).Ok?)
       <==> FullyDefined(f) && forall c :: Chain(f, c) ==> |c| <= 25
  {
    hide FullyDefined, Enumerates, Chain, OneReferenceEach;
    if FullyDefined(f) && forall c :: Chain(f, c) ==> |c| <= MAX_DEPTH {
      forall names | Enumerates(f, names) ensures ResolveAll(f, names).Ok? {
        ShallowFlowsResolve(f, names);
      }
    }
    if forall names :: Enumerates(f, names) ==> ResolveAll(f, names).Ok? {
      var names := Listing(f, []);
      ReturnedIsTheSolution(f, names, map[]);
      forall c | Chain(f, c) ensures |c| <= MAX_DEPTH {
        if |c| > MAX_DEPTH {
          var bad := DeepFlowsCanFail(f, c);
        }
      }
    }
  }

  /**
   So a defined, acyclic file of one-reference templates with a longer chain resolves in one visiting
   order and fails in another.
   */
  lemma DepthDependsOnOrder(f: Flow, c: seq<string>)
    requires FullyDefined(f) && Acyclic(f) && OneReferenceEach(f) && Chain(f, c) && |c| > 25
    ensures exists names, names' ::
              Enumerates(f, names) && Enumerates(f, names') && ResolveAll(f, names).Ok? && ResolveAll(f, names').Fail?
  {
    hide FullyDefined, Acyclic, Enumerates, Chain, OneReferenceEach;
    ResolvableIffDefinedAndAcyclic(f);
    var names' := DeepFlowsCanFail(f, c);
  }

  // ----- The code: a shared dictionary and a shared stack -----

  class Resolver {
    const flow: Flow
    var order: seq<string>
    var values: map<string, string>
    var resolving: seq<string>

    constructor (flow: Flow)
      ensures this.flow == flow && order == [] && values == map[] && resolving == []
    {
      this.flow := flow;
      order, values, resolving := [], map[], [];
    }

    function Resolved(): Memo
      reads this
    {
      Memo(order, values)
    }

    /** `resolve_one`; the stack is back as it was unless an error ends the search. */
    method Resolve(name: string) returns (value: string, error: Option<FlowError>)
      requires |resolving| <= MAX_DEPTH
      modifies this
      ensures var out := ResolveOne(flow, old(Resolved()), old(resolving), name);
        if error.Some? then out == Fail(error.value)
        else out == Ok(Resolved()) && resolving == old(resolving) && value == values[name]
      decreases MAX_DEPTH - |resolving|, 0
    {
      value, error := "", None;
      if name in values {
        return values[name], None;
      }
      if name in resolving {
        return "", Some(Cycle(resolving + [name]));
      }
      if name !in flow.raw {
        return "", Some(Undefined(name));
      }
      if |resolving| >= MAX_DEPTH {
        return "", Some(TooDeep(name));
      }
      resolving := resolving + [name];
      value, error := Substituted(flow.raw[name]);
      if error.Some? {
        return;
      }
      resolving := resolving[..|resolving| - 1];
      order, values := order + [name], values[name := value];
    }

    /** `_interpolate` with `resolve_one` as the look-up. */
    method Substituted(pieces: Template) returns (text: string, error: Option<FlowError>)
      requires |resolving| <= MAX_DEPTH
      modifies this
      ensures var out := Interpolate(flow, old(Resolved()), old(resolving), pieces);
        if error.Some? then out == NoText(error.value)
        else out == TextOutcome.Text(text, Resolved()) && resolving == old(resolving)
      decreases MAX_DEPTH - |resolving|, 2 * |pieces|, 1
    {
      text, error := "", None;
      for i := 0 to |pieces|
        invariant resolving == old(resolving) && error.None?
        invariant Interpolate(flow, old(Resolved()), old(resolving), pieces[..i]) == TextOutcome.Text(text, Resolved())
      {
        assert pieces[..i + 1][..i] == pieces[..i];
        var piece, more := pieces[i], "";
        match piece {
          case Lit(t) => more := t;
          case Env(name) =>
            if name in flow.env {
              more := flow.env[name];
            } else {
              error := Some(UnsetEnv(name));
            }
          case Var(name) => more, error := Resolve(name);
        }
        if error.Some? {
          FailsEarly(flow, old(Resolved()), old(resolving), pieces, i + 1, error.value);
          return;
        }
        text := text + more;
      }
      assert pieces[..|pieces|] == pieces;
    }
  }

  lemma {:induction false} FailsEarly(f: Flow, memo: Memo, resolving: seq<string>, pieces: Template, n: nat,
                                      e: FlowError)
    requires |resolving| <= MAX_DEPTH && n <= |pieces| && Interpolate(f, memo, resolving, pieces[..n]) == NoText(e)
    ensures Interpolate(f, memo, resolving, pieces) == NoText(e)
    decreases |pieces| - n
  {
    if n == |pieces| {
      assert pieces[..n] == pieces;
    } else {
      assert pieces[..n + 1][..n] == pieces[..n];
      FailsEarly(f, memo, resolving, pieces, n + 1, e);
    }
  }

  /** `_resolve_vars` */
  method ResolveVars(f: Flow, names: seq<string>) returns (values: map<string, string>, error: Option<FlowError>)
    requires Enumerates(f, names)
    ensures error.None? ==> ResolveAll(f, names).Ok? && values == ResolveAll(f, names).memo.values
    ensures error.Some? ==> ResolveAll(f, names) == Fail(error.value)
  {
    var resolver := new Resolver(f);
    for i := 0 to |names|
      invariant resolver.flow == f && resolver.resolving == []
      invariant ResolveAll(f, names[..i]) == Ok(resolver.Resolved())
    {
      assert names[..i + 1][..i] == names[..i];
      var value, failure := resolver.Resolve(names[i]);
      if failure.Some? {
        AllFails(f, names, i + 1, failure.value);
        return map[], failure;
      }
    }
    assert names[..|names|] == names;
    return resolver.values, None;
  }

  lemma {:induction false} AllFails(f: Flow, names: seq<string>, n: nat, e: FlowError)
    requires n <= |names| && ResolveAll(f, names[..n]) == Fail(e)
    ensures ResolveAll(f, names) == Fail(e)
    decreases |names| - n
  {
    if n == |names| {
      assert names[..n] == names;
    } else {
      assert names[..n + 1][..n] == names[..n];
      AllFails(f, names, n + 1, e);
    }
  }
}
