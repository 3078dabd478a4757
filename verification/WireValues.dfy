/**
 Field values on their way through the Pass 2 grouping: lists become tuples so that a payload can be a
 dictionary key, and become lists again for the RPC.
 */
module WireValues {
  import opened Basics

  datatype Value =
    | Text(text: string)
    | Number(number: int)
    | List(items: seq<Value>)
    | Tuple(items: seq<Value>)

  /** `_make_hashable` */
  function Hashable(v: Value): Value {
    match v
    case List(items) => Tuple(HashableAll(items))
    case Tuple(items) => Tuple(HashableAll(items))
    case _ => v
  }

  function HashableAll(items: seq<Value>): (r: seq<Value>)
    ensures |r| == |items|
  {
    if items == [] then [] else [Hashable(items[0])] + HashableAll(items[1..])
  }

  predicate IsReplaceCommand(items: seq<Value>) {
    |items| == 3 && items[0] == Number(6) && items[1] == Number(0)
  }

  function Characters(text: string): seq<Value> {
    seq(|text|, i requires 0 <= i < |text| => Text([text[i]]))
  }

  /** `_make_unhashable`; None is the TypeError of iterating over a number. */
  function Unhashable(v: Value): Option<Value> {
    if !v.Tuple? then Some(v)
    else if IsReplaceCommand(v.items) then
      var third := v.items[2];
      if third.Number? then None
      else if third.Text? then Some(List([v.items[0], v.items[1], List(Characters(third.text))]))
      else
        var ids := UnhashableAll(third.items);
        if ids.None? then None else Some(List([v.items[0], v.items[1], List(ids.value)]))
    else
      var items := UnhashableAll(v.items);
      if items.None? then None else Some(List(items.value))
  }

  function UnhashableAll(items: seq<Value>): Option<seq<Value>> {
    if items == [] then Some([])
    else
      var first, rest := Unhashable(items[0]), UnhashableAll(items[1..]);
      if first.None? || rest.None? then None else Some([first.value] + rest.value)
  }

  /** The value as the RPC carries it, where a tuple and a list are the same array. */
  function Wire(v: Value): Value {
    match v
    case List(items) => List(WireAll(items))
    case Tuple(items) => List(WireAll(items))
    case _ => v
  }

  function WireAll(items: seq<Value>): (r: seq<Value>)
    ensures |r| == |items|
  {
    if items == [] then [] else [Wire(items[0])] + WireAll(items[1..])
  }

  /** Wherever a triple starts like a replace command (6, 0, ids), its third part is a list or a tuple. */
  predicate Transportable(v: Value) {
    v.List? || v.Tuple? ==>
      if IsReplaceCommand(v.items) then
        (v.items[2].List? || v.items[2].Tuple?) && TransportableAll(v.items[2].items)
      else TransportableAll(v.items)
  }

  predicate TransportableAll(items: seq<Value>) {
    items == [] || (Transportable(items[0]) && TransportableAll(items[1..]))
  }

  lemma {:induction false} HashableWire(v: Value)
    ensures Wire(Hashable(v)) == Wire(v)
    decreases v, 0
  {
    if v.List? || v.Tuple? {
      HashableWireAll(v.items);
    }
  }

  lemma {:induction false} HashableWireAll(items: seq<Value>)
    ensures WireAll(HashableAll(items)) == WireAll(items)
    decreases items, 1
  {
    if items != [] {
      HashableWire(items[0]);
      HashableWireAll(items[1..]);
      assert HashableAll(items)[1..] == HashableAll(items[1..]);
    }
  }

  lemma {:induction false} HashableAt(items: seq<Value>, i: nat)
    requires i < |items|
    ensures HashableAll(items)[i] == Hashable(items[i]) && WireAll(items)[i] == Wire(items[i])
  {
    if i > 0 {
      HashableAt(items[1..], i - 1);
    }
  }

  lemma CommandShape(items: seq<Value>)
    requires |items| == 3
    ensures HashableAll(items) == [Hashable(items[0]), Hashable(items[1]), Hashable(items[2])]
    ensures WireAll(items) == [Wire(items[0]), Wire(items[1]), Wire(items[2])]
  {
    hide *;
    HashableAt(items, 0);
    HashableAt(items, 1);
    HashableAt(items, 2);
  }

  /**
   The way there and back gives the value as the RPC would have carried it, exactly when every replace
   command inside it has a list or a tuple for its third part.
   */
  lemma {:induction false} HashableRoundTrip(v: Value)
    ensures Unhashable(Hashable(v)) == Some(Wire(v)) <==> Transportable(v)
    decreases v, 0
  {
    if v.List? || v.Tuple? {
      if |v.items| == 3 {
        CommandShape(v.items);
      }
      if IsReplaceCommand(v.items) {
        var third := v.items[2];
        if third.List? || third.Tuple? {
          HashableRoundTripAll(third.items);
        }
      } else {
        HashableRoundTripAll(v.items);
      }
    }
  }

  lemma {:induction false} HashableRoundTripAll(items: seq<Value>)
    ensures UnhashableAll(HashableAll(items)) == Some(WireAll(items)) <==> TransportableAll(items)
    decreases items, 1
  {
    if items != [] {
      HashableRoundTrip(items[0]);
      HashableRoundTripAll(items[1..]);
      var hashed := HashableAll(items);
      assert hashed[1..] == HashableAll(items[1..]) && hashed[0] == Hashable(items[0]);
      var first, rest := Unhashable(hashed[0]), UnhashableAll(hashed[1..]);
      if first.Some? && rest.Some? {
        assert ([first.value] + rest.value)[1..] == rest.value;
        assert WireAll(items)[1..] == WireAll(items[1..]);
        assert ([first.value] + rest.value)[0] == first.value && WireAll(items)[0] == Wire(items[0]);
      }
    }
  }
}
