/**
 * The key of a cached function's call: a flat tuple of its parameters, with `*args` spliced into
 * the middle and `**kwargs` as a frozen set of its items. Equality of values is Python's own.
 */
module CacheKeys {
  import opened Calls
  import opened Signatures

  datatype Part = Val(value: Value) | Items(items: set<(Name, Value)>)

  /** A bare parameter, for a function with exactly one, or a tuple. */
  datatype Key = Bare(part: Part) | Tuple(parts: seq<Part>)

  function Vals(values: seq<Value>): seq<Part> {
    seq(|values|, i requires 0 <= i < |values| => Val(values[i]))
  }

  function PartsOf(b: Bound): seq<Part> {
    match b
    case One(value) => [Val(value)]
    case Many(values) => Vals(values)
    case Named(named) => [Items(named.Items)]
  }

  function Flat(b: Binding): seq<Part> {
    if b == [] then [] else PartsOf(b[0]) + Flat(b[1..])
  }

  function KeyOf(b: Binding): Key {
    if |b| == 1 && !b[0].Many? then Bare(PartsOf(b[0])[0]) else Tuple(Flat(b))
  }

  lemma {:induction false} ItemsInjective(a: map<Name, Value>, b: map<Name, Value>)
    requires a.Items == b.Items
    ensures a == b
  {
    forall name | name in a ensures name in b && a[name] == b[name] {
      assert (name, a[name]) in a.Items;
    }
    forall name | name in b ensures name in a {
      assert (name, b[name]) in b.Items;
    }
  }

  lemma {:induction false} ValsInjective(a: seq<Value>, b: seq<Value>)
    requires Vals(a) == Vals(b)
    ensures a == b
  {
    assert |Vals(a)| == |Vals(b)|;
    forall i | 0 <= i < |a| ensures a[i] == b[i] {
      assert Vals(a)[i] == Vals(b)[i];
    }
  }

  /** After `*args` every parameter is one part of the key. */
  lemma {:induction false} FlatLength(params: seq<Param>, b: Binding)
    requires TypedAll(params, b) && forall p <- params :: p.kind != VarPositional
    ensures |Flat(b)| == |b|
  {
    if params != [] {
      assert params[0] in params && Typed(params[0].kind, b[0]);
      FlatLength(params[1..], b[1..]);
    }
  }

  lemma {:induction false} PartsInjective(kind: Kind, a: Bound, b: Bound)
    requires Typed(kind, a) && Typed(kind, b) && PartsOf(a) == PartsOf(b)
    ensures a == b
  {
    match kind
    case VarPositional => ValsInjective(a.values, b.values);
    case VarKeyword =>
      assert PartsOf(a)[0] == PartsOf(b)[0];
      ItemsInjective(a.named, b.named);
    case _ => assert PartsOf(a)[0] == PartsOf(b)[0];
  }

  /** For one signature, where `*args` ends in the flat tuple is known, so nothing is confused. */
  lemma {:induction false} FlatInjective(params: seq<Param>, a: Binding, b: Binding)
    requires IsSignature(params) && TypedAll(params, a) && TypedAll(params, b) && Flat(a) == Flat(b)
    ensures a == b
  {
    if params == [] {
      return;
    }
    TailIsSignature(params);
    var n := |PartsOf(a[0])|;
    if params[0].kind == VarPositional {
      FlatLength(params[1..], a[1..]);
      FlatLength(params[1..], b[1..]);
    }
    assert |PartsOf(b[0])| == n;
    assert Flat(a)[..n] == PartsOf(a[0]) && Flat(b)[..n] == PartsOf(b[0]);
    assert Flat(a)[n..] == Flat(a[1..]) && Flat(b)[n..] == Flat(b[1..]);
    PartsInjective(params[0].kind, a[0], b[0]);
    FlatInjective(params[1..], a[1..], b[1..]);
    assert a == [a[0]] + a[1..] && b == [b[0]] + b[1..];
  }

  /** Two calls have one key exactly when they bind every parameter equally. */
  lemma KeysExactlyBindings(params: seq<Param>, a: Binding, b: Binding)
    requires IsSignature(params) && TypedAll(params, a) && TypedAll(params, b)
    ensures KeyOf(a) == KeyOf(b) <==> a == b
  {
    if KeyOf(a) == KeyOf(b) {
      if |params| == 1 && params[0].kind != VarPositional {
        assert Typed(params[0].kind, a[0]) && Typed(params[0].kind, b[0]);
        assert PartsOf(a[0]) == [PartsOf(a[0])[0]] && PartsOf(b[0]) == [PartsOf(b[0])[0]];
        PartsInjective(params[0].kind, a[0], b[0]);
        assert a == [a[0]] && b == [b[0]];
      } else {
        assert |params| == 1 ==> Typed(params[0].kind, a[0]) && Typed(params[0].kind, b[0]);
        FlatInjective(params, a, b);
      }
    }
  }

  // ----- so a dictionary by key is a memo by binding -----

  datatype Stored = Stored(binding: Binding, result: Value)

  /** The dictionary after values were stored in turn, by key. */
  function Cache(stores: seq<Stored>): map<Key, Value> {
    if stores == [] then map[]
    else Cache(stores[..|stores| - 1])[KeyOf(stores[|stores| - 1].binding) := stores[|stores| - 1].result]
  }

  /** The same by binding. */
  function Memo(stores: seq<Stored>): map<Binding, Value> {
    if stores == [] then map[]
    else Memo(stores[..|stores| - 1])[stores[|stores| - 1].binding := stores[|stores| - 1].result]
  }

  predicate StoresTyped(params: seq<Param>, stores: seq<Stored>) {
    forall i :: 0 <= i < |stores| ==> TypedAll(params, stores[i].binding)
  }

  /** A call hits exactly when its own binding was stored, and gets what was last stored for it. */
  lemma {:induction false} CacheIsMemo(params: seq<Param>, stores: seq<Stored>, b: Binding)
    requires IsSignature(params) && StoresTyped(params, stores) && TypedAll(params, b)
    ensures KeyOf(b) in Cache(stores) <==> b in Memo(stores)
    ensures b in Memo(stores) ==> Cache(stores)[KeyOf(b)] == Memo(stores)[b]
  {
    if stores != [] {
      var last := stores[|stores| - 1];
      CacheIsMemo(params, stores[..|stores| - 1], b);
      KeysExactlyBindings(params, last.binding, b);
    }
  }
}
