/**
 * Type-directed construction from decoded values, with the built-in handlers. Types name aliases,
 * which may be recursive; text that stands for a number, an id or a time is parsed by functions
 * that are given, as is the order in which a set is iterated.
 */
module Serde {
  import opened Options

  type Name = string

  /** A float: a number, or an infinity or not a number. */
  datatype Float = Finite(x: real) | NotFinite(id: nat)

  datatype Value =
    | Null
    | Bool(b: bool)
    | Int(n: int)
    | Number(f: Float)
    | Text(s: string)
    | Uuid(u: nat)
    | Time(at: nat)
    | Decimal(d: nat)
    | List(items: seq<Value>)
    | Tuple(items: seq<Value>)
    | Set(elements: set<Value>)
    | FrozenSet(elements: set<Value>)
    | Dict(entries: map<Value, Value>)

  datatype Type =
    | AnyT
    | NoneT
    | BoolT
    | IntT
    | FloatT
    | StrT
    | UuidT
    | TimeT
    | DecimalT
    | BareList
    | BareTuple
    | BareSet
    | BareFrozenSet
    | BareDict
    | ListOf(item: Type)
    | SetOf(item: Type)
    | FrozenSetOf(item: Type)
    | TupleOf(item: Type)
    | FixedTuple(parts: seq<Type>)
    | DictOf(key: Type, value: Type)
    | Union(members: seq<Type>)
    | Alias(name: Name)
    | Unhandled(id: nat)

  type Env = map<Name, Type>

  /** What is outside: parsing, lower-casing, an integer as a float, and iterating a set. */
  datatype Outside = Outside(
    parseInt: string -> Option<int>,
    parseFloat: string -> Option<Float>,
    floatOf: int -> Option<Float>,
    parseUuid: string -> Option<nat>,
    parseTime: string -> Option<nat>,
    parseDecimal: string -> Option<nat>,
    lower: string -> string,
    order: set<Value> -> seq<Value>
  )

  /** A set is iterated over all of it, each element once. */
  ghost predicate Iterates(o: Outside) {
    && (forall s: set<Value>, x: Value :: x in o.order(s) <==> x in s)
    && (forall s: set<Value>, i, j :: 0 <= i < j < |o.order(s)| ==> o.order(s)[i] != o.order(s)[j])
  }

  datatype Error = NotA(t: Type) | WrongLength | Unhashable | DoesNotParse | Ambiguous | NoHandler

  datatype Result = Ok(value: Value) | Err(error: Error)

  // ----- scalars -----

  datatype Numeric = NotNumeric | Whole(n: int) | Floating(f: Float)

  /** An int or a float, or a text that reads as one; a bool is neither. */
  function ToNumber(o: Outside, v: Value): Numeric {
    match v
    case Int(n) => Whole(n)
    case Number(f) => Floating(f)
    case Text(s) =>
      if o.parseInt(s).Some? then Whole(o.parseInt(s).value)
      else if o.parseFloat(s).Some? then Floating(o.parseFloat(s).value)
      else NotNumeric
    case _ => NotNumeric
  }

  function DecodeInt(o: Outside, v: Value): Result {
    match ToNumber(o, v)
    case NotNumeric => Err(NotA(IntT))
    case Whole(n) => Ok(Int(n))
    case Floating(f) => if f.Finite? && f.x.Floor as real == f.x then Ok(Int(f.x.Floor)) else Err(NotA(IntT))
  }

  function DecodeFloat(o: Outside, v: Value): Result {
    match ToNumber(o, v)
    case NotNumeric => Err(NotA(FloatT))
    case Whole(n) => if o.floatOf(n).Some? then Ok(Number(o.floatOf(n).value)) else Err(DoesNotParse)
    case Floating(f) => Ok(Number(f))
  }

  function DecodeBool(o: Outside, v: Value): Result {
    if v.Bool? then Ok(v)
    else if v.Text? && o.lower(v.s) == "true" then Ok(Bool(true))
    else if v.Text? && o.lower(v.s) == "false" then Ok(Bool(false))
    else Err(NotA(BoolT))
  }

  function Parsed(parsed: Option<nat>, make: nat -> Value): Result {
    if parsed.Some? then Ok(make(parsed.value)) else Err(DoesNotParse)
  }

  // ----- collections as handlers see them -----

  /** The elements of a list, tuple, set or frozenset, in order. */
  function Elements(o: Outside, v: Value): Option<seq<Value>> {
    match v
    case List(items) => Some(items)
    case Tuple(items) => Some(items)
    case Set(elements) => Some(o.order(elements))
    case FrozenSet(elements) => Some(o.order(elements))
    case _ => None
  }

  predicate Hashable(v: Value) {
    match v
    case List(_) => false
    case Set(_) => false
    case Dict(_) => false
    case Tuple(items) => forall i :: 0 <= i < |items| ==> Hashable(items[i])
    case _ => true
  }

  function ToSet(items: seq<Value>): set<Value> {
    set x | x in items
  }

  predicate AllHashable(items: seq<Value>) {
    forall i :: 0 <= i < |items| ==> Hashable(items[i])
  }

  function DecodeArray(o: Outside, t: Type, v: Value): Result
    requires t.BareList? || t.BareTuple? || t.BareSet? || t.BareFrozenSet?
  {
    var elements := Elements(o, v);
    if elements.None? then Err(NotA(t))
    else match t
      case BareList => Ok(List(elements.value))
      case BareTuple => Ok(Tuple(elements.value))
      case BareSet =>
        if v.Set? then Ok(v)
        else if AllHashable(elements.value) then Ok(Set(ToSet(elements.value)))
        else Err(Unhashable)
      case BareFrozenSet =>
        if v.FrozenSet? then Ok(v)
        else if AllHashable(elements.value) then Ok(FrozenSet(ToSet(elements.value)))
        else Err(Unhashable)
  }

  /** The handlers registered for types without parts. */
  function Handle(o: Outside, t: Type, v: Value): Option<Result> {
    match t
    case AnyT => Some(Ok(v))
    case NoneT => Some(if v.Null? then Ok(v) else Err(NotA(t)))
    case BoolT => Some(DecodeBool(o, v))
    case IntT => Some(DecodeInt(o, v))
    case FloatT => Some(DecodeFloat(o, v))
    case StrT => Some(if v.Text? then Ok(v) else Err(NotA(t)))
    case UuidT =>
      Some(if v.Uuid? then Ok(v) else if v.Text? then Parsed(o.parseUuid(v.s), (n: nat) => Uuid(n)) else Err(NotA(t)))
    case TimeT =>
      Some(if v.Time? then Ok(v) else if v.Text? then Parsed(o.parseTime(v.s), (n: nat) => Time(n)) else Err(NotA(t)))
    case DecimalT =>
      Some(if v.Decimal? then Ok(v)
           else if v.Text? then Parsed(o.parseDecimal(v.s), (n: nat) => Decimal(n))
           else Err(NotA(t)))
    case BareList => Some(DecodeArray(o, t, v))
    case BareTuple => Some(DecodeArray(o, t, v))
    case BareSet => Some(DecodeArray(o, t, v))
    case BareFrozenSet => Some(DecodeArray(o, t, v))
    case BareDict => Some(if v.Dict? then Ok(v) else Err(NotA(t)))
    case _ => None
  }

  // ----- aliases -----

  /** The types of a union that are not `None`. */
  function NotNone(members: seq<Type>): (r: seq<Type>)
    ensures forall t <- r :: t in members && t != NoneT
  {
    if members == [] then []
    else NotNone(members[..|members| - 1]) + if members[|members| - 1] == NoneT then [] else [members[|members| - 1]]
  }

  /** The alias, if any, that constructing a type from a value that is not `None` comes to unfold. */
  function Exposes(t: Type): Option<Name> {
    match t
    case Alias(name) => Some(name)
    case Union(members) =>
      if |NotNone(members)| == 1 then assert NotNone(members)[0] in members; Exposes(NotNone(members)[0]) else None
    case _ => None
  }

  /** The alias that unfolding an alias comes to unfold next. */
  function Next(env: Env, name: Name): Option<Name> {
    if name !in env then None
    else
      var next := Exposes(env[name]);
      if next.Some? && next.value in env then next else None
  }

  function Follow(env: Env, name: Name, n: nat): Option<Name>
    decreases n
  {
    if n == 0 then Some(name)
    else
      var before := Follow(env, name, n - 1);
      if before.None? then None else Next(env, before.value)
  }

  /** Every cycle of aliases passes through a container: no alias is unfolded to itself without one. */
  ghost predicate Acyclic(env: Env) {
    forall name: Name, n: nat :: n > 0 ==> Follow(env, name, n) != Some(name)
  }

  lemma {:induction false} FollowTwice(env: Env, name: Name, m: nat, n: nat)
    requires Follow(env, name, m).Some?
    ensures Follow(env, name, m + n) == Follow(env, Follow(env, name, m).value, n)
    decreases n
  {
    if n > 0 {
      FollowTwice(env, name, m, n - 1);
      assert m + n - 1 == m + (n - 1);
    }
  }

  lemma {:induction false} FollowedBefore(env: Env, name: Name, i: nat, n: nat)
    requires i <= n && Follow(env, name, n).Some? && name in env
    ensures Follow(env, name, i).Some? && Follow(env, name, i).value in env
    decreases n
  {
    if i < n {
      FollowedBefore(env, name, i, n - 1);
    }
  }

  /** The aliases met in the first `n` unfoldings. */
  ghost function Met(env: Env, name: Name, n: nat): set<Name> {
    set i: nat | i <= n && Follow(env, name, i).Some? :: Follow(env, name, i).value
  }

  lemma {:induction false} AllMet(env: Env, name: Name, n: nat)
    requires Acyclic(env) && name in env && Follow(env, name, n).Some?
    ensures |Met(env, name, n)| == n + 1 && Met(env, name, n) <= env.Keys
    decreases n
  {
    var last := Follow(env, name, n).value;
    forall i: nat | i <= n ensures Follow(env, name, i).Some? && Follow(env, name, i).value in env {
      FollowedBefore(env, name, i, n);
    }
    if n == 0 {
      assert Met(env, name, n) == {last};
    } else {
      AllMet(env, name, n - 1);
      forall i: nat | i < n ensures Follow(env, name, i) != Some(last) {
        if Follow(env, name, i) == Some(last) {
          FollowTwice(env, name, i, n - i);
        }
      }
      assert Met(env, name, n) == Met(env, name, n - 1) + {last};
    }
  }

  lemma NoMoreThan(some: set<Name>, all: set<Name>)
    requires some <= all
    ensures |some| <= |all|
  {
    assert all == some + (all - some);
  }

  /** An environment is finite, so without a cycle every alias soon unfolds to something else. */
  lemma {:induction false} FollowEnds(env: Env, name: Name)
    requires Acyclic(env) && name in env
    ensures Follow(env, name, |env|).None?
  {
    if Follow(env, name, |env|).Some? {
      AllMet(env, name, |env|);
      NoMoreThan(Met(env, name, |env|), env.Keys);
    }
  }

  /** How many aliases are unfolded after this one, if no more than `left`. */
  function Length(env: Env, name: Name, left: nat): nat
    decreases left
  {
    if left == 0 || Next(env, name).None? then 0 else 1 + Length(env, Next(env, name).value, left - 1)
  }

  lemma {:induction false} LengthIsEnough(env: Env, name: Name, left: nat)
    requires Follow(env, name, left).None?
    ensures Length(env, name, left) == Length(env, name, left + 1)
    decreases left
  {
    if left > 0 && Next(env, name).Some? {
      FollowTwice(env, name, 1, left - 1);
      LengthIsEnough(env, Next(env, name).value, left - 1);
    }
  }

  /** A bound on how often a type unfolds before the value is looked into. */
  function RankOf(env: Env, t: Type): nat {
    match t
    case Alias(name) => if name in env then Length(env, name, |env|) + 1 else 0
    case Union(members) =>
      if |NotNone(members)| == 1 then assert NotNone(members)[0] in members; RankOf(env, NotNone(members)[0]) else 0
    case _ => 0
  }

  lemma {:induction false} RankOfExposed(env: Env, t: Type)
    ensures RankOf(env, t) == if Exposes(t).Some? then RankOf(env, Alias(Exposes(t).value)) else 0
  {
    if t.Union? && |NotNone(t.members)| == 1 {
      assert NotNone(t.members)[0] in t.members;
      RankOfExposed(env, NotNone(t.members)[0]);
    }
  }

  /** Unfolding an alias leaves a type of lower rank. */
  lemma {:induction false} UnfoldingLowersRank(env: Env, name: Name)
    requires Acyclic(env) && name in env
    ensures RankOf(env, env[name]) < RankOf(env, Alias(name))
  {
    RankOfExposed(env, env[name]);
    if Next(env, name).Some? {
      FollowEnds(env, name);
      assert Follow(env, name, 1) == Next(env, name);
      FollowTwice(env, name, 1, |env| - 1);
      LengthIsEnough(env, Next(env, name).value, |env| - 1);
    }
  }

  /** Constructing a union's one member unfolds no more than the union does. */
  lemma MemberIsSmaller(env: Env, t: Type)
    requires t.Union? && |NotNone(t.members)| == 1
    ensures RankOf(env, NotNone(t.members)[0]) == RankOf(env, t) && (t decreases to NotNone(t.members)[0])
  {
    assert NotNone(t.members)[0] in t.members;
  }

  // ----- gathering results -----

  datatype Many = All(values: seq<Value>) | Failed(error: Error)
  datatype Entries = Entries(entries: map<Value, Value>) | EntryFailed(error: Error)

  /** The values of the first `n` results, or the first error. */
  function Gather(results: seq<Result>, n: nat): Many
    requires n <= |results|
  {
    if n == 0 then All([])
    else
      var front := Gather(results, n - 1);
      if front.Failed? then front
      else if results[n - 1].Err? then Failed(results[n - 1].error)
      else All(front.values + [results[n - 1].value])
  }

  /** A dict of the first `n` entries, or the first error: a key made twice keeps its last value. */
  function GatherEntries(keys: seq<Result>, items: seq<Result>, n: nat): Entries
    requires n <= |keys| == |items|
  {
    if n == 0 then Entries(map[])
    else
      var front := GatherEntries(keys, items, n - 1);
      if front.EntryFailed? then front
      else if keys[n - 1].Err? then EntryFailed(keys[n - 1].error)
      else if items[n - 1].Err? then EntryFailed(items[n - 1].error)
      else if !Hashable(keys[n - 1].value) then EntryFailed(Unhashable)
      else Entries(front.entries[keys[n - 1].value := items[n - 1].value])
  }

  /** Gather constructed items in a target's own collection. */
  function Collect(t: Type, values: seq<Value>): Result
    requires t.ListOf? || t.TupleOf? || t.SetOf? || t.FrozenSetOf?
  {
    match t
    case ListOf(_) => Ok(List(values))
    case TupleOf(_) => Ok(Tuple(values))
    case SetOf(_) => if AllHashable(values) then Ok(Set(ToSet(values))) else Err(Unhashable)
    case FrozenSetOf(_) => if AllHashable(values) then Ok(FrozenSet(ToSet(values))) else Err(Unhashable)
  }

  lemma {:induction false} GatherMeans(results: seq<Result>, n: nat)
    requires n <= |results|
    ensures Gather(results, n).All? ==>
              && |Gather(results, n).values| == n
              && forall i :: 0 <= i < n ==> results[i] == Ok(Gather(results, n).values[i])
    ensures Gather(results, n).All? <==> forall i :: 0 <= i < n ==> results[i].Ok?
  {
    if n > 0 {
      GatherMeans(results, n - 1);
    }
  }

  lemma {:induction false} GatherAll(results: seq<Result>, values: seq<Value>)
    requires |results| == |values| && forall i :: 0 <= i < |values| ==> results[i] == Ok(values[i])
    ensures Gather(results, |results|) == All(values)
  {
    GatherMeans(results, |results|);
    assert Gather(results, |results|).values == values;
  }

  /** The last entry that makes a key is where its value is from. */
  lemma {:induction false} EntryMeans(keys: seq<Result>, items: seq<Result>, n: nat, k: Value) returns (i: nat)
    requires n <= |keys| == |items|
    requires GatherEntries(keys, items, n).Entries? && k in GatherEntries(keys, items, n).entries
    ensures i < n && keys[i] == Ok(k) && items[i] == Ok(GatherEntries(keys, items, n).entries[k]) && Hashable(k)
    ensures forall j :: i < j < n ==> keys[j] != Ok(k)
    decreases n
  {
    if keys[n - 1] == Ok(k) {
      i := n - 1;
    } else {
      i := EntryMeans(keys, items, n - 1, k);
    }
  }

  /** Every entry is gathered, and the last one that makes a key gives its value. */
  lemma {:induction false} EntryIsMade(keys: seq<Result>, items: seq<Result>, n: nat, i: nat)
    requires i < n <= |keys| == |items| && GatherEntries(keys, items, n).Entries?
    ensures keys[i].Ok? && items[i].Ok? && keys[i].value in GatherEntries(keys, items, n).entries
    ensures (forall j :: i < j < n ==> keys[j] != keys[i]) ==>
              GatherEntries(keys, items, n).entries[keys[i].value] == items[i].value
    decreases n
  {
    if i < n - 1 {
      EntryIsMade(keys, items, n - 1, i);
    }
  }

  /** Gathering a dict's own entries, in any order, gives the dict. */
  lemma {:induction false} GatherOwn(
    m: map<Value, Value>, order: seq<Value>, keys: seq<Result>, items: seq<Result>, n: nat
  )
    requires n <= |order| == |keys| == |items|
    requires forall i :: 0 <= i < |order| ==> order[i] in m && Hashable(order[i])
    requires forall i :: 0 <= i < |order| ==> keys[i] == Ok(order[i]) && items[i] == Ok(m[order[i]])
    ensures var made := GatherEntries(keys, items, n);
            made.Entries? && (forall i :: 0 <= i < n ==> order[i] in made.entries)
            && (forall k <- made.entries :: k in m && made.entries[k] == m[k])
  {
    if n > 0 {
      GatherOwn(m, order, keys, items, n - 1);
    }
  }

  // ----- construction -----

  /** What is fixed while a value is constructed: the outside, and the aliases. */
  datatype World = World(o: Outside, env: Env)

  ghost predicate Sane(w: World) {
    Acyclic(w.env) && Iterates(w.o)
  }

  /** Construct a type from a decoded value. */
  ghost function Construct(w: World, t: Type, v: Value): Result
    requires Sane(w)
    decreases v, 1, RankOf(w.env, t), t, 1
  {
    if Handle(w.o, t, v).Some? then Handle(w.o, t, v).value
    else if t.Alias? then
      if t.name !in w.env then Err(NoHandler)
      else
        UnfoldingLowersRank(w.env, t.name);
        Construct(w, w.env[t.name], v)
    else if t.Union? then ConstructUnion(w, t, v)
    else if t.Unhandled? then Err(NoHandler)
    else if t.DictOf? then
      if !v.Dict? then Err(NotA(t))
      else
        var made := GatherEntries(KeyResults(w, t.key, v), ItemResults(w, t.value, v), |KeysOf(w, v)|);
        if made.EntryFailed? then Err(made.error) else Ok(Dict(made.entries))
    else if Elements(w.o, v).None? then Err(NotA(t))
    else if t.FixedTuple? then
      if |Elements(w.o, v).value| != |t.parts| then Err(WrongLength)
      else
        var made := Gather(PartResults(w, t.parts, v), |t.parts|);
        if made.Failed? then Err(made.error) else Ok(Tuple(made.values))
    else
      var made := Gather(ElementResults(w, t.item, v), |Elements(w.o, v).value|);
      if made.Failed? then Err(made.error) else Collect(t, made.values)
  }

  /** Construct a union's one member that is not `None`; `None` is let through whatever the union is. */
  ghost function ConstructUnion(w: World, t: Type, v: Value): Result
    requires Sane(w) && t.Union?
    decreases v, 1, RankOf(w.env, t), t, 0
  {
    if v.Null? then Ok(Null)
    else if |NotNone(t.members)| != 1 then Err(Ambiguous)
    else
      var member := NotNone(t.members)[0];
      MemberIsSmaller(w.env, t);
      Construct(w, member, v)
  }

  /** The elements of a collection, each constructed as one type. */
  ghost function ElementResults(w: World, t: Type, v: Value): seq<Result>
    requires Sane(w) && Elements(w.o, v).Some?
    decreases v, 0
  {
    var elements := Elements(w.o, v).value;
    seq(|elements|, i requires 0 <= i < |elements| => (ElementIsSmaller(w.o, v, i); Construct(w, t, elements[i])))
  }

  /** The elements of a collection, each constructed as its own part of a fixed tuple. */
  ghost function PartResults(w: World, parts: seq<Type>, v: Value): seq<Result>
    requires Sane(w) && Elements(w.o, v).Some? && |Elements(w.o, v).value| == |parts|
    decreases v, 0
  {
    var elements := Elements(w.o, v).value;
    seq(|elements|, i requires 0 <= i < |elements| =>
      (ElementIsSmaller(w.o, v, i); Construct(w, parts[i], elements[i])))
  }

  function KeysOf(w: World, v: Value): seq<Value>
    requires v.Dict?
  {
    w.o.order(v.entries.Keys)
  }

  ghost function KeyResults(w: World, t: Type, v: Value): seq<Result>
    requires Sane(w) && v.Dict?
    decreases v, 0
  {
    var keys := KeysOf(w, v);
    seq(|keys|, i requires 0 <= i < |keys| => (KeyIsSmaller(w, v, i); Construct(w, t, keys[i])))
  }

  ghost function ItemResults(w: World, t: Type, v: Value): seq<Result>
    requires Sane(w) && v.Dict?
    decreases v, 0
  {
    var keys := KeysOf(w, v);
    seq(|keys|, i requires 0 <= i < |keys| => (KeyIsSmaller(w, v, i); Construct(w, t, v.entries[keys[i]])))
  }

  lemma {:induction false} ElementIsSmaller(o: Outside, v: Value, i: nat)
    requires Iterates(o) && Elements(o, v).Some? && i < |Elements(o, v).value|
    ensures v decreases to Elements(o, v).value[i]
  {
    var x := Elements(o, v).value[i];
    match v
    case List(items) => assert items[i] == x;
    case Tuple(items) => assert items[i] == x;
    case Set(elements) => assert x in elements;
    case FrozenSet(elements) => assert x in elements;
  }

  lemma {:induction false} KeyIsSmaller(w: World, v: Value, i: nat)
    requires Sane(w) && v.Dict? && i < |KeysOf(w, v)|
    ensures var key := KeysOf(w, v)[i];
            key in v.entries && (v decreases to key) && (v decreases to v.entries[key])
  {
    assert KeysOf(w, v)[i] in v.entries.Keys;
  }

  // ----- why it ends -----

  /** What constructing a type from a value that is not `None` constructs instead, the value untouched. */
  function Unfold(env: Env, t: Type): Option<Type> {
    if t.Alias? && t.name in env then Some(env[t.name])
    else if t.Union? && |NotNone(t.members)| == 1 then Some(NotNone(t.members)[0])
    else None
  }

  function UnfoldTimes(env: Env, t: Type, n: nat): Option<Type>
    decreases n
  {
    if n == 0 then Some(t)
    else if Unfold(env, t).None? then None
    else UnfoldTimes(env, Unfold(env, t).value, n - 1)
  }

  lemma {:induction false} ConstructsUnfolded(w: World, t: Type, v: Value)
    requires Sane(w) && !v.Null? && Unfold(w.env, t).Some?
    ensures Construct(w, t, v) == Construct(w, Unfold(w.env, t).value, v)
  {
  }

  /** If every cycle of aliases passes through a container, unfolding always comes to an end. */
  lemma {:induction false} UnfoldingEnds(env: Env, t: Type) returns (n: nat, last: Type)
    requires Acyclic(env)
    ensures UnfoldTimes(env, t, n) == Some(last) && Unfold(env, last).None?
    decreases RankOf(env, t), t
  {
    n, last := 0, t;
    if t.Alias? && t.name in env {
      UnfoldingLowersRank(env, t.name);
      n, last := UnfoldingEnds(env, env[t.name]);
      n := n + 1;
    } else if t.Union? && |NotNone(t.members)| == 1 {
      MemberIsSmaller(env, t);
      n, last := UnfoldingEnds(env, NotNone(t.members)[0]);
      n := n + 1;
    }
  }

  /** So a value that is not `None` is constructed as the type that is left, which looks into the value. */
  lemma {:induction false} ConstructsWhatIsLeft(w: World, t: Type, v: Value, n: nat)
    requires Sane(w) && !v.Null? && UnfoldTimes(w.env, t, n).Some?
    ensures Construct(w, t, v) == Construct(w, UnfoldTimes(w.env, t, n).value, v)
    decreases n
  {
    if n > 0 {
      ConstructsUnfolded(w, t, v);
      ConstructsWhatIsLeft(w, Unfold(w.env, t).value, v, n - 1);
    }
  }

  lemma {:induction false} UnfoldTwice(env: Env, t: Type, m: nat, n: nat)
    ensures UnfoldTimes(env, t, m + n) ==
            if UnfoldTimes(env, t, m).None? then None else UnfoldTimes(env, UnfoldTimes(env, t, m).value, n)
    decreases m
  {
    if m > 0 && Unfold(env, t).Some? {
      UnfoldTwice(env, Unfold(env, t).value, m - 1, n);
    }
  }

  /** If a type unfolds to itself with no container between, it never does: constructing it would not end. */
  lemma {:induction false} UnfoldingLoops(env: Env, t: Type, k: nat, n: nat)
    requires k > 0 && UnfoldTimes(env, t, k) == Some(t)
    ensures UnfoldTimes(env, t, n).Some?
    decreases n
  {
    if n > k {
      UnfoldTwice(env, t, k, n - k);
      UnfoldingLoops(env, t, k, n - k);
    } else {
      UnfoldTwice(env, t, n, k - n);
    }
  }

  /** Unfolding an alias often enough comes to the next one. */
  lemma {:induction false} UnfoldsToExposed(env: Env, t: Type) returns (n: nat)
    requires Exposes(t).Some?
    ensures UnfoldTimes(env, t, n) == Some(Alias(Exposes(t).value))
    decreases t
  {
    n := 0;
    if t.Union? {
      MemberIsSmaller(env, t);
      n := UnfoldsToExposed(env, NotNone(t.members)[0]);
      n := n + 1;
    }
  }

  lemma {:induction false} UnfoldsAsFollowed(env: Env, name: Name, k: nat) returns (n: nat)
    requires name in env && Follow(env, name, k).Some?
    ensures n >= k && UnfoldTimes(env, Alias(name), n) == Some(Alias(Follow(env, name, k).value))
    decreases k
  {
    n := 0;
    if k > 0 {
      FollowedBefore(env, name, k - 1, k);
      var before := Follow(env, name, k - 1).value;
      var m := UnfoldsAsFollowed(env, name, k - 1);
      var more := UnfoldsToExposed(env, env[before]);
      assert UnfoldTimes(env, Alias(before), 1 + more) == UnfoldTimes(env, env[before], more);
      UnfoldTwice(env, Alias(name), m, 1 + more);
      n := m + (1 + more);
    }
  }

  ghost predicate Ends(env: Env, t: Type) {
    exists n: nat :: UnfoldTimes(env, t, n).None?
  }

  /** Unfolding ends, whatever the type, exactly when every cycle of aliases passes through a container. */
  lemma EndsExactlyWhenAcyclic(env: Env)
    ensures Acyclic(env) <==> forall t :: Ends(env, t)
  {
    if Acyclic(env) {
      forall t ensures Ends(env, t) {
        var n, last := UnfoldingEnds(env, t);
        UnfoldTwice(env, t, n, 1);
        assert UnfoldTimes(env, last, 1).None?;
      }
    } else {
      var name: Name, k: nat :| k > 0 && Follow(env, name, k) == Some(name);
      CycleNeverEnds(env, name, k);
    }
  }

  lemma CycleNeverEnds(env: Env, name: Name, k: nat)
    requires k > 0 && Follow(env, name, k) == Some(name)
    ensures !Ends(env, Alias(name))
  {
    assert Follow(env, name, k - 1).Some?;
    if k == 1 {
      assert Follow(env, name, 0) == Some(name);
    }
    var m := UnfoldsAsFollowed(env, name, k);
    forall n: nat ensures UnfoldTimes(env, Alias(name), n).Some? {
      UnfoldingLoops(env, Alias(name), m, n);
    }
  }

  // ----- constructing again -----

  lemma {:induction false} HandleIdempotent(o: Outside, t: Type, v: Value)
    requires Handle(o, t, v).Some? && Handle(o, t, v).value.Ok?
    ensures Handle(o, t, Handle(o, t, v).value.value) == Some(Ok(Handle(o, t, v).value.value))
  {
  }

  lemma {:induction false} HandlesByType(o: Outside, t: Type, v: Value, u: Value)
    ensures Handle(o, t, v).Some? <==> Handle(o, t, u).Some?
  {
  }

  /** Constructing a type from what was constructed as it gives it back unchanged. */
  lemma {:induction false} ConstructIsIdempotent(w: World, t: Type, v: Value)
    requires Sane(w) && Construct(w, t, v).Ok?
    ensures var r := Construct(w, t, v).value; Construct(w, t, r) == Ok(r)
    decreases v, 1, RankOf(w.env, t), t
  {
    HandlesByType(w.o, t, v, Construct(w, t, v).value);
    if Handle(w.o, t, v).Some? {
      HandleIdempotent(w.o, t, v);
    } else if t.Alias? {
      UnfoldingLowersRank(w.env, t.name);
      ConstructIsIdempotent(w, w.env[t.name], v);
    } else if t.Union? {
      if !v.Null? {
        MemberIsSmaller(w.env, t);
        ConstructIsIdempotent(w, NotNone(t.members)[0], v);
      }
    } else if t.FixedTuple? {
      PartsIdempotent(w, t, v);
    } else if t.DictOf? {
      EntriesIdempotent(w, t, v);
    } else {
      ItemsIdempotent(w, t, v);
    }
  }

  lemma {:induction false} PartsIdempotent(w: World, t: Type, v: Value)
    requires Sane(w) && t.FixedTuple? && Construct(w, t, v).Ok?
    ensures var r := Construct(w, t, v).value; Construct(w, t, r) == Ok(r)
    decreases v, 0
  {
    var results := PartResults(w, t.parts, v);
    GatherMeans(results, |results|);
    var values := Gather(results, |results|).values;
    var again := PartResults(w, t.parts, Tuple(values));
    forall i | 0 <= i < |values| ensures again[i] == Ok(values[i]) {
      ElementIsSmaller(w.o, v, i);
      ConstructIsIdempotent(w, t.parts[i], Elements(w.o, v).value[i]);
    }
    GatherAll(again, values);
  }

  predicate IsItems(t: Type) {
    t.ListOf? || t.TupleOf? || t.SetOf? || t.FrozenSetOf?
  }

  lemma {:induction false} ItemsIdempotent(w: World, t: Type, v: Value)
    requires Sane(w) && IsItems(t) && Construct(w, t, v).Ok?
    ensures var r := Construct(w, t, v).value; Construct(w, t, r) == Ok(r)
    decreases v, 0
  {
    var results := ElementResults(w, t.item, v);
    GatherMeans(results, |results|);
    var values := Gather(results, |results|).values;
    forall x | x in values ensures Construct(w, t.item, x) == Ok(x) {
      var i :| 0 <= i < |values| && values[i] == x;
      ElementIsSmaller(w.o, v, i);
      ConstructIsIdempotent(w, t.item, Elements(w.o, v).value[i]);
    }
    CollectAgain(w, t, values);
  }

  /** Items that are constructed as themselves are collected as themselves. */
  lemma {:induction false} CollectAgain(w: World, t: Type, values: seq<Value>)
    requires Sane(w) && IsItems(t) && Collect(t, values).Ok? && forall x <- values :: Construct(w, t.item, x) == Ok(x)
    ensures var r := Collect(t, values).value; Construct(w, t, r) == Ok(r)
  {
    var r := Collect(t, values).value;
    CollectedElements(w.o, t, values);
    var again := Elements(w.o, r).value;
    var results := ElementResults(w, t.item, r);
    forall i | 0 <= i < |again| ensures results[i] == Ok(again[i]) {
      assert again[i] in again;
    }
    GatherAll(results, again);
    ConstructsCollection(w, t, r, again);
  }

  lemma {:induction false} ConstructsCollection(w: World, t: Type, v: Value, values: seq<Value>)
    requires Sane(w) && IsItems(t) && Elements(w.o, v).Some?
    requires Gather(ElementResults(w, t.item, v), |Elements(w.o, v).value|) == All(values)
    ensures Construct(w, t, v) == Collect(t, values)
  {
  }

  /** What a collection holds is collected as that collection again. */
  lemma {:induction false} CollectedElements(o: Outside, t: Type, values: seq<Value>)
    requires Iterates(o) && IsItems(t) && Collect(t, values).Ok?
    ensures var r := Collect(t, values).value;
            && Elements(o, r).Some? && Collect(t, Elements(o, r).value) == Ok(r)
            && (forall x :: x in Elements(o, r).value <==> x in values)
  {
    var r := Collect(t, values).value;
    var again := Elements(o, r).value;
    if t.SetOf? || t.FrozenSetOf? {
      assert ToSet(again) == r.elements;
      forall i | 0 <= i < |again| ensures Hashable(again[i]) {
        assert again[i] in r.elements;
      }
    }
  }

  lemma {:induction false} EntriesIdempotent(w: World, t: Type, v: Value)
    requires Sane(w) && t.DictOf? && Construct(w, t, v).Ok?
    ensures var r := Construct(w, t, v).value; Construct(w, t, r) == Ok(r)
    decreases v, 0
  {
    var keys, items := KeyResults(w, t.key, v), ItemResults(w, t.value, v);
    var made := GatherEntries(keys, items, |keys|).entries;
    forall k | k in made ensures IsFixed(w, t, k, made[k]) {
      var i := EntryMeans(keys, items, |keys|, k);
      KeyIsSmaller(w, v, i);
      ConstructIsIdempotent(w, t.key, KeysOf(w, v)[i]);
      ConstructIsIdempotent(w, t.value, v.entries[KeysOf(w, v)[i]]);
    }
    FixedAgain(w, t, made);
  }

  /** Whether an entry of a dict is constructed as itself. */
  ghost predicate IsFixed(w: World, t: Type, k: Value, item: Value)
    requires Sane(w) && t.DictOf?
  {
    Construct(w, t.key, k) == Ok(k) && Construct(w, t.value, item) == Ok(item) && Hashable(k)
  }

  lemma {:induction false} FixedAgain(w: World, t: Type, made: map<Value, Value>)
    requires Sane(w) && t.DictOf? && forall k <- made :: IsFixed(w, t, k, made[k])
    ensures Construct(w, t, Dict(made)) == Ok(Dict(made))
  {
    var v := Dict(made);
    var order := KeysOf(w, v);
    var keys, items := KeyResults(w, t.key, v), ItemResults(w, t.value, v);
    forall i | 0 <= i < |order|
      ensures order[i] in made && Hashable(order[i]) && keys[i] == Ok(order[i]) && items[i] == Ok(made[order[i]])
    {
      KeyIsSmaller(w, v, i);
      assert IsFixed(w, t, order[i], made[order[i]]);
    }
    GatherOwn(made, order, keys, items, |order|);
    var again := GatherEntries(keys, items, |order|).entries;
    forall k | k in made ensures k in again {
      assert k in made.Keys && k in order;
    }
    assert again == made;
  }

  // ----- what constructed values are -----

  /** Whether a value is of a type that a handler is registered for. */
  predicate IsOfHandled(t: Type, v: Value) {
    match t
    case AnyT => true
    case NoneT => v.Null?
    case BoolT => v.Bool?
    case IntT => v.Int?
    case FloatT => v.Number?
    case StrT => v.Text?
    case UuidT => v.Uuid?
    case TimeT => v.Time?
    case DecimalT => v.Decimal?
    case BareList => v.List?
    case BareTuple => v.Tuple?
    case BareSet => v.Set?
    case BareFrozenSet => v.FrozenSet?
    case BareDict => v.Dict?
    case _ => false
  }

  /** Whether a value is the kind of collection that a type asks for. */
  predicate IsCollection(t: Type, v: Value) {
    (t.ListOf? && v.List?) || (t.TupleOf? && v.Tuple?) || (t.SetOf? && v.Set?) || (t.FrozenSetOf? && v.FrozenSet?)
  }

  /** Whether a value is of a type, shown by unfolding it at most `n` times before looking into the value. */
  ghost predicate IsShown(w: World, t: Type, v: Value, n: nat)
    requires Sane(w)
    decreases v, 0, n
  {
    if Handle(w.o, t, v).Some? then IsOfHandled(t, v)
    else if t.Alias? then n > 0 && t.name in w.env && IsShown(w, w.env[t.name], v, n - 1)
    else if t.Union? then n > 0 && exists i :: 0 <= i < |t.members| && IsShown(w, t.members[i], v, n - 1)
    else if t.Unhandled? then false
    else if t.DictOf? then
      v.Dict? && forall k <- v.entries :: IsOf(w, t.key, k) && IsOf(w, t.value, v.entries[k])
    else if t.FixedTuple? then
      v.Tuple? && |v.items| == |t.parts| && forall i | 0 <= i < |t.parts| :: IsOf(w, t.parts[i], v.items[i])
    else
      IsCollection(t, v)
      && forall i | 0 <= i < |Elements(w.o, v).value| ::
        (ElementIsSmaller(w.o, v, i); IsOf(w, t.item, Elements(w.o, v).value[i]))
  }

  /** Whether a value is of a type. */
  ghost predicate IsOf(w: World, t: Type, v: Value)
    requires Sane(w)
    decreases v, 1, 0
  {
    exists n: nat :: IsShown(w, t, v, n)
  }

  lemma ShownIn(w: World, t: Type, v: Value) returns (n: nat)
    requires Sane(w) && IsOf(w, t, v)
    ensures IsShown(w, t, v, n)
  {
    n :| IsShown(w, t, v, n);
  }

  lemma IsOfAlias(w: World, t: Type, v: Value)
    requires Sane(w) && t.Alias?
    ensures IsOf(w, t, v) <==> t.name in w.env && IsOf(w, w.env[t.name], v)
  {
    if IsOf(w, t, v) {
      var n := ShownIn(w, t, v);
      assert IsShown(w, w.env[t.name], v, n - 1);
    }
    if t.name in w.env && IsOf(w, w.env[t.name], v) {
      var n := ShownIn(w, w.env[t.name], v);
      assert IsShown(w, t, v, n + 1);
    }
  }

  /** Of what is neither an alias nor a union, one look tells. */
  lemma IsOfAtOnce(w: World, t: Type, v: Value)
    requires Sane(w) && !t.Alias? && !t.Union?
    ensures IsOf(w, t, v) <==> IsShown(w, t, v, 0)
  {
  }

  /** Whether no later entry of a dict makes the same key. */
  ghost predicate IsLast(w: World, t: Type, v: Value, i: nat)
    requires Sane(w) && v.Dict? && i < |KeysOf(w, v)|
  {
    forall j :: i < j < |KeysOf(w, v)| ==> KeyResults(w, t, v)[j] != KeyResults(w, t, v)[i]
  }

  /**
   * Whether `None` stands, in a value, where a union that has no place for it is to be constructed,
   * and is kept: the value of an entry whose key is made again is not.
   */
  ghost predicate MeetsNone(w: World, t: Type, v: Value)
    requires Sane(w)
    decreases v, RankOf(w.env, t), t
  {
    if Handle(w.o, t, v).Some? then false
    else if t.Alias? then
      t.name in w.env && (UnfoldingLowersRank(w.env, t.name); MeetsNone(w, w.env[t.name], v))
    else if t.Union? then
      if v.Null? then !IsOf(w, t, Null)
      else
        |NotNone(t.members)| == 1
        && (MemberIsSmaller(w.env, t); MeetsNone(w, NotNone(t.members)[0], v))
    else if t.Unhandled? then false
    else if t.DictOf? then
      v.Dict? && exists i | 0 <= i < |KeysOf(w, v)| ::
        (KeyIsSmaller(w, v, i);
         MeetsNone(w, t.key, KeysOf(w, v)[i])
         || (IsLast(w, t.key, v, i) && MeetsNone(w, t.value, v.entries[KeysOf(w, v)[i]])))
    else
      Elements(w.o, v).Some? && exists i | 0 <= i < |Elements(w.o, v).value| ::
        (ElementIsSmaller(w.o, v, i);
         if t.FixedTuple? then i < |t.parts| && MeetsNone(w, t.parts[i], Elements(w.o, v).value[i])
         else MeetsNone(w, t.item, Elements(w.o, v).value[i]))
  }

  lemma {:induction false} HandledIsOf(o: Outside, t: Type, v: Value)
    requires Handle(o, t, v).Some? && Handle(o, t, v).value.Ok?
    ensures IsOfHandled(t, Handle(o, t, v).value.value)
    ensures !v.Null? ==> !Handle(o, t, v).value.value.Null?
  {
  }

  /** Only `None` is ever constructed as `None`. */
  lemma {:induction false} NoneOnlyFromNone(w: World, t: Type, v: Value)
    requires Sane(w) && Construct(w, t, v).Ok? && !v.Null?
    ensures !Construct(w, t, v).value.Null?
    decreases RankOf(w.env, t), t
  {
    if Handle(w.o, t, v).Some? {
      HandledIsOf(w.o, t, v);
    } else if t.Alias? {
      UnfoldingLowersRank(w.env, t.name);
      NoneOnlyFromNone(w, w.env[t.name], v);
    } else if t.Union? {
      MemberIsSmaller(w.env, t);
      NoneOnlyFromNone(w, NotNone(t.members)[0], v);
    }
  }

  /** If one member of a union is not `None`, every member is that one or `None`. */
  lemma {:induction false} OneMember(members: seq<Type>, i: nat)
    requires i < |members|
    ensures members[i] == NoneT || members[i] in NotNone(members)
    decreases |members|
  {
    if i < |members| - 1 {
      OneMember(members[..|members| - 1], i);
    }
  }

  /**
   * What is constructed is of the type it was constructed as exactly when the value has no `None`
   * where a union has no place for it.
   */
  lemma {:induction false} ConstructsTypeExactly(w: World, t: Type, v: Value)
    requires Sane(w) && Construct(w, t, v).Ok?
    ensures IsOf(w, t, Construct(w, t, v).value) <==> !MeetsNone(w, t, v)
    decreases v, 1, RankOf(w.env, t), t
  {
    var r := Construct(w, t, v).value;
    HandlesByType(w.o, t, v, r);
    if Handle(w.o, t, v).Some? {
      HandledIsOf(w.o, t, v);
      IsOfAtOnce(w, t, r);
    } else if t.Alias? {
      UnfoldingLowersRank(w.env, t.name);
      IsOfAlias(w, t, r);
      ConstructsTypeExactly(w, w.env[t.name], v);
    } else if t.Union? {
      if !v.Null? {
        var member := NotNone(t.members)[0];
        MemberIsSmaller(w.env, t);
        ConstructsTypeExactly(w, member, v);
        NoneOnlyFromNone(w, member, v);
        UnionIsMember(w, t, r);
      }
    } else if t.FixedTuple? {
      PartsExactly(w, t, v);
    } else if t.DictOf? {
      EntriesExactly(w, t, v);
    } else {
      ItemsExactly(w, t, v);
    }
  }

  lemma {:induction false} IsOfMember(w: World, t: Type, r: Value) returns (i: nat)
    requires Sane(w) && t.Union? && IsOf(w, t, r)
    ensures i < |t.members| && IsOf(w, t.members[i], r)
  {
    var n := ShownIn(w, t, r);
    i :| 0 <= i < |t.members| && IsShown(w, t.members[i], r, n - 1);
  }

  lemma {:induction false} MemberIsOf(w: World, t: Type, i: nat, r: Value)
    requires Sane(w) && t.Union? && i < |t.members| && IsOf(w, t.members[i], r)
    ensures IsOf(w, t, r)
  {
    var n := ShownIn(w, t.members[i], r);
    assert IsShown(w, t, r, n + 1);
  }

  /** A value that is not `None` is of a union exactly if it is of its one other member. */
  lemma {:induction false} UnionIsMember(w: World, t: Type, r: Value)
    requires Sane(w) && t.Union? && |NotNone(t.members)| == 1 && !r.Null?
    ensures IsOf(w, t, r) <==> IsOf(w, NotNone(t.members)[0], r)
  {
    var member := NotNone(t.members)[0];
    if IsOf(w, t, r) {
      var i := IsOfMember(w, t, r);
      OneMember(t.members, i);
    }
    if IsOf(w, member, r) {
      assert member in NotNone(t.members);
      var i :| 0 <= i < |t.members| && t.members[i] == member;
      MemberIsOf(w, t, i, r);
    }
  }

  lemma {:induction false} PartsExactly(w: World, t: Type, v: Value)
    requires Sane(w) && t.FixedTuple? && Construct(w, t, v).Ok?
    ensures IsOf(w, t, Construct(w, t, v).value) <==> !MeetsNone(w, t, v)
    decreases v, 0
  {
    var results := PartResults(w, t.parts, v);
    GatherMeans(results, |results|);
    var values := Gather(results, |results|).values;
    forall i | 0 <= i < |values|
      ensures IsOf(w, t.parts[i], values[i]) <==> !MeetsNone(w, t.parts[i], Elements(w.o, v).value[i])
    {
      ElementIsSmaller(w.o, v, i);
      assert results[i] == Ok(values[i]);
      ConstructsTypeExactly(w, t.parts[i], Elements(w.o, v).value[i]);
    }
    IsOfAtOnce(w, t, Tuple(values));
  }

  lemma {:induction false} ItemsExactly(w: World, t: Type, v: Value)
    requires Sane(w) && IsItems(t) && Construct(w, t, v).Ok?
    ensures IsOf(w, t, Construct(w, t, v).value) <==> !MeetsNone(w, t, v)
    decreases v, 0
  {
    var results := ElementResults(w, t.item, v);
    GatherMeans(results, |results|);
    var values := Gather(results, |results|).values;
    forall i | 0 <= i < |values|
      ensures IsOf(w, t.item, values[i]) <==> !MeetsNone(w, t.item, Elements(w.o, v).value[i])
    {
      ElementIsSmaller(w.o, v, i);
      assert results[i] == Ok(values[i]);
      ConstructsTypeExactly(w, t.item, Elements(w.o, v).value[i]);
    }
    CollectionIsOf(w, t, values);
  }

  /** A collection is of its type exactly if what was collected is of the item type. */
  lemma {:induction false} CollectionIsOf(w: World, t: Type, values: seq<Value>)
    requires Sane(w) && IsItems(t) && Collect(t, values).Ok?
    ensures IsOf(w, t, Collect(t, values).value) <==> forall i :: 0 <= i < |values| ==> IsOf(w, t.item, values[i])
  {
    var r := Collect(t, values).value;
    CollectedElements(w.o, t, values);
    var again := Elements(w.o, r).value;
    IsOfAtOnce(w, t, r);
    assert IsOf(w, t, r) <==> AllOf(w, t.item, again);
    SameElementsSameType(w, t.item, again, values);
    SameElementsSameType(w, t.item, values, again);
  }

  ghost predicate AllOf(w: World, t: Type, values: seq<Value>)
    requires Sane(w)
  {
    forall i :: 0 <= i < |values| ==> IsOf(w, t, values[i])
  }

  lemma {:induction false} SameElementsSameType(w: World, t: Type, a: seq<Value>, b: seq<Value>)
    requires Sane(w) && forall x :: x in a <==> x in b
    ensures AllOf(w, t, a) ==> AllOf(w, t, b)
  {
    if AllOf(w, t, a) {
      forall i | 0 <= i < |b| ensures IsOf(w, t, b[i]) {
        assert b[i] in b;
        var j :| 0 <= j < |a| && a[j] == b[i];
      }
    }
  }

  lemma {:induction false} EntriesExactly(w: World, t: Type, v: Value)
    requires Sane(w) && t.DictOf? && Construct(w, t, v).Ok?
    ensures IsOf(w, t, Construct(w, t, v).value) <==> !MeetsNone(w, t, v)
    decreases v, 0
  {
    var keys, items := KeyResults(w, t.key, v), ItemResults(w, t.value, v);
    forall i | 0 <= i < |keys| ensures EntryIsExact(w, t, v, i) {
      KeyIsSmaller(w, v, i);
      EntryIsMade(keys, items, |keys|, i);
      ConstructsTypeExactly(w, t.key, KeysOf(w, v)[i]);
      ConstructsTypeExactly(w, t.value, v.entries[KeysOf(w, v)[i]]);
    }
    if IsOf(w, t, Construct(w, t, v).value) {
      EntriesOfType(w, t, v);
    } else if !MeetsNone(w, t, v) {
      EntriesMeetNoNone(w, t, v);
    }
  }

  /** Whether an entry's key and item are of their types exactly if they meet no `None`. */
  ghost predicate EntryIsExact(w: World, t: Type, v: Value, i: nat)
    requires Sane(w) && t.DictOf? && v.Dict? && i < |KeysOf(w, v)|
  {
    var key, item := KeyResults(w, t.key, v)[i], ItemResults(w, t.value, v)[i];
    KeyIsSmaller(w, v, i);
    && key.Ok? && item.Ok?
    && (IsOf(w, t.key, key.value) <==> !MeetsNone(w, t.key, KeysOf(w, v)[i]))
    && (IsOf(w, t.value, item.value) <==> !MeetsNone(w, t.value, v.entries[KeysOf(w, v)[i]]))
  }

  lemma {:induction false} EntriesOfType(w: World, t: Type, v: Value)
    requires Sane(w) && t.DictOf? && Construct(w, t, v).Ok? && IsOf(w, t, Construct(w, t, v).value)
    requires forall i :: 0 <= i < |KeysOf(w, v)| ==> EntryIsExact(w, t, v, i)
    ensures !MeetsNone(w, t, v)
  {
    var keys, items := KeyResults(w, t.key, v), ItemResults(w, t.value, v);
    forall i | 0 <= i < |KeysOf(w, v)|
      ensures KeysOf(w, v)[i] in v.entries && !MeetsNone(w, t.key, KeysOf(w, v)[i])
      ensures IsLast(w, t.key, v, i) ==> !MeetsNone(w, t.value, v.entries[KeysOf(w, v)[i]])
    {
      KeyIsSmaller(w, v, i);
      assert EntryIsExact(w, t, v, i);
      EntryIsMade(keys, items, |keys|, i);
      assert keys[i].value in Construct(w, t, v).value.entries;
    }
  }

  lemma {:induction false} EntriesMeetNoNone(w: World, t: Type, v: Value)
    requires Sane(w) && t.DictOf? && Construct(w, t, v).Ok? && !MeetsNone(w, t, v)
    requires forall i :: 0 <= i < |KeysOf(w, v)| ==> EntryIsExact(w, t, v, i)
    ensures IsOf(w, t, Construct(w, t, v).value)
  {
    var keys, items := KeyResults(w, t.key, v), ItemResults(w, t.value, v);
    var made := GatherEntries(keys, items, |keys|).entries;
    forall k | k in made ensures IsOf(w, t.key, k) && IsOf(w, t.value, made[k]) {
      var i := EntryMeans(keys, items, |keys|, k);
      KeyIsSmaller(w, v, i);
      assert EntryIsExact(w, t, v, i) && IsLast(w, t.key, v, i);
    }
    IsOfAtOnce(w, t, Dict(made));
  }

  /** A union that is not of one type and `None` lets `None` through, although it is of no member. */
  lemma NoneIsLetThrough(w: World)
    requires Sane(w)
    ensures var t := Union([IntT, StrT]); Construct(w, t, Null) == Ok(Null) && !IsOf(w, t, Null)
  {
    var t := Union([IntT, StrT]);
    IsOfAtOnce(w, IntT, Null);
    IsOfAtOnce(w, StrT, Null);
    if IsOf(w, t, Null) {
      var i := IsOfMember(w, t, Null);
      assert false;
    }
  }

  // ----- a condition on types alone -----

  /** Whether every union written in a type has `None` among its members. */
  predicate UnionsHaveNone(t: Type) {
    match t
    case Union(members) => NoneT in members && forall m <- members :: UnionsHaveNone(m)
    case FixedTuple(parts) => forall p <- parts :: UnionsHaveNone(p)
    case DictOf(key, value) => UnionsHaveNone(key) && UnionsHaveNone(value)
    case ListOf(item) => UnionsHaveNone(item)
    case TupleOf(item) => UnionsHaveNone(item)
    case SetOf(item) => UnionsHaveNone(item)
    case FrozenSetOf(item) => UnionsHaveNone(item)
    case _ => true
  }

  /** If every union of a type and of the aliases has `None`, what is constructed is always of the type. */
  lemma {:induction false} ConstructsType(w: World, t: Type, v: Value)
    requires Sane(w) && Construct(w, t, v).Ok?
    requires UnionsHaveNone(t) && forall name <- w.env :: UnionsHaveNone(w.env[name])
    ensures IsOf(w, t, Construct(w, t, v).value)
  {
    NeverMeetsNone(w, t, v);
    ConstructsTypeExactly(w, t, v);
  }

  lemma {:induction false} NeverMeetsNone(w: World, t: Type, v: Value)
    requires Sane(w) && UnionsHaveNone(t) && forall name <- w.env :: UnionsHaveNone(w.env[name])
    ensures !MeetsNone(w, t, v)
    decreases v, 1, RankOf(w.env, t), t
  {
    if Handle(w.o, t, v).Some? || t.Unhandled? {
    } else if t.Alias? {
      if t.name in w.env {
        UnfoldingLowersRank(w.env, t.name);
        NeverMeetsNone(w, w.env[t.name], v);
      }
    } else if t.Union? {
      if v.Null? {
        var i :| 0 <= i < |t.members| && t.members[i] == NoneT;
        IsOfAtOnce(w, NoneT, Null);
        MemberIsOf(w, t, i, Null);
      } else if |NotNone(t.members)| == 1 {
        MemberIsSmaller(w.env, t);
        NeverMeetsNone(w, NotNone(t.members)[0], v);
      }
    } else if t.DictOf? {
      if v.Dict? {
        EntriesNeverMeetNone(w, t, v);
      }
    } else if Elements(w.o, v).Some? {
      ElementsNeverMeetNone(w, t, v);
    }
  }

  lemma {:induction false} ElementsNeverMeetNone(w: World, t: Type, v: Value)
    requires Sane(w) && (IsItems(t) || t.FixedTuple?) && Elements(w.o, v).Some?
    requires UnionsHaveNone(t) && forall name <- w.env :: UnionsHaveNone(w.env[name])
    ensures !MeetsNone(w, t, v)
    decreases v, 0
  {
    forall i | 0 <= i < |Elements(w.o, v).value| && (t.FixedTuple? ==> i < |t.parts|)
      ensures !MeetsNone(w, if t.FixedTuple? then t.parts[i] else t.item, Elements(w.o, v).value[i])
    {
      ElementIsSmaller(w.o, v, i);
      NeverMeetsNone(w, if t.FixedTuple? then t.parts[i] else t.item, Elements(w.o, v).value[i]);
    }
  }

  lemma {:induction false} EntriesNeverMeetNone(w: World, t: Type, v: Value)
    requires Sane(w) && t.DictOf? && v.Dict?
    requires UnionsHaveNone(t) && forall name <- w.env :: UnionsHaveNone(w.env[name])
    ensures !MeetsNone(w, t, v)
    decreases v, 0
  {
    forall i | 0 <= i < |KeysOf(w, v)|
      ensures KeysOf(w, v)[i] in v.entries && !MeetsNone(w, t.key, KeysOf(w, v)[i])
      ensures !MeetsNone(w, t.value, v.entries[KeysOf(w, v)[i]])
    {
      KeyIsSmaller(w, v, i);
      NeverMeetsNone(w, t.key, KeysOf(w, v)[i]);
      NeverMeetsNone(w, t.value, v.entries[KeysOf(w, v)[i]]);
    }
  }
}
