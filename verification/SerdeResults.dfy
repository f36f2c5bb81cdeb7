/**
 * What construction gives, by what it is given: the built-in handlers' results, and what each container
 * is made of.
 */
module SerdeResults {
  import opened Options
  import opened Serde

  // ----- handlers -----

  /** An integer is constructed from itself, from a whole float of its value, and from text that reads as either. */
  lemma IntegersAre(o: Outside, v: Value, n: int)
    ensures DecodeInt(o, v) == Ok(Int(n)) <==>
            || v == Int(n)
            || v == Number(Finite(n as real))
            || (v.Text? && (o.parseInt(v.s) == Some(n)
                            || (o.parseInt(v.s).None? && o.parseFloat(v.s) == Some(Finite(n as real)))))
    ensures DecodeInt(o, v).Ok? ==> DecodeInt(o, v).value.Int?
  {
  }

  /** A float is constructed from itself, from an integer that it stands for, and from text that reads as either. */
  lemma FloatsAre(o: Outside, v: Value, f: Float)
    ensures DecodeFloat(o, v) == Ok(Number(f)) <==>
            || v == Number(f)
            || (v.Int? && o.floatOf(v.n) == Some(f))
            || (v.Text? && if o.parseInt(v.s).Some? then o.floatOf(o.parseInt(v.s).value) == Some(f)
                           else o.parseFloat(v.s) == Some(f))
  {
  }

  /** A truth value is constructed from itself and from its name, in any case, and from no number. */
  lemma BoolsAre(o: Outside, v: Value, b: bool)
    ensures DecodeBool(o, v) == Ok(Bool(b)) <==>
            v == Bool(b) || (v.Text? && o.lower(v.s) == if b then "true" else "false")
  {
    assert "true"[0] == 't' && "false"[0] == 'f';
  }

  /** Text is constructed from itself alone; ids, times and decimals also from text that reads as them. */
  lemma TextsAre(o: Outside, v: Value, r: Value)
    ensures Handle(o, StrT, v) == Some(Ok(r)) <==> v.Text? && r == v
    ensures Handle(o, NoneT, v) == Some(Ok(r)) <==> v.Null? && r == v
    ensures Handle(o, AnyT, v) == Some(Ok(r)) <==> r == v
    ensures Handle(o, UuidT, v) == Some(Ok(r)) <==> r.Uuid? && (v == r || (v.Text? && o.parseUuid(v.s) == Some(r.u)))
    ensures Handle(o, TimeT, v) == Some(Ok(r)) <==> r.Time? && (v == r || (v.Text? && o.parseTime(v.s) == Some(r.at)))
    ensures Handle(o, DecimalT, v) == Some(Ok(r)) <==>
            r.Decimal? && (v == r || (v.Text? && o.parseDecimal(v.s) == Some(r.d)))
  {
  }

  /** A bare collection is constructed from any other that is no dict, with the same elements, in order. */
  lemma CollectionsAre(o: Outside, v: Value, r: Value)
    requires Iterates(o)
    ensures Handle(o, BareList, v) == Some(Ok(r)) <==> r.List? && Elements(o, v) == Some(r.items)
    ensures Handle(o, BareTuple, v) == Some(Ok(r)) <==> r.Tuple? && Elements(o, v) == Some(r.items)
    ensures Handle(o, BareSet, v) == Some(Ok(r)) ==> r.Set? && SameElements(o, v, r.elements)
    ensures Handle(o, BareFrozenSet, v) == Some(Ok(r)) ==> r.FrozenSet? && SameElements(o, v, r.elements)
    ensures Handle(o, BareDict, v) == Some(Ok(r)) <==> v.Dict? && r == v
  {
  }

  ghost predicate SameElements(o: Outside, v: Value, elements: set<Value>) {
    Elements(o, v).Some? && forall x :: x in elements <==> x in Elements(o, v).value
  }

  // ----- containers -----

  /**
   * A container is constructed exactly if its source is one, all of its elements are constructed, and, for
   * a set, all that is constructed can be in one.
   */
  lemma {:induction false} ConstructsWhen(w: World, t: Type, v: Value)
    requires Sane(w) && IsItems(t)
    ensures Construct(w, t, v).Ok? <==>
            && Elements(w.o, v).Some?
            && (forall i :: 0 <= i < |Elements(w.o, v).value| ==> ElementResults(w, t.item, v)[i].Ok?)
            && (t.SetOf? || t.FrozenSetOf? ==>
                  forall i :: 0 <= i < |Elements(w.o, v).value| ==> Hashable(ElementResults(w, t.item, v)[i].value))
  {
    if Elements(w.o, v).Some? {
      var results := ElementResults(w, t.item, v);
      GatherMeans(results, |results|);
      if Gather(results, |results|).All? {
        var values := Gather(results, |results|).values;
        ConstructsCollection(w, t, v, values);
        assert forall i :: 0 <= i < |results| ==> results[i].value == values[i];
      } else {
        FailsToConstruct(w, t, v);
      }
    }
  }

  lemma {:induction false} FailsToConstruct(w: World, t: Type, v: Value)
    requires Sane(w) && IsItems(t) && Elements(w.o, v).Some?
    requires Gather(ElementResults(w, t.item, v), |Elements(w.o, v).value|).Failed?
    ensures Construct(w, t, v).Err?
  {
  }

  /** Whether a sequence is what the results hold, one for one. */
  predicate AreValues(results: seq<Result>, values: seq<Value>) {
    |values| == |results| && forall i :: 0 <= i < |results| ==> results[i] == Ok(values[i])
  }

  /** And then it holds what was constructed from each element, in order, or, for a set, once. */
  lemma {:induction false} ConstructsEach(w: World, t: Type, v: Value)
    requires Sane(w) && IsItems(t) && Construct(w, t, v).Ok?
    ensures Elements(w.o, v).Some?
    ensures var r, results := Construct(w, t, v).value, ElementResults(w, t.item, v);
            && (forall i :: 0 <= i < |results| ==> results[i] == Construct(w, t.item, Elements(w.o, v).value[i]))
            && (t.ListOf? ==> r.List? && AreValues(results, r.items))
            && (t.TupleOf? ==> r.Tuple? && AreValues(results, r.items))
            && (t.SetOf? ==> r.Set? && forall x :: x in r.elements <==> Ok(x) in results)
            && (t.FrozenSetOf? ==> r.FrozenSet? && forall x :: x in r.elements <==> Ok(x) in results)
  {
    var results := ElementResults(w, t.item, v);
    GatherMeans(results, |results|);
    var values := Gather(results, |results|).values;
    ConstructsCollection(w, t, v, values);
    ValuesAre(results, values);
  }

  lemma ValuesAre(results: seq<Result>, values: seq<Value>)
    requires AreValues(results, values)
    ensures forall x :: x in values <==> Ok(x) in results
  {
    forall x ensures x in values <==> Ok(x) in results {
      if x in values {
        var i :| 0 <= i < |values| && values[i] == x;
        assert results[i] == Ok(x);
      }
      if Ok(x) in results {
        var i :| 0 <= i < |results| && results[i] == Ok(x);
        assert values[i] == x;
      }
    }
  }

  /** A tuple of fixed length is constructed exactly from as many elements, each as its own part. */
  lemma {:induction false} ConstructsParts(w: World, t: Type, v: Value, r: Value)
    requires Sane(w) && t.FixedTuple?
    ensures Construct(w, t, v) == Ok(r) <==>
            && r.Tuple? && Elements(w.o, v).Some? && |Elements(w.o, v).value| == |t.parts| == |r.items|
            && forall i :: 0 <= i < |t.parts| ==> PartResults(w, t.parts, v)[i] == Ok(r.items[i])
    ensures Elements(w.o, v).Some? && |Elements(w.o, v).value| == |t.parts| ==>
            forall i :: 0 <= i < |t.parts| ==>
              PartResults(w, t.parts, v)[i] == Construct(w, t.parts[i], Elements(w.o, v).value[i])
  {
    if Elements(w.o, v).Some? && |Elements(w.o, v).value| == |t.parts| {
      var results := PartResults(w, t.parts, v);
      GatherMeans(results, |results|);
      ConstructsTuple(w, t, v);
      if r.Tuple? && AreValues(results, r.items) {
        assert Gather(results, |results|).values == r.items;
      }
    }
  }

  lemma {:induction false} ConstructsTuple(w: World, t: Type, v: Value)
    requires Sane(w) && t.FixedTuple? && Elements(w.o, v).Some? && |Elements(w.o, v).value| == |t.parts|
    ensures var made := Gather(PartResults(w, t.parts, v), |t.parts|);
            Construct(w, t, v) == if made.Failed? then Err(made.error) else Ok(Tuple(made.values))
  {
  }

  lemma {:induction false} GathersEntriesWhen(keys: seq<Result>, items: seq<Result>, n: nat)
    requires n <= |keys| == |items|
    ensures GatherEntries(keys, items, n).Entries? <==>
            forall i :: 0 <= i < n ==> keys[i].Ok? && items[i].Ok? && Hashable(keys[i].value)
  {
    if n > 0 {
      GathersEntriesWhen(keys, items, n - 1);
    }
  }

  /** A dict is constructed exactly from a dict whose keys and values all are, the keys as what can be keys. */
  lemma {:induction false} ConstructsDictWhen(w: World, t: Type, v: Value)
    requires Sane(w) && t.DictOf?
    ensures Construct(w, t, v).Ok? <==>
            && v.Dict?
            && forall i :: 0 <= i < |KeysOf(w, v)| ==>
                 && KeyResults(w, t.key, v)[i].Ok? && ItemResults(w, t.value, v)[i].Ok?
                 && Hashable(KeyResults(w, t.key, v)[i].value)
  {
    if v.Dict? {
      GathersEntriesWhen(KeyResults(w, t.key, v), ItemResults(w, t.value, v), |KeysOf(w, v)|);
      ConstructsDict(w, t, v);
    }
  }

  lemma {:induction false} ConstructsDict(w: World, t: Type, v: Value)
    requires Sane(w) && t.DictOf? && v.Dict?
    ensures var made := GatherEntries(KeyResults(w, t.key, v), ItemResults(w, t.value, v), |KeysOf(w, v)|);
            Construct(w, t, v) == if made.EntryFailed? then Err(made.error) else Ok(Dict(made.entries))
  {
  }

  /** Keys and values are each constructed as their own type, and none of them is left out. */
  lemma {:induction false} EntriesAreConstructed(w: World, t: Type, v: Value)
    requires Sane(w) && t.DictOf? && v.Dict?
    ensures forall k :: k in KeysOf(w, v) <==> k in v.entries
    ensures forall i :: 0 <= i < |KeysOf(w, v)| ==>
              && KeyResults(w, t.key, v)[i] == Construct(w, t.key, KeysOf(w, v)[i]) && KeysOf(w, v)[i] in v.entries
              && ItemResults(w, t.value, v)[i] == Construct(w, t.value, v.entries[KeysOf(w, v)[i]])
  {
    forall k ensures k in KeysOf(w, v) <==> k in v.entries {
      assert k in v.entries.Keys <==> k in v.entries;
    }
    forall i | 0 <= i < |KeysOf(w, v)| ensures KeysOf(w, v)[i] in v.entries {
      KeyIsSmaller(w, v, i);
    }
  }

  /** A dict has an entry for exactly what its source's keys are constructed as, with the value of the last. */
  lemma {:induction false} ConstructsEntries(w: World, t: Type, v: Value, k: Value)
    requires Sane(w) && t.DictOf? && Construct(w, t, v).Ok?
    ensures v.Dict? && Construct(w, t, v).value.Dict?
    ensures k in Construct(w, t, v).value.entries <==> Ok(k) in KeyResults(w, t.key, v)
    ensures forall i :: 0 <= i < |KeysOf(w, v)| && KeyResults(w, t.key, v)[i] == Ok(k) && IsLast(w, t.key, v, i) ==>
              ItemResults(w, t.value, v)[i] == Ok(Construct(w, t, v).value.entries[k])
  {
    var keys, items := KeyResults(w, t.key, v), ItemResults(w, t.value, v);
    var made := GatherEntries(keys, items, |keys|).entries;
    if k in made {
      var i := EntryMeans(keys, items, |keys|, k);
    }
    forall i | 0 <= i < |keys| && keys[i] == Ok(k)
      ensures k in made && (IsLast(w, t.key, v, i) ==> items[i] == Ok(made[k]))
    {
      EntryIsMade(keys, items, |keys|, i);
    }
  }
}
