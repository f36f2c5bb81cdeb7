/**
 * The wrapper of an injected function: it has the function's parameters but the injected ones,
 * borrows the function's defaults, and calls it with what it was called with and what providers gave.
 */
module InjectedCalls {
  import opened Options
  import opened Signatures
  import opened Calls

  /** What providers gave, by the name of the injected parameter. */
  type Provided = map<Name, Bound>

  predicate TypedProvided(params: seq<Param>, deps: Provided) {
    forall i :: 0 <= i < |params| && params[i].name in deps ==> Typed(params[i].kind, deps[params[i].name])
  }

  /** A function's parameters minus the injected ones. */
  function Kept(params: seq<Param>, deps: Provided): seq<Param> {
    if params == [] then []
    else if params[0].name in deps then Kept(params[1..], deps)
    else [params[0]] + Kept(params[1..], deps)
  }

  /** What each of the function's parameters should be: what its provider gave, or the wrapper's own. */
  function Merge(params: seq<Param>, deps: Provided, kept: Binding): Binding
    requires |kept| == |Kept(params, deps)|
  {
    if params == [] then []
    else if params[0].name in deps then [deps[params[0].name]] + Merge(params[1..], deps, kept)
    else [kept[0]] + Merge(params[1..], deps, kept[1..])
  }

  lemma {:induction false} KeptAreParams(params: seq<Param>, deps: Provided)
    ensures forall p <- Kept(params, deps) :: p in params && p.name !in deps
    ensures forall p <- params :: p.name !in deps ==> p in Kept(params, deps)
  {
    if params != [] {
      KeptAreParams(params[1..], deps);
      assert params == [params[0]] + params[1..];
    }
  }

  predicate CanPrecede(p: Param, q: Param) {
    && p.name != q.name && Order(p.kind) <= Order(q.kind)
    && (p.kind == VarPositional || p.kind == VarKeyword ==> p.kind != q.kind)
  }

  lemma {:induction false} SignaturePrepend(p: Param, rest: seq<Param>)
    requires IsSignature(rest) && forall q <- rest :: CanPrecede(p, q)
    ensures IsSignature([p] + rest)
  {
    var all := [p] + rest;
    forall i, j | 0 <= i < j < |all| ensures CanPrecede(all[i], all[j]) {
      assert all[j] == rest[j - 1];
      if i > 0 {
        assert all[i] == rest[i - 1];
      }
    }
    assert forall i, j :: 0 <= i < j < |all| ==> CanPrecede(all[i], all[j]);
  }

  /** What is left of a signature is a signature. */
  lemma {:induction false} KeptIsSignature(params: seq<Param>, deps: Provided)
    requires IsSignature(params)
    ensures IsSignature(Kept(params, deps))
  {
    if params != [] {
      TailIsSignature(params);
      KeptIsSignature(params[1..], deps);
      KeptAreParams(params[1..], deps);
      if params[0].name !in deps {
        forall q | q in Kept(params[1..], deps) ensures CanPrecede(params[0], q) {
          assert q in params[1..];
        }
        SignaturePrepend(params[0], Kept(params[1..], deps));
      }
    }
  }

  /** Every parameter of the function gets what its provider gave, or what the wrapper's own got. */
  lemma {:induction false} MergeMeans(params: seq<Param>, deps: Provided, kept: Binding)
    requires TypedAll(Kept(params, deps), kept) && TypedProvided(params, deps)
    ensures TypedAll(params, Merge(params, deps, kept))
    ensures forall i :: 0 <= i < |params| && params[i].name in deps ==>
              Merge(params, deps, kept)[i] == deps[params[i].name]
    ensures forall i :: 0 <= i < |params| && params[i].name !in deps ==>
              Stands(params[i], Merge(params, deps, kept)[i], Kept(params, deps), kept)
  {
    if params != [] {
      var keptHere := params[0].name !in deps;
      var tail := if keptHere then kept[1..] else kept;
      var restKept, rest := Kept(params[1..], deps), Merge(params[1..], deps, tail);
      assert keptHere ==> Kept(params, deps)[1..] == restKept;
      MergeMeans(params[1..], deps, tail);
      var m := Merge(params, deps, kept);
      assert m[1..] == rest;
      forall i | 0 <= i < |params|
        ensures Typed(params[i].kind, m[i])
        ensures params[i].name in deps ==> m[i] == deps[params[i].name]
        ensures params[i].name !in deps ==> Stands(params[i], m[i], Kept(params, deps), kept)
      {
        if i > 0 {
          assert params[1..][i - 1] == params[i] && rest[i - 1] == m[i];
          if params[i].name !in deps {
            StandsLater(params[i], m[i], restKept, tail, Kept(params, deps), kept);
          }
        } else if keptHere {
          assert Kept(params, deps)[0] == params[0] && kept[0] == m[0];
        }
      }
    }
  }

  /** And every parameter of the wrapper is passed on. */
  lemma {:induction false} KeptStands(params: seq<Param>, deps: Provided, kept: Binding, k: nat)
    requires |Kept(params, deps)| == |kept| && k < |kept|
    ensures |Merge(params, deps, kept)| == |params|
    ensures Stands(Kept(params, deps)[k], kept[k], params, Merge(params, deps, kept))
    decreases |params|
  {
    MergeLength(params, deps, kept);
    var m := Merge(params, deps, kept);
    var keptHere := params[0].name !in deps;
    if keptHere && k == 0 {
      assert params[0] == Kept(params, deps)[0] && m[0] == kept[0];
    } else {
      var tail := if keptHere then kept[1..] else kept;
      var restKept, rest := Kept(params[1..], deps), Merge(params[1..], deps, tail);
      var k' := if keptHere then k - 1 else k;
      KeptStands(params[1..], deps, tail, k');
      assert restKept[k'] == Kept(params, deps)[k] && tail[k'] == kept[k];
      StandsLater(restKept[k'], tail[k'], params[1..], rest, params, m);
    }
  }

  lemma {:induction false} MergeLength(params: seq<Param>, deps: Provided, kept: Binding)
    requires |Kept(params, deps)| == |kept|
    ensures |Merge(params, deps, kept)| == |params|
  {
    if params != [] {
      MergeLength(params[1..], deps, if params[0].name in deps then kept else kept[1..]);
    }
  }

  /** Whether a parameter is in a list, and is bound to this. */
  predicate Stands(p: Param, b: Bound, params: seq<Param>, binding: Binding)
    requires |params| == |binding|
  {
    exists k :: 0 <= k < |params| && params[k] == p && binding[k] == b
  }

  lemma {:induction false} StandsLater(
    p: Param, b: Bound, rest: seq<Param>, restBinding: Binding, params: seq<Param>, binding: Binding
  )
    requires |rest| == |restBinding| && |params| == |binding| && Stands(p, b, rest, restBinding)
    requires (params == rest && binding == restBinding)
             || (params != [] && params[1..] == rest && binding[1..] == restBinding)
    ensures Stands(p, b, params, binding)
  {
    var k :| 0 <= k < |rest| && rest[k] == p && restBinding[k] == b;
    if params != rest || binding != restBinding {
      assert params[k + 1] == params[1..][k] && binding[k + 1] == binding[1..][k];
    }
  }

  // ----- the call -----

  /** Keyword arguments that no parameter takes are collected, or the call is an error. */
  lemma {:induction false} UntakenAreCollected(
    params: seq<Param>, positional: seq<Value>, keywords: map<Name, Value>, name: Name
  )
    requires Bind(params, positional, keywords).Some? && name in keywords
    requires forall i :: 0 <= i < |params| ==> params[i].name != name || !ByKeyword(params[i].kind)
    ensures var b := Bind(params, positional, keywords).value;
            exists j :: 0 <= j < |b| && b[j].Named? && name in b[j].named
  {
    assert params != [];
    var p, rest := params[0], params[1..];
    var b := Bind(params, positional, keywords).value;
    if p.kind == VarKeyword {
      assert b[0] == Named(keywords);
    } else {
      if p.kind == VarPositional {
        UntakenAreCollected(rest, [], keywords, name);
      } else if p.kind != KeywordOnly && positional != [] {
        UntakenAreCollected(rest, positional[1..], keywords, name);
      } else if ByKeyword(p.kind) && p.name in keywords {
        UntakenAreCollected(rest, positional, keywords - {p.name}, name);
      } else {
        UntakenAreCollected(rest, positional, keywords, name);
      }
      var j :| 0 <= j < |b[1..]| && b[1..][j].Named? && name in b[1..][j].named;
      assert b[j + 1] == b[1..][j];
    }
  }

  /** Whether a call gives, by keyword, a parameter that is injected. */
  predicate GivesInjected(params: seq<Param>, deps: Provided, keywords: map<Name, Value>) {
    exists i :: 0 <= i < |params| && ByKeyword(params[i].kind) && params[i].name in deps && params[i].name in keywords
  }

  /** Whether the mapping provided for an injected `**kwargs` names a parameter that a keyword can fill. */
  predicate ProvidesTaken(params: seq<Param>, deps: Provided) {
    exists i, j :: 0 <= i < |params| && 0 <= j < |params| && ByKeyword(params[i].kind)
                   && params[j].name in deps && deps[params[j].name].Named?
                   && params[i].name in deps[params[j].name].named
  }

  lemma {:induction false} KeptCollision(params: seq<Param>, deps: Provided, kept: Binding, i: nat, k: nat)
    requires TypedAll(Kept(params, deps), kept) && TypedProvided(params, deps)
    requires i < |params| && k < |kept| && ByKeyword(params[i].kind)
    requires kept[k].Named? && params[i].name in kept[k].named
    ensures params[i].name in deps || Collides(Kept(params, deps), kept)
  {
    MergeMeans(params, deps, kept);
    if params[i].name !in deps {
      assert Stands(params[i], Merge(params, deps, kept)[i], Kept(params, deps), kept);
    }
  }

  /** A collision of a call that the wrapper accepts is with an injected parameter that the call names, or mapping. */
  lemma {:induction false} CollidesWithInjected(
    params: seq<Param>, deps: Provided, kept: Binding, keywords: map<Name, Value>
  )
    requires TypedAll(Kept(params, deps), kept) && TypedProvided(params, deps)
    requires !Collides(Kept(params, deps), kept) && CollectsFrom(Kept(params, deps), kept, keywords)
    requires TypedAll(params, Merge(params, deps, kept))
    ensures Collides(params, Merge(params, deps, kept)) ==>
              GivesInjected(params, deps, keywords) || ProvidesTaken(params, deps)
  {
    var m := Merge(params, deps, kept);
    if Collides(params, m) {
      var i, j :| 0 <= i < |params| && 0 <= j < |params| && ByKeyword(params[i].kind) && m[j].Named?
                  && params[i].name in m[j].named;
      MergeMeans(params, deps, kept);
      assert Typed(params[j].kind, m[j]);
      if params[j].name !in deps {
        var k :| 0 <= k < |kept| && Kept(params, deps)[k] == params[j] && kept[k] == m[j];
        KeptCollision(params, deps, kept, i, k);
      }
    }
  }

  /** A provided mapping that names a parameter that a keyword can fill collides. */
  lemma ProvidedCollides(params: seq<Param>, deps: Provided, kept: Binding)
    requires TypedAll(Kept(params, deps), kept) && TypedProvided(params, deps) && ProvidesTaken(params, deps)
    ensures TypedAll(params, Merge(params, deps, kept)) && Collides(params, Merge(params, deps, kept))
  {
    MergeMeans(params, deps, kept);
    var i, j :| 0 <= i < |params| && 0 <= j < |params| && ByKeyword(params[i].kind)
                && params[j].name in deps && deps[params[j].name].Named?
                && params[i].name in deps[params[j].name].named;
    assert Merge(params, deps, kept)[j] == deps[params[j].name];
  }

  /** A call that names an injected parameter, and that the wrapper accepts, collides. */
  lemma {:induction false} InjectedCollides(
    params: seq<Param>, deps: Provided, positional: seq<Value>, keywords: map<Name, Value>
  )
    requires GivesInjected(params, deps, keywords) && Bind(Kept(params, deps), positional, keywords).Some?
    requires var kept := Bind(Kept(params, deps), positional, keywords).value;
             TypedAll(Kept(params, deps), kept) && TypedAll(params, Merge(params, deps, kept))
    ensures Collides(params, Merge(params, deps, Bind(Kept(params, deps), positional, keywords).value))
  {
    var kept := Bind(Kept(params, deps), positional, keywords).value;
    var i :| 0 <= i < |params| && ByKeyword(params[i].kind) && params[i].name in deps && params[i].name in keywords;
    KeptAreParams(params, deps);
    forall k | 0 <= k < |Kept(params, deps)| ensures Kept(params, deps)[k].name != params[i].name {
      assert Kept(params, deps)[k] in Kept(params, deps);
    }
    UntakenAreCollected(Kept(params, deps), positional, keywords, params[i].name);
    var j :| 0 <= j < |kept| && kept[j].Named? && params[i].name in kept[j].named;
    KeptStands(params, deps, kept, j);
  }

  /**
   * A call that an injecting wrapper accepts calls the function with every parameter bound to its
   * own value: the injected ones to what their providers gave, the rest to what the wrapper was
   * given. The exceptions are a call that names an injected parameter, which the wrapper's
   * `**kwargs` collects, and a mapping provided for an injected `**kwargs` that names another
   * parameter: the function's call is then an error.
   */
  lemma InjectsExactly(params: seq<Param>, deps: Provided, positional: seq<Value>, keywords: map<Name, Value>)
    requires IsSignature(params) && TypedProvided(params, deps)
    requires Bind(Kept(params, deps), positional, keywords).Some?
    ensures var kept := Bind(Kept(params, deps), positional, keywords).value;
            TypedAll(Kept(params, deps), kept) && TypedAll(params, Merge(params, deps, kept))
            && Forwarded(params, Merge(params, deps, kept)) ==
               if GivesInjected(params, deps, keywords) || ProvidesTaken(params, deps) then None
               else Some(Merge(params, deps, kept))
  {
    var kept := Bind(Kept(params, deps), positional, keywords).value;
    KeptIsSignature(params, deps);
    BoundNeverCollides(Kept(params, deps), positional, keywords);
    MergeMeans(params, deps, kept);
    CollidesWithInjected(params, deps, kept, keywords);
    if GivesInjected(params, deps, keywords) {
      InjectedCollides(params, deps, positional, keywords);
    }
    if ProvidesTaken(params, deps) {
      ProvidedCollides(params, deps, kept);
    }
    ForwardBindsExactly(params, Merge(params, deps, kept));
  }

  lemma BindsRest(q: Param, keywords: map<Name, Value>)
    requires q.kind == VarKeyword
    ensures Bind([q], [], keywords) == Some([Named(keywords)])
  {
    assert [q][1..] == [] && Bind([], [], map[]) == Some([]);
    assert [Named(keywords)] + [] == [Named(keywords)];
  }

  /** Such a call: `f(a, **k)` with `a` injected, called as `wrapper(a=given)`, which the wrapper accepts. */
  lemma NamingInjectedFails(a: Name, k: Name, given: Value, provided: Value)
    requires a != k
    ensures var params := [Param(a, Standard, None), Param(k, VarKeyword, None)];
            var deps: Provided, kept := map[a := One(provided)], [Named(map[a := given])];
            && IsSignature(params) && TypedProvided(params, deps)
            && Kept(params, deps) == [params[1]] && Bind(Kept(params, deps), [], map[a := given]) == Some(kept)
            && TypedAll(params, Merge(params, deps, kept)) && Forwarded(params, Merge(params, deps, kept)) == None
  {
    var p, q := Param(a, Standard, None), Param(k, VarKeyword, None);
    var deps: Provided := map[a := One(provided)];
    var keywords := map[a := given];
    var params, last := [p, q], [q];
    assert params[0] == p && params[1..] == last && last[0] == q && last[1..] == [];
    assert Kept(last, deps) == [q] + Kept(last[1..], deps) == [q];
    assert Kept(params, deps) == Kept(params[1..], deps) == last;
    BindsRest(q, keywords);
    InjectsExactly(params, deps, [], keywords);
    assert ByKeyword(params[0].kind) && params[0].name in deps && params[0].name in keywords;
  }

  /** A cached function's wrapper has all its parameters, so every call that it accepts is forwarded as it was. */
  lemma ForwardsAsCalled(params: seq<Param>, positional: seq<Value>, keywords: map<Name, Value>)
    requires IsSignature(params) && Bind(params, positional, keywords).Some?
    ensures var b := Bind(params, positional, keywords).value;
            TypedAll(params, b) && Forwarded(params, b) == Some(b)
  {
    BoundNeverCollides(params, positional, keywords);
    ForwardBindsExactly(params, Bind(params, positional, keywords).value);
  }

  // ----- defaults -----

  predicate IsPositional(kind: Kind) {
    kind == PositionalOnly || kind == Standard
  }

  function Positional(params: seq<Param>): seq<Param> {
    if params == [] then []
    else if IsPositional(params[0].kind) then [params[0]] + Positional(params[1..])
    else Positional(params[1..])
  }

  /** A function's `__defaults__`: the defaults of its positional parameters, in order. */
  function DefaultsOf(positional: seq<Param>): seq<Value> {
    if positional == [] then []
    else if positional[0].default.Some? then [positional[0].default.value] + DefaultsOf(positional[1..])
    else DefaultsOf(positional[1..])
  }

  /** In a signature no positional parameter without a default follows one with. */
  predicate DefaultsLast(positional: seq<Param>) {
    positional == []
    || (DefaultsLast(positional[1..])
        && (positional[0].default.Some? ==> forall p <- positional[1..] :: p.default.Some?))
  }

  /** The default that Python takes the `i`-th of `n` positional parameters to have: they are the last ones'. */
  function Assigned(defaults: seq<Value>, n: nat, i: nat): Option<Value>
    requires i < n && |defaults| <= n
  {
    if i < n - |defaults| then None else Some(defaults[i - (n - |defaults|)])
  }

  lemma {:induction false} AllHaveDefaults(positional: seq<Param>)
    requires forall p <- positional :: p.default.Some?
    ensures |DefaultsOf(positional)| == |positional|
  {
    if positional != [] {
      AllHaveDefaults(positional[1..]);
    }
  }

  /** Assigned to the parameters they are from, defaults are each parameter's own. */
  lemma {:induction false} DefaultsAlign(positional: seq<Param>)
    requires DefaultsLast(positional)
    ensures |DefaultsOf(positional)| <= |positional|
    ensures forall i :: 0 <= i < |positional| ==>
              Assigned(DefaultsOf(positional), |positional|, i) == positional[i].default
  {
    if positional != [] {
      var n, defaults := |positional|, DefaultsOf(positional);
      DefaultsAlign(positional[1..]);
      if positional[0].default.Some? {
        AllHaveDefaults(positional[1..]);
      }
      forall i | 0 <= i < n ensures Assigned(defaults, n, i) == positional[i].default {
        if i > 0 {
          assert Assigned(DefaultsOf(positional[1..]), n - 1, i - 1) == positional[1..][i - 1].default;
        }
      }
    }
  }

  lemma {:induction false} PositionalAreParams(params: seq<Param>)
    ensures forall p <- Positional(params) :: p in params
  {
    if params != [] {
      PositionalAreParams(params[1..]);
    }
  }

  /** Dropping parameters that have no default drops no default, and leaves those with one last. */
  lemma {:induction false} KeptKeepsDefaults(params: seq<Param>, deps: Provided)
    requires DefaultsLast(Positional(params))
    requires forall p <- params :: p.name in deps ==> p.default.None?
    ensures DefaultsOf(Positional(Kept(params, deps))) == DefaultsOf(Positional(params))
    ensures DefaultsLast(Positional(Kept(params, deps)))
    ensures forall p <- Positional(Kept(params, deps)) :: p in Positional(params)
  {
    if params != [] {
      var p, rest := params[0], params[1..];
      assert IsPositional(p.kind) ==> Positional(params)[1..] == Positional(rest);
      KeptKeepsDefaults(rest, deps);
      if p.name !in deps {
        assert Kept(params, deps)[1..] == Kept(rest, deps);
        assert IsPositional(p.kind) ==> Positional(Kept(params, deps))[1..] == Positional(Kept(rest, deps));
      }
    }
  }

  /**
   * The wrapper takes the function's `__defaults__` as they are. Python gives them to its last
   * positional parameters, and each then has exactly its own default, or none.
   */
  lemma WrapperDefaultsAlign(params: seq<Param>, deps: Provided)
    requires DefaultsLast(Positional(params))
    requires forall p <- params :: p.name in deps ==> p.default.None?
    ensures var defaults, kept := DefaultsOf(Positional(params)), Positional(Kept(params, deps));
            |defaults| <= |kept|
            && forall i :: 0 <= i < |kept| ==> Assigned(defaults, |kept|, i) == kept[i].default
  {
    KeptKeepsDefaults(params, deps);
    DefaultsAlign(Positional(Kept(params, deps)));
  }
}
