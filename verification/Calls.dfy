/**
 * Calls and keys that generated wrappers make of their parameters. Binding is Python's, for a
 * function whose parameters are in order, as section 6.3.4 of its Language Reference has it.
 */
module Calls {
  import opened Options
  import opened Signatures

  /** What a parameter is bound to: a value, or the extra positional or keyword arguments. */
  datatype Bound = One(value: Value) | Many(values: seq<Value>) | Named(named: map<Name, Value>)

  type Binding = seq<Bound>

  predicate Typed(kind: Kind, b: Bound) {
    match kind
    case VarPositional => b.Many?
    case VarKeyword => b.Named?
    case _ => b.One?
  }

  predicate TypedAll(params: seq<Param>, b: Binding) {
    |params| == |b| && forall i :: 0 <= i < |params| ==> Typed(params[i].kind, b[i])
  }

  predicate DistinctNames(params: seq<Param>) {
    forall i, j :: 0 <= i < j < |params| ==> params[i].name != params[j].name
  }

  predicate ByKeyword(kind: Kind) {
    kind == Standard || kind == KeywordOnly
  }

  /** A signature: names distinct, kinds in order, and at most one parameter of the kinds that collect. */
  predicate IsSignature(params: seq<Param>) {
    && DistinctNames(params)
    && (forall i, j :: 0 <= i < j < |params| ==>
          && Order(params[i].kind) <= Order(params[j].kind)
          && (params[i].kind == VarPositional || params[i].kind == VarKeyword ==> params[i].kind != params[j].kind))
  }

  lemma TailIsSignature(params: seq<Param>)
    requires IsSignature(params) && params != []
    ensures IsSignature(params[1..])
    ensures forall p <- params[1..] :: p.name != params[0].name && Order(params[0].kind) <= Order(p.kind)
    ensures params[0].kind == VarPositional || params[0].kind == VarKeyword ==>
              forall p <- params[1..] :: p.kind != params[0].kind
    ensures params[0].kind == VarKeyword ==> params[1..] == []
  {
    if |params| > 1 {
      assert Order(params[0].kind) <= Order(params[1].kind);
    }
  }

  // ----- a call's arguments, and what they bind to -----

  /** Evaluated arguments. A call that gives one keyword twice is an error and has none. */
  datatype Arguments = Arguments(positional: seq<Value>, keywords: map<Name, Value>)

  /** The arguments of the call rendered for these parameters, each in its own convention. */
  function ArgumentsOf(params: seq<Param>, b: Binding): Option<Arguments>
    requires TypedAll(params, b)
  {
    if params == [] then Some(Arguments([], map[]))
    else
      var rest := ArgumentsOf(params[1..], b[1..]);
      if rest.None? then None
      else
        var Arguments(positional, keywords) := rest.value;
        match b[0]
        case Many(values) => Some(Arguments(values + positional, keywords))
        case Named(named) => if named.Keys !! keywords.Keys then Some(Arguments(positional, keywords + named)) else None
        case One(value) =>
          if params[0].kind != KeywordOnly then Some(Arguments([value] + positional, keywords))
          else if params[0].name in keywords then None
          else Some(Arguments(positional, keywords[params[0].name := value]))
  }

  /** Bind arguments to parameters, one parameter after another; none if the call is an error. */
  function Bind(params: seq<Param>, positional: seq<Value>, keywords: map<Name, Value>): Option<Binding> {
    if params == [] then if positional == [] && keywords == map[] then Some([]) else None
    else
      var p, rest := params[0], params[1..];
      if p.kind == VarPositional then Prepend(Many(positional), Bind(rest, [], keywords))
      else if p.kind == VarKeyword then Prepend(Named(keywords), Bind(rest, positional, map[]))
      else if p.kind != KeywordOnly && positional != [] then
        if p.kind == Standard && p.name in keywords then None
        else Prepend(One(positional[0]), Bind(rest, positional[1..], keywords))
      else if ByKeyword(p.kind) && p.name in keywords
      then Prepend(One(keywords[p.name]), Bind(rest, positional, keywords - {p.name}))
      else if p.default.Some? then Prepend(One(p.default.value), Bind(rest, positional, keywords))
      else None
  }

  function Prepend(b: Bound, rest: Option<Binding>): Option<Binding> {
    if rest.None? then None else Some([b] + rest.value)
  }

  // ----- forwarding -----

  /** The keywords a binding collected that are also names of parameters that keywords can fill. */
  predicate Collides(params: seq<Param>, b: Binding)
    requires TypedAll(params, b)
  {
    exists i, j :: 0 <= i < |params| && 0 <= j < |params| && ByKeyword(params[i].kind) && b[j].Named?
                && params[i].name in b[j].named
  }

  /** The names of the keyword arguments of a rendered call. */
  predicate GivenByKeyword(params: seq<Param>, b: Binding, name: Name)
    requires TypedAll(params, b)
  {
    exists i :: 0 <= i < |params| && ((params[i].kind == KeywordOnly && params[i].name == name)
                                      || (b[i].Named? && name in b[i].named))
  }

  lemma {:induction false} KeywordsGiven(params: seq<Param>, b: Binding)
    requires TypedAll(params, b) && ArgumentsOf(params, b).Some?
    ensures forall name :: name in ArgumentsOf(params, b).value.keywords <==> GivenByKeyword(params, b, name)
  {
    if params != [] {
      KeywordsGiven(params[1..], b[1..]);
      var rest := ArgumentsOf(params[1..], b[1..]).value.keywords;
      forall name ensures name in ArgumentsOf(params, b).value.keywords <==> GivenByKeyword(params, b, name) {
        assert name in rest <==> GivenByKeyword(params[1..], b[1..], name);
        if GivenByKeyword(params, b, name) {
          var i :| 0 <= i < |params| && ((params[i].kind == KeywordOnly && params[i].name == name)
                                         || (b[i].Named? && name in b[i].named));
          if i > 0 {
            assert params[1..][i - 1] == params[i] && b[1..][i - 1] == b[i];
          }
        }
        if GivenByKeyword(params[1..], b[1..], name) {
          var i :| 0 <= i < |params[1..]| && ((params[1..][i].kind == KeywordOnly && params[1..][i].name == name)
                                              || (b[1..][i].Named? && name in b[1..][i].named));
          assert params[i + 1] == params[1..][i] && b[i + 1] == b[1..][i];
        }
      }
    }
  }

  /** After `*args` come no positional arguments. */
  lemma {:induction false} NoMorePositional(params: seq<Param>, b: Binding)
    requires TypedAll(params, b) && ArgumentsOf(params, b).Some?
    requires forall p <- params :: p.kind == KeywordOnly || p.kind == VarKeyword
    ensures ArgumentsOf(params, b).value.positional == []
  {
    if params != [] {
      assert params[0] in params;
      assert forall p <- params[1..] :: p in params;
      NoMorePositional(params[1..], b[1..]);
    }
  }

  lemma {:induction false} TailCollides(params: seq<Param>, b: Binding)
    requires TypedAll(params, b) && params != []
    ensures Collides(params[1..], b[1..]) ==> Collides(params, b)
  {
    if Collides(params[1..], b[1..]) {
      var i, j :| 0 <= i < |params[1..]| && 0 <= j < |params[1..]| && ByKeyword(params[1..][i].kind)
                  && b[1..][j].Named? && params[1..][i].name in b[1..][j].named;
      assert params[i + 1] == params[1..][i] && b[j + 1] == b[1..][j];
    }
  }

  /** A parameter that keywords can fill is given by keyword later only if keywords collide. */
  lemma {:induction false} NotGivenLater(params: seq<Param>, b: Binding)
    requires IsSignature(params) && TypedAll(params, b) && params != [] && ByKeyword(params[0].kind)
    ensures GivenByKeyword(params[1..], b[1..], params[0].name) ==> Collides(params, b)
  {
    if GivenByKeyword(params[1..], b[1..], params[0].name) {
      var i :| 0 <= i < |params[1..]| && ((params[1..][i].kind == KeywordOnly && params[1..][i].name == params[0].name)
                                          || (b[1..][i].Named? && params[0].name in b[1..][i].named));
      assert params[i + 1] == params[1..][i] && b[i + 1] == b[1..][i];
    }
  }

  /** What binding the arguments of a rendered call gives. */
  function Forwarded(params: seq<Param>, b: Binding): Option<Binding>
    requires TypedAll(params, b)
  {
    var args := ArgumentsOf(params, b);
    if args.None? then None else Bind(params, args.value.positional, args.value.keywords)
  }

  /** What is left of a forwarded call once its first parameter is bound. */
  function ForwardedRest(params: seq<Param>, b: Binding): Option<Binding>
    requires TypedAll(params, b) && params != []
  {
    var rest := ArgumentsOf(params[1..], b[1..]);
    if rest.None? || (ByKeyword(params[0].kind) && params[0].name in rest.value.keywords) then None
    else Prepend(b[0], Forwarded(params[1..], b[1..]))
  }

  lemma {:induction false} ForwardsCollecting(params: seq<Param>, b: Binding)
    requires IsSignature(params) && TypedAll(params, b) && params != []
    requires params[0].kind == VarPositional || params[0].kind == VarKeyword
    ensures Forwarded(params, b) == ForwardedRest(params, b)
  {
    TailIsSignature(params);
    var args := ArgumentsOf(params[1..], b[1..]);
    if params[0].kind == VarPositional && args.Some? {
      forall p | p in params[1..] ensures p.kind == KeywordOnly || p.kind == VarKeyword {
      }
      NoMorePositional(params[1..], b[1..]);
      assert b[0].values + [] == b[0].values;
    } else if params[0].kind == VarKeyword {
      assert map[] + b[0].named == b[0].named;
    }
  }

  lemma {:induction false} ForwardsKeyword(params: seq<Param>, b: Binding)
    requires TypedAll(params, b) && params != [] && params[0].kind == KeywordOnly
    ensures Forwarded(params, b) == ForwardedRest(params, b)
  {
    var args := ArgumentsOf(params[1..], b[1..]);
    if args.Some? && params[0].name !in args.value.keywords {
      var rest := args.value.keywords;
      assert rest[params[0].name := b[0].value] - {params[0].name} == rest;
    }
  }

  lemma {:induction false} ForwardsPositional(params: seq<Param>, b: Binding)
    requires TypedAll(params, b) && params != []
    requires params[0].kind == PositionalOnly || params[0].kind == Standard
    ensures Forwarded(params, b) == ForwardedRest(params, b)
  {
    var args := ArgumentsOf(params[1..], b[1..]);
    if args.Some? {
      assert ([b[0].value] + args.value.positional)[1..] == args.value.positional;
    }
  }

  lemma {:induction false} ForwardsOne(params: seq<Param>, b: Binding)
    requires IsSignature(params) && TypedAll(params, b) && params != []
    ensures Forwarded(params, b) == ForwardedRest(params, b)
  {
    if params[0].kind == KeywordOnly {
      ForwardsKeyword(params, b);
    } else if params[0].kind == PositionalOnly || params[0].kind == Standard {
      ForwardsPositional(params, b);
    } else {
      ForwardsCollecting(params, b);
    }
  }

  /** A collision is either the first parameter's, with what later ones are given, or later. */
  lemma {:induction false} CollidesHereOrLater(params: seq<Param>, b: Binding)
    requires IsSignature(params) && TypedAll(params, b) && params != [] && Collides(params, b)
    ensures Collides(params[1..], b[1..])
            || (ByKeyword(params[0].kind) && GivenByKeyword(params[1..], b[1..], params[0].name))
  {
    var i, j :| 0 <= i < |params| && 0 <= j < |params| && ByKeyword(params[i].kind) && b[j].Named?
                && params[i].name in b[j].named;
    assert Typed(params[j].kind, b[j]) && params[j].kind == VarKeyword;
    assert Order(params[i].kind) < Order(params[j].kind);
    assert forall k :: j < k < |params| ==> Order(params[j].kind) <= Order(params[k].kind);
    assert params[1..][j - 1] == params[j] && b[1..][j - 1] == b[j];
    if i > 0 {
      assert params[1..][i - 1] == params[i];
    }
  }

  /**
   * A call rendered for a signature binds every parameter to its own value, unless `**kwargs` has
   * the name of a parameter that a keyword can fill: then the call is an error.
   */
  lemma {:induction false} ForwardBindsExactly(params: seq<Param>, b: Binding)
    requires IsSignature(params) && TypedAll(params, b)
    ensures Forwarded(params, b) == if Collides(params, b) then None else Some(b)
  {
    if params != [] {
      TailIsSignature(params);
      ForwardBindsExactly(params[1..], b[1..]);
      ForwardsOne(params, b);
      if Collides(params, b) {
        RestFails(params, b);
      } else {
        RestBinds(params, b);
      }
    }
  }

  lemma {:induction false} RestFails(params: seq<Param>, b: Binding)
    requires IsSignature(params) && TypedAll(params, b) && params != [] && Collides(params, b)
    requires Forwarded(params[1..], b[1..]) == if Collides(params[1..], b[1..]) then None else Some(b[1..])
    ensures ForwardedRest(params, b) == None
  {
    CollidesHereOrLater(params, b);
    if ArgumentsOf(params[1..], b[1..]).Some? {
      KeywordsGiven(params[1..], b[1..]);
    }
  }

  lemma {:induction false} RestBinds(params: seq<Param>, b: Binding)
    requires IsSignature(params) && TypedAll(params, b) && params != [] && !Collides(params, b)
    requires Forwarded(params[1..], b[1..]) == if Collides(params[1..], b[1..]) then None else Some(b[1..])
    ensures ForwardedRest(params, b) == Some(b)
  {
    TailCollides(params, b);
    KeywordsGiven(params[1..], b[1..]);
    if ByKeyword(params[0].kind) {
      NotGivenLater(params, b);
    }
    assert b == [b[0]] + b[1..];
  }

  // ----- what a call binds -----

  /** Whether a keyword is taken by a parameter that it names. */
  predicate Taken(params: seq<Param>, name: Name) {
    exists j :: 0 <= j < |params| && ByKeyword(params[j].kind) && params[j].name == name
  }

  predicate IsDefault(p: Param, b: Bound) {
    p.default.Some? && b == One(p.default.value)
  }

  /**
   * What a parameter is bound to, by its place in a signature: the positional argument in that place, or
   * the keyword argument that names it, or its default, or all the arguments that are left.
   */
  ghost predicate FilledBy(params: seq<Param>, i: nat, positional: seq<Value>, keywords: map<Name, Value>, b: Bound)
    requires i < |params|
  {
    var p := params[i];
    match p.kind
    case PositionalOnly => if i < |positional| then b == One(positional[i]) else IsDefault(p, b)
    case Standard =>
      if i < |positional| then b == One(positional[i]) && p.name !in keywords
      else if p.name in keywords then b == One(keywords[p.name])
      else IsDefault(p, b)
    case VarPositional => b == Many(if i <= |positional| then positional[i..] else [])
    case KeywordOnly => if p.name in keywords then b == One(keywords[p.name]) else IsDefault(p, b)
    case VarKeyword =>
      b.Named?
      && (forall n :: n in b.named <==> n in keywords && !Taken(params, n))
      && (forall n :: n in b.named ==> b.named[n] == keywords[n])
  }

  /** What fills a parameter of the rest fills it in the whole, if the first takes nothing from it. */
  lemma FilledLater(
    params: seq<Param>, i: nat, positional: seq<Value>, keywords: map<Name, Value>,
    later: seq<Value>, left: map<Name, Value>, b: Bound
  )
    requires IsSignature(params) && 0 < i < |params| && FilledBy(params[1..], i - 1, later, left, b)
    requires later == (if positional == [] then [] else positional[1..])
             || params[i].kind == KeywordOnly || params[i].kind == VarKeyword
    requires ByKeyword(params[0].kind) ==> left == keywords - {params[0].name}
    requires !ByKeyword(params[0].kind) ==> left == keywords
    ensures FilledBy(params, i, positional, keywords, b)
  {
    assert params[i] == params[1..][i - 1] && params[0].name != params[i].name;
    forall n ensures Taken(params, n) <==> (ByKeyword(params[0].kind) && params[0].name == n) || Taken(params[1..], n) {
      if Taken(params[1..], n) {
        var j :| 0 <= j < |params[1..]| && ByKeyword(params[1..][j].kind) && params[1..][j].name == n;
        assert params[j + 1] == params[1..][j];
      }
      if Taken(params, n) {
        var j :| 0 <= j < |params| && ByKeyword(params[j].kind) && params[j].name == n;
        assert j > 0 ==> params[1..][j - 1] == params[j];
      }
    }
  }

  /** The positional arguments that the parameters after this one may take. */
  function LaterPositional(p: Param, positional: seq<Value>): seq<Value> {
    if p.kind == VarPositional then []
    else if (p.kind == PositionalOnly || p.kind == Standard) && positional != [] then positional[1..]
    else positional
  }

  /** The keyword arguments that they may take. */
  function LaterKeywords(p: Param, keywords: map<Name, Value>): map<Name, Value> {
    if p.kind == VarKeyword then map[] else if ByKeyword(p.kind) then keywords - {p.name} else keywords
  }

  lemma BindsTheRest(params: seq<Param>, positional: seq<Value>, keywords: map<Name, Value>)
    requires params != [] && Bind(params, positional, keywords).Some?
    ensures var rest := Bind(params[1..], LaterPositional(params[0], positional), LaterKeywords(params[0], keywords));
            var b := Bind(params, positional, keywords).value;
            rest.Some? && b == [b[0]] + rest.value
  {
    var p := params[0];
    if ByKeyword(p.kind) && p.name !in keywords {
      assert keywords - {p.name} == keywords;
    }
  }

  /** A call that binds fills every parameter as its kind says. */
  lemma {:induction false} BindFills(params: seq<Param>, positional: seq<Value>, keywords: map<Name, Value>, i: nat)
    requires IsSignature(params) && Bind(params, positional, keywords).Some? && i < |params|
    ensures |Bind(params, positional, keywords).value| == |params|
    ensures FilledBy(params, i, positional, keywords, Bind(params, positional, keywords).value[i])
    decreases |params|
  {
    BoundNeverCollides(params, positional, keywords);
    if i == 0 {
      FirstFilled(params, positional, keywords);
    } else {
      var later, left := LaterPositional(params[0], positional), LaterKeywords(params[0], keywords);
      var b := Bind(params, positional, keywords).value;
      TailIsSignature(params);
      BindsTheRest(params, positional, keywords);
      BindFills(params[1..], later, left, i - 1);
      assert b[i] == Bind(params[1..], later, left).value[i - 1];
      LaterFits(params, i, positional);
      FilledLater(params, i, positional, keywords, later, left, b[i]);
    }
  }

  lemma LaterFits(params: seq<Param>, i: nat, positional: seq<Value>)
    requires IsSignature(params) && 0 < i < |params|
    ensures params[0].kind != VarKeyword
    ensures LaterPositional(params[0], positional) == (if positional == [] then [] else positional[1..])
            || params[i].kind == KeywordOnly || params[i].kind == VarKeyword
  {
    assert Order(params[0].kind) <= Order(params[i].kind);
  }

  lemma FirstFilled(params: seq<Param>, positional: seq<Value>, keywords: map<Name, Value>)
    requires IsSignature(params) && params != [] && Bind(params, positional, keywords).Some?
    ensures FilledBy(params, 0, positional, keywords, Bind(params, positional, keywords).value[0])
  {
    TailIsSignature(params);
    assert params[0].kind == VarKeyword ==> forall n :: !Taken(params, n);
  }

  // ----- what a binding of a wrapper has collected -----

  /** Keyword arguments a signature binds go to the parameters they name, so none of those is collected. */
  lemma {:induction false} BoundNeverCollides(params: seq<Param>, positional: seq<Value>, keywords: map<Name, Value>)
    requires IsSignature(params) && Bind(params, positional, keywords).Some?
    ensures var b := Bind(params, positional, keywords).value;
            TypedAll(params, b) && !Collides(params, b) && CollectsFrom(params, b, keywords)
  {
    if params != [] {
      TailIsSignature(params);
      var p, rest := params[0], params[1..];
      var b := Bind(params, positional, keywords).value;
      assert b == [b[0]] + b[1..];
      if p.kind == VarPositional {
        BoundNeverCollides(rest, [], keywords);
      } else if p.kind == VarKeyword {
        BoundNeverCollides(rest, positional, map[]);
      } else if p.kind != KeywordOnly && positional != [] {
        BoundNeverCollides(rest, positional[1..], keywords);
      } else if ByKeyword(p.kind) && p.name in keywords {
        BoundNeverCollides(rest, positional, keywords - {p.name});
      } else {
        BoundNeverCollides(rest, positional, keywords);
      }
      BindingPrepended(params, b, keywords);
    }
  }

  /** What is collected was given, and is not what any parameter but those before could take. */
  predicate CollectsFrom(params: seq<Param>, b: Binding, keywords: map<Name, Value>)
    requires TypedAll(params, b)
  {
    forall j :: 0 <= j < |b| && b[j].Named? ==> b[j].named.Keys <= keywords.Keys
  }

  lemma {:induction false} BindingPrepended(params: seq<Param>, b: Binding, keywords: map<Name, Value>)
    requires IsSignature(params) && params != [] && |b| == |params| && Typed(params[0].kind, b[0])
    requires TypedAll(params[1..], b[1..]) && !Collides(params[1..], b[1..])
    requires b[0].Named? ==> b[0].named == keywords
    requires ByKeyword(params[0].kind) ==> CollectsFrom(params[1..], b[1..], keywords - {params[0].name})
    requires CollectsFrom(params[1..], b[1..], keywords)
    ensures TypedAll(params, b) && !Collides(params, b) && CollectsFrom(params, b, keywords)
  {
    forall i | 0 <= i < |params| ensures Typed(params[i].kind, b[i]) {
      assert i > 0 ==> params[1..][i - 1] == params[i] && b[1..][i - 1] == b[i];
    }
    forall j | 0 <= j < |b| && b[j].Named? ensures b[j].named.Keys <= keywords.Keys {
      assert j > 0 ==> b[1..][j - 1] == b[j];
    }
    if Collides(params, b) {
      CollidesHereOrLater(params, b);
    }
  }
}
