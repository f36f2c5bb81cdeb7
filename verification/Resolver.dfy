/**
 * Resolving a function's injected parameters: a depth-first search over providers whose set of
 * functions in progress never shrinks. Its answer about cycles is exact all the same, because
 * whatever it finishes is marked resolved, and stays so after a failed injection.
 */
module Resolver {
  import opened Options

  type Func = nat

  /** A parameter, injected or not. An injected one may wrongly have a default. */
  datatype Param = Plain | Injected(provider: Func, hasDefault: bool)

  /**
   * A callable as resolution sees it: whether it is a wrapper resolved before, whether its module
   * postpones annotations, whether an injected annotation is quoted, whether it is an object
   * with a `__call__`, whether it is async, and its parameters.
   */
  datatype Node = Node(
    wrapper: bool,
    postponed: bool,
    quoted: bool,
    callableObject: bool,
    isAsync: bool,
    params: seq<Param>
  )

  type Graph = map<Func, Node>

  datatype Error =
    | Circular(f: Func)
    | Postponed(f: Func)
    | Quoted(f: Func)
    | InjectedDefault(f: Func)
    | Uninjectable(f: Func)
    | AsyncDependency(f: Func)

  /** A callable that a provider may hold: one as it was written, or its injecting wrapper. */
  datatype Callable = Original(f: Func) | Wrapper(f: Func)

  datatype Result = Ok(callable: Callable) | Err(error: Error)

  // ----- what the graph says -----

  predicate InjectsAt(g: Graph, f: Func, i: nat, provider: Func) {
    f in g && i < |g[f].params| && g[f].params[i].Injected? && g[f].params[i].provider == provider
  }

  /** Whether resolving `a` needs the provider `b`. */
  predicate Edge(g: Graph, a: Func, b: Func) {
    a in g && !g[a].wrapper && exists i :: 0 <= i < |g[a].params| && InjectsAt(g, a, i, b)
  }

  /** Every provider named is a node. */
  predicate Closed(g: Graph) {
    forall f <- g, i :: 0 <= i < |g[f].params| && g[f].params[i].Injected? ==> g[f].params[i].provider in g
  }

  predicate HasDeps(n: Node) {
    exists i :: 0 <= i < |n.params| && n.params[i].Injected?
  }

  predicate HasAsyncDep(g: Graph, n: Node) {
    exists i :: 0 <= i < |n.params| && n.params[i].Injected? && n.params[i].provider in g
             && g[n.params[i].provider].isAsync
  }

  /** Whether an error other than a cycle is true of the function it names. */
  predicate IsFault(g: Graph, e: Error) {
    && !e.Circular? && e.f in g && !g[e.f].wrapper
    && var n := g[e.f];
       match e
       case Postponed(_) => n.postponed
       case Quoted(_) => n.quoted
       case InjectedDefault(_) => exists i :: 0 <= i < |n.params| && n.params[i].Injected? && n.params[i].hasDefault
       case Uninjectable(_) => n.callableObject && HasDeps(n)
       case AsyncDependency(_) => !n.isAsync && HasAsyncDep(g, n)
       case _ => false
  }

  predicate IsPath(g: Graph, p: seq<Func>) {
    |p| >= 1 && forall k :: 0 <= k < |p| - 1 ==> Edge(g, p[k], p[k + 1])
  }

  ghost predicate Reaches(g: Graph, a: Func, b: Func) {
    exists p :: IsPath(g, p) && p[0] == a && p[|p| - 1] == b
  }

  ghost predicate OnCycle(g: Graph, f: Func) {
    exists p :: IsPath(g, p) && |p| >= 2 && p[0] == f && p[|p| - 1] == f
  }

  /** What a failed resolution of `f` says is true: a cycle through a function `f` reaches, or a fault of one. */
  ghost predicate ErrorIsTrue(g: Graph, f: Func, e: Error) {
    Reaches(g, f, e.f) && if e.Circular? then OnCycle(g, e.f) else IsFault(g, e)
  }

  lemma ReachesItself(g: Graph, f: Func)
    ensures Reaches(g, f, f)
  {
    assert IsPath(g, [f]) && [f][0] == f;
  }

  lemma ReachesOver(g: Graph, a: Func, b: Func, c: Func)
    requires Edge(g, a, b) && Reaches(g, b, c)
    ensures Reaches(g, a, c)
  {
    var p :| IsPath(g, p) && p[0] == b && p[|p| - 1] == c;
    var q := [a] + p;
    forall k | 0 <= k < |q| - 1 ensures Edge(g, q[k], q[k + 1]) {
      if k > 0 {
        assert q[k] == p[k - 1] && q[k + 1] == p[k];
      }
    }
    assert IsPath(g, q) && q[0] == a && q[|q| - 1] == c;
  }

  /** The tail of a path from where it meets a function that its end leads to is a cycle. */
  lemma StackCycle(g: Graph, stack: seq<Func>, f: Func)
    requires IsPath(g, stack + [f]) && f in stack
    ensures OnCycle(g, f)
  {
    var all := stack + [f];
    var i :| 0 <= i < |stack| && stack[i] == f;
    var p := all[i..];
    forall k | 0 <= k < |p| - 1 ensures Edge(g, p[k], p[k + 1]) {
      assert p[k] == all[i + k] && p[k + 1] == all[i + k + 1];
    }
    assert IsPath(g, p) && p[0] == f && p[|p| - 1] == f;
  }

  // ----- what `resolved` means -----

  /** Nothing is wrong with a function itself. */
  ghost predicate Faultless(g: Graph, f: Func) {
    forall e: Error :: e.f == f ==> !IsFault(g, e)
  }

  /** A function can come next: nothing is wrong with it, and all it needs is already there. */
  ghost predicate Ready(g: Graph, order: seq<Func>, f: Func) {
    f in g && Faultless(g, f) && forall d :: Edge(g, f, d) ==> d in order
  }

  /** Providers in the order they were resolved: each was ready when it was. */
  ghost predicate Sound(g: Graph, order: seq<Func>) {
    forall i :: 0 <= i < |order| ==> Ready(g, order[..i], order[i])
  }

  lemma SoundAppend(g: Graph, order: seq<Func>, f: Func)
    requires Sound(g, order) && Ready(g, order, f)
    ensures Sound(g, order + [f])
  {
    var all := order + [f];
    forall i | 0 <= i < |all| ensures Ready(g, all[..i], all[i]) {
      if i < |order| {
        assert all[..i] == order[..i];
      } else {
        assert all[..i] == order;
      }
    }
  }

  /** A path that starts among the first resolved providers goes back in their order, step by step. */
  lemma {:induction false} PathDescends(g: Graph, order: seq<Func>, p: seq<Func>, i: nat) returns (j: nat)
    requires Sound(g, order) && IsPath(g, p) && i < |order| && order[i] == p[0]
    ensures j <= i && order[j] == p[|p| - 1] && (|p| >= 2 ==> j < i)
    decreases |p|
  {
    if |p| == 1 {
      return i;
    }
    assert Ready(g, order[..i], order[i]) && Edge(g, p[0], p[1]);
    assert p[1] in order[..i];
    var k :| 0 <= k < i && order[k] == p[1];
    assert IsPath(g, p[1..]) by {
      forall m | 0 <= m < |p[1..]| - 1 ensures Edge(g, p[1..][m], p[1..][m + 1]) {
        assert Edge(g, p[m + 1], p[m + 2]);
      }
    }
    j := PathDescends(g, order, p[1..], k);
  }

  /** The first place a function stands in the order. */
  lemma FirstPlace(order: seq<Func>, f: Func) returns (i: nat)
    requires f in order
    ensures i < |order| && order[i] == f && f !in order[..i]
  {
    i := 0;
    while order[i] != f
      invariant i < |order| && f !in order[..i] && f in order
      decreases |order| - i
    {
      assert order[..i + 1] == order[..i] + [order[i]];
      assert i + 1 < |order| by {
        var k :| 0 <= k < |order| && order[k] == f;
        assert k > i;
      }
      i := i + 1;
    }
  }

  /** No resolved provider is on a cycle, or reaches a fault: all it reaches is resolved. */
  lemma ResolvedIsSound(g: Graph, order: seq<Func>, f: Func)
    requires Sound(g, order) && f in order
    ensures !OnCycle(g, f)
    ensures forall b :: Reaches(g, f, b) ==> b in order && Faultless(g, b)
  {
    var i := FirstPlace(order, f);
    forall p | IsPath(g, p) && |p| >= 2 && p[0] == f ensures p[|p| - 1] != f {
      var j := PathDescends(g, order, p, i);
      assert order[..i][j] == p[|p| - 1];
    }
    forall b | Reaches(g, f, b) ensures b in order && Faultless(g, b) {
      var p :| IsPath(g, p) && p[0] == f && p[|p| - 1] == b;
      var j := PathDescends(g, order, p, i);
      assert Ready(g, order[..j], order[j]);
    }
  }

  /** A function that is ready reaches no cycle and no fault: resolving it was right. */
  lemma ReadyIsSound(g: Graph, order: seq<Func>, f: Func)
    requires Sound(g, order) && Ready(g, order, f)
    ensures forall e: Error :: !ErrorIsTrue(g, f, e)
  {
    SoundAppend(g, order, f);
    var all := order + [f];
    assert f in all;
    ResolvedIsSound(g, all, f);
    forall e: Error ensures !ErrorIsTrue(g, f, e) {
      if Reaches(g, f, e.f) {
        assert e.f in all && Faultless(g, e.f);
        ResolvedIsSound(g, all, e.f);
      }
    }
  }

  lemma PathAppend(g: Graph, p: seq<Func>, f: Func)
    requires IsPath(g, p) && Edge(g, p[|p| - 1], f)
    ensures IsPath(g, p + [f])
  {
  }

  /** Whether a function reaches no cycle. */
  ghost predicate CycleFree(g: Graph, f: Func) {
    forall b :: Reaches(g, f, b) ==> !OnCycle(g, b)
  }

  /** Whether a function reaches no fault but cycles. */
  ghost predicate FaultFree(g: Graph, f: Func) {
    forall e: Error :: Reaches(g, f, e.f) ==> !IsFault(g, e)
  }

  lemma OkIsCycleFree(g: Graph, f: Func)
    requires forall e: Error :: !ErrorIsTrue(g, f, e)
    ensures CycleFree(g, f)
  {
    forall b | Reaches(g, f, b) ensures !OnCycle(g, b) {
      assert !ErrorIsTrue(g, f, Circular(b));
    }
  }

  // ----- the code -----

  predicate ParameterResolved(g: Graph, f: Func, i: nat, resolved: set<Func>)
    requires f in g && i < |g[f].params|
  {
    g[f].params[i].Injected? ==> g[f].params[i].provider in resolved && !g[f].params[i].hasDefault
  }

  /** Whether the first `n` parameters are resolved. */
  predicate ParametersResolved(g: Graph, f: Func, n: nat, resolved: set<Func>)
    requires f in g && n <= |g[f].params|
  {
    forall i :: 0 <= i < n ==> ParameterResolved(g, f, i, resolved)
  }

  lemma OneMoreResolved(g: Graph, f: Func, n: nat, resolved: set<Func>, more: set<Func>)
    requires f in g && n < |g[f].params| && ParametersResolved(g, f, n, resolved) && resolved <= more
    requires ParameterResolved(g, f, n, more)
    ensures ParametersResolved(g, f, n + 1, more)
  {
    forall i | 0 <= i <= n ensures ParameterResolved(g, f, i, more) {
      assert i < n ==> ParameterResolved(g, f, i, resolved);
    }
  }

  lemma AllParametersResolved(g: Graph, f: Func, resolved: set<Func>)
    requires f in g
    requires ParametersResolved(g, f, |g[f].params|, resolved)
    ensures forall d :: Edge(g, f, d) ==> d in resolved
    ensures !IsFault(g, InjectedDefault(f))
  {
    forall d | Edge(g, f, d) ensures d in resolved {
      var i :| 0 <= i < |g[f].params| && InjectsAt(g, f, i, d);
      assert ParameterResolved(g, f, i, resolved) && g[f].params[i].Injected?;
    }
    forall i | 0 <= i < |g[f].params| && g[f].params[i].Injected? ensures !g[f].params[i].hasDefault {
      assert ParameterResolved(g, f, i, resolved);
    }
  }

  function Resolution(g: Graph, f: Func): Callable
    requires f in g
  {
    if g[f].wrapper || !HasDeps(g[f]) then Original(f) else Wrapper(f)
  }

  /**
   * What a provider calls: the injecting wrapper of a function that has parameters to inject, once it is
   * resolved, and otherwise, or if it is such a wrapper already, the function itself.
   */
  lemma ResolutionMeans(g: Graph, order: seq<Func>, f: Func, now: Callable)
    requires f in g && now == if f in order then Resolution(g, f) else Original(f)
    ensures now == Wrapper(f) <==>
            f in order && !g[f].wrapper && exists i :: 0 <= i < |g[f].params| && g[f].params[i].Injected?
    ensures now == Wrapper(f) || now == Original(f)
  {
  }

  /** Every provider, with the flags and callables that resolution updates in place. */
  class Providers {
    const graph: Graph
    var resolved: set<Func>
    var dependency: map<Func, Callable>
    ghost var order: seq<Func>

    constructor (graph: Graph)
      requires Closed(graph)
      ensures this.graph == graph && Valid() && resolved == {}
    {
      this.graph := graph;
      resolved, order := {}, [];
      dependency := map f | f in graph :: Original(f);
    }

    /** A provider is resolved exactly when all it reaches is, and holds its wrapper exactly then. */
    ghost predicate Valid()
      reads this
    {
      && Closed(graph) && Sound(graph, order)
      && (forall f :: f in resolved <==> f in order)
      && dependency.Keys == graph.Keys
      && (forall f <- graph :: dependency[f] == if f in resolved then Resolution(graph, f) else Original(f))
    }

    /**
     * Resolve a function and everything it needs. `resolving` holds what the search has met: what
     * leads here, on the stack, and what is resolved already.
     */
    method ResolveFunction(f: Func, resolving: set<Func>, ghost stack: seq<Func>)
      returns (r: Result, met: set<Func>)
      requires Valid() && f in graph && resolving <= graph.Keys
      requires IsPath(graph, stack + [f]) && (f in resolving ==> f in stack)
      requires forall x :: x in resolving ==> x in stack || x in resolved
      modifies this
      ensures Valid() && resolving <= met <= graph.Keys && old(resolved) <= resolved
      ensures r.Ok? ==> r.callable == Resolution(graph, f) && Ready(graph, order, f)
      ensures r.Ok? ==> forall x :: x in met ==> x in stack || x == f || x in resolved
      ensures r.Err? ==> ErrorIsTrue(graph, f, r.error)
      decreases graph.Keys - resolving, 1
    {
      met := resolving;
      ReachesItself(graph, f);
      if graph[f].wrapper {
        return Ok(Original(f)), met;
      }
      if f in resolving {
        StackCycle(graph, stack, f);
        return Err(Circular(f)), met;
      }
      met := met + {f};
      if graph[f].postponed {
        assert IsFault(graph, Postponed(f));
        return Err(Postponed(f)), met;
      }
      if graph[f].quoted {
        assert IsFault(graph, Quoted(f));
        return Err(Quoted(f)), met;
      }
      var failed: Option<Error>;
      failed, met := ResolveParameters(f, met, stack + [f]);
      if failed.Some? {
        return Err(failed.value), met;
      }
      if graph[f].callableObject && HasDeps(graph[f]) {
        assert IsFault(graph, Uninjectable(f));
        return Err(Uninjectable(f)), met;
      }
      if !graph[f].isAsync && HasAsyncDep(graph, graph[f]) {
        assert IsFault(graph, AsyncDependency(f));
        return Err(AsyncDependency(f)), met;
      }
      r := Ok(if HasDeps(graph[f]) then Wrapper(f) else Original(f));
    }

    /** Give a provider what its dependency resolved to, and mark it. */
    method MarkResolved(p: Func, callable: Callable)
      requires Valid() && p in graph && Ready(graph, order, p) && callable == Resolution(graph, p)
      modifies this
      ensures Valid() && resolved == old(resolved) + {p} && order == old(order) + [p]
    {
      SoundAppend(graph, order, p);
      dependency := dependency[p := callable];
      resolved := resolved + {p};
      order := order + [p];
    }

    /** Resolve one parameter's provider, if it has one and it is not resolved, and mark it. */
    method ResolveParameter(f: Func, i: nat, resolving: set<Func>, ghost stack: seq<Func>)
      returns (failed: Option<Error>, met: set<Func>)
      requires Valid() && f in graph && !graph[f].wrapper && i < |graph[f].params| && resolving <= graph.Keys
      requires IsPath(graph, stack) && stack[|stack| - 1] == f
      requires forall x :: x in resolving ==> x in stack || x in resolved
      modifies this
      ensures Valid() && resolving <= met <= graph.Keys && old(resolved) <= resolved
      ensures failed.None? ==> forall x :: x in met ==> x in stack || x in resolved
      ensures failed.None? ==> ParameterResolved(graph, f, i, resolved)
      ensures failed.Some? ==> ErrorIsTrue(graph, f, failed.value)
      decreases graph.Keys - resolving, 2
    {
      met, failed := resolving, None;
      if graph[f].params[i].Plain? {
        return;
      }
      var p := graph[f].params[i].provider;
      assert InjectsAt(graph, f, i, p) && Edge(graph, f, p);
      if graph[f].params[i].hasDefault {
        ReachesItself(graph, f);
        assert IsFault(graph, InjectedDefault(f));
        return Some(InjectedDefault(f)), met;
      }
      if p !in resolved {
        PathAppend(graph, stack, p);
        var r: Result;
        r, met := ResolveFunction(p, met, stack);
        if r.Err? {
          ReachesOver(graph, f, p, r.error.f);
          return Some(r.error), met;
        }
        MarkResolved(p, r.callable);
      }
    }

    /** Resolve the providers of a function's parameters, in order, until one fails. */
    method ResolveParameters(f: Func, resolving: set<Func>, ghost stack: seq<Func>)
      returns (failed: Option<Error>, met: set<Func>)
      requires Valid() && f in graph && !graph[f].wrapper && resolving <= graph.Keys
      requires IsPath(graph, stack) && stack[|stack| - 1] == f
      requires forall x :: x in resolving ==> x in stack || x in resolved
      modifies this
      ensures Valid() && resolving <= met <= graph.Keys && old(resolved) <= resolved
      ensures failed.None? ==> forall x :: x in met ==> x in stack || x in resolved
      ensures failed.None? ==> forall d :: Edge(graph, f, d) ==> d in order
      ensures failed.None? ==> !IsFault(graph, InjectedDefault(f))
      ensures failed.Some? ==> ErrorIsTrue(graph, f, failed.value)
      decreases graph.Keys - resolving, 3
    {
      met, failed := resolving, None;
      for i := 0 to |graph[f].params|
        invariant Valid() && resolving <= met <= graph.Keys && old(resolved) <= resolved && failed.None?
        invariant forall x :: x in met ==> x in stack || x in resolved
        invariant ParametersResolved(graph, f, i, resolved)
      {
        assert graph.Keys - met <= graph.Keys - resolving;
        ghost var before := resolved;
        failed, met := ResolveParameter(f, i, met, stack);
        if failed.Some? {
          return;
        }
        OneMoreResolved(graph, f, i, before, resolved);
      }
      AllParametersResolved(graph, f, resolved);
    }

    /**
     * Inject a function: it succeeds exactly when it reaches no cycle and no fault, and otherwise
     * says what it found. Whatever happens, providers stay valid, so that the next injection is as
     * exact as the first.
     */
    method Inject(f: Func) returns (r: Result)
      requires Valid() && f in graph
      modifies this
      ensures Valid() && old(resolved) <= resolved
      ensures r.Ok? <==> forall e: Error :: !ErrorIsTrue(graph, f, e)
      ensures r.Ok? ==> r.callable == Resolution(graph, f)
      ensures r == Ok(Wrapper(f)) <==>
              r.Ok? && !graph[f].wrapper && exists i :: 0 <= i < |graph[f].params| && graph[f].params[i].Injected?
      ensures r.Ok? && r != Ok(Wrapper(f)) ==> r == Ok(Original(f))
      ensures r.Err? ==> ErrorIsTrue(graph, f, r.error)
      ensures r.Ok? ==> forall d :: Edge(graph, f, d) ==> d in resolved
      ensures CycleFree(graph, f) ==> !(r.Err? && r.error.Circular?)
      ensures FaultFree(graph, f) ==> ((r.Err? && r.error.Circular?) <==> !CycleFree(graph, f))
    {
      var met: set<Func>;
      r, met := ResolveFunction(f, {}, []);
      if r.Ok? {
        ReadyIsSound(graph, order, f);
        OkIsCycleFree(graph, f);
      } else if r.error.Circular? {
        assert Reaches(graph, f, r.error.f) && OnCycle(graph, r.error.f);
      } else {
        assert Reaches(graph, f, r.error.f) && IsFault(graph, r.error);
      }
    }
  }
}
