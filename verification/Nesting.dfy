/**
 * What a scope's variable holds in each context: the innermost activation there. Setting the variable
 * keeps what it held, ending an activation puts that back, and a forked context starts with a copy.
 *
 * The reference is a stack of activations per context, for the variables of `ParentPinning` and those
 * of `SlotAllocation` alike.
 */
module Nesting {
  import opened Options
  import A = SlotAllocation
  import P = ParentPinning

  /** The activations nested in each context, innermost last. */
  type Nests<K> = map<K, seq<nat>>

  function NestAt<K>(nests: Nests<K>, k: K): seq<nat> {
    if k in nests then nests[k] else []
  }

  function Popped(nest: seq<nat>): seq<nat> {
    if nest == [] then [] else nest[..|nest| - 1]
  }

  /** What each activation that has been current puts back. */
  type Previous = map<nat, Option<nat>>

  /** A variable holds the last of a nest, if any. */
  predicate IsLast<K>(current: map<K, nat>, k: K, nest: seq<nat>) {
    if nest == [] then k !in current else k in current && current[k] == nest[|nest| - 1]
  }

  /** A variable holds the innermost, and each activation puts back the one around it. */
  predicate NestOk<K>(current: map<K, nat>, previous: Previous, k: K, nest: seq<nat>) {
    && IsLast(current, k, nest)
    && forall i :: 0 <= i < |nest| ==> PutsBack(previous, nest, i)
  }

  predicate PutsBack(previous: Previous, nest: seq<nat>, i: nat)
    requires i < |nest|
  {
    nest[i] in previous && previous[nest[i]] == if i == 0 then None else Some(nest[i - 1])
  }

  ghost predicate NestsOk<K(!new)>(current: map<K, nat>, previous: Previous, nests: Nests<K>) {
    forall k :: NestOk(current, previous, k, NestAt(nests, k))
  }

  lemma PreviousGrows<K(!new)>(current: map<K, nat>, previous: Previous, more: Previous, nests: Nests<K>)
    requires NestsOk(current, previous, nests) && forall a <- previous :: a in more && more[a] == previous[a]
    ensures NestsOk(current, more, nests)
  {
    forall k ensures NestOk(current, more, k, NestAt(nests, k)) {
      assert NestOk(current, previous, k, NestAt(nests, k));
      forall i | 0 <= i < |NestAt(nests, k)| ensures PutsBack(more, NestAt(nests, k), i) {
        assert PutsBack(previous, NestAt(nests, k), i);
      }
    }
  }

  lemma SetNest<K>(current: map<K, nat>, previous: Previous, k: K, nest: seq<nat>, a: nat)
    requires NestOk(current, previous, k, nest) && a !in previous
    ensures NestOk(current[k := a], previous[a := if k in current then Some(current[k]) else None], k, nest + [a])
  {
    var more, all := previous[a := if k in current then Some(current[k]) else None], nest + [a];
    forall i | 0 <= i < |all| ensures PutsBack(more, all, i) {
      assert i < |nest| ==> PutsBack(previous, nest, i);
    }
  }

  lemma ResetNest<K>(current: map<K, nat>, previous: Previous, k: K, nest: seq<nat>)
    requires NestOk(current, previous, k, nest) && k in current
    ensures current[k] in previous
    ensures var kept := previous[current[k]];
            NestOk(if kept.Some? then current[k := kept.value] else current - {k}, previous, k, Popped(nest))
  {
    assert PutsBack(previous, nest, |nest| - 1);
    forall i | 0 <= i < |Popped(nest)| ensures PutsBack(previous, Popped(nest), i) {
      assert PutsBack(previous, nest, i);
    }
  }

  /** Setting the variable nests an activation, which keeps what the variable held. */
  lemma SetNests<K(!new)>(current: map<K, nat>, previous: Previous, nests: Nests<K>, k: K, a: nat)
    requires NestsOk(current, previous, nests) && a !in previous
    ensures NestsOk(current[k := a], previous[a := if k in current then Some(current[k]) else None],
                    nests[k := NestAt(nests, k) + [a]])
  {
    var more := previous[a := if k in current then Some(current[k]) else None];
    var after := nests[k := NestAt(nests, k) + [a]];
    forall j ensures NestOk(current[k := a], more, j, NestAt(after, j)) {
      assert NestOk(current, previous, j, NestAt(nests, j));
      if j == k {
        SetNest(current, previous, k, NestAt(nests, k), a);
      } else {
        forall i | 0 <= i < |NestAt(nests, j)| ensures PutsBack(more, NestAt(nests, j), i) {
          assert PutsBack(previous, NestAt(nests, j), i);
        }
      }
    }
  }

  /** Putting back what the innermost kept leaves the one around it. */
  lemma ResetNests<K(!new)>(current: map<K, nat>, previous: Previous, nests: Nests<K>, k: K)
    requires NestsOk(current, previous, nests) && k in current
    ensures current[k] in previous
    ensures var kept := previous[current[k]];
            NestsOk(if kept.Some? then current[k := kept.value] else current - {k}, previous,
                    nests[k := Popped(NestAt(nests, k))])
  {
    assert NestOk(current, previous, k, NestAt(nests, k));
    ResetNest(current, previous, k, NestAt(nests, k));
    var kept := previous[current[k]];
    var left := if kept.Some? then current[k := kept.value] else current - {k};
    var after := nests[k := Popped(NestAt(nests, k))];
    forall j ensures NestOk(left, previous, j, NestAt(after, j)) {
      assert NestOk(current, previous, j, NestAt(nests, j));
    }
  }

  /** A variable that holds what another held is nested as that one. */
  lemma CopyNests<K(!new)>(
    current: map<K, nat>, previous: Previous, nests: Nests<K>, copied: map<K, nat>, after: Nests<K>, source: K -> K
  )
    requires NestsOk(current, previous, nests)
    requires forall k :: NestAt(after, k) == NestAt(nests, source(k))
    requires forall k :: (k in copied <==> source(k) in current) && (k in copied ==> copied[k] == current[source(k)])
    ensures NestsOk(copied, previous, after)
  {
    forall k ensures NestOk(copied, previous, k, NestAt(after, k)) {
      assert NestOk(current, previous, source(k), NestAt(nests, source(k)));
    }
  }

  // ----- the variable of a scope with cached functions -----

  function ActivationNests(shared: bool, nests: Nests<A.Context>, l: A.Label): Nests<A.Context> {
    match l
    case Activate(a, c) =>
      var k := A.Seat(shared, c);
      nests[k := NestAt(nests, k) + [a]]
    case End(c) =>
      var k := A.Seat(shared, c);
      nests[k := Popped(NestAt(nests, k))]
    case Fork(from, into) => nests[into := NestAt(nests, from)]
    case _ => nests
  }

  /** The activations nested in each context after some steps, as those steps alone say. */
  function AllNests(shared: bool, nests: Nests<A.Context>, labels: seq<A.Label>): Nests<A.Context>
    decreases |labels|
  {
    if labels == [] then nests else AllNests(shared, ActivationNests(shared, nests, labels[0]), labels[1..])
  }

  lemma StepKeepsNests(shared: bool, s: A.World, nests: Nests<A.Context>, l: A.Label)
    requires A.Inv(shared, s) && A.Enabled(shared, s, l) && NestsOk(s.current, s.previous, nests)
    requires forall a :: a in s.previous ==> A.Known(s, a)
    ensures var t := A.Step(shared, s, l);
            && NestsOk(t.current, t.previous, ActivationNests(shared, nests, l))
            && forall a :: a in t.previous ==> A.Known(t, a)
  {
    match l
    case Activate(a, c) => SetNests(s.current, s.previous, nests, A.Seat(shared, c), a);
    case End(c) => ResetNests(s.current, s.previous, nests, A.Seat(shared, c));
    case Fork(from, into) =>
      CopyNests<A.Context>(s.current, s.previous, nests, A.Step(shared, s, l).current,
                           ActivationNests(shared, nests, l), (k: A.Context) => if k == into then from else k);
    case Create(w) =>
    case Drop(w, c) =>
    case Store(w, a, payload) =>
  }

  lemma {:induction false} RunKeepsNests(shared: bool, s: A.World, nests: Nests<A.Context>, labels: seq<A.Label>)
    requires A.Inv(shared, s) && A.Runs(shared, s, labels) && NestsOk(s.current, s.previous, nests)
    requires forall a :: a in s.previous ==> A.Known(s, a)
    ensures var t := A.Run(shared, s, labels); NestsOk(t.current, t.previous, AllNests(shared, nests, labels))
    decreases |labels|
  {
    if labels != [] {
      A.StepKeepsInv(shared, s, labels[0]);
      StepKeepsNests(shared, s, nests, labels[0]);
      RunKeepsNests(shared, A.Step(shared, s, labels[0]), ActivationNests(shared, nests, labels[0]), labels[1..]);
    }
  }

  /** In every run a context sees the innermost activation there, so that an end goes back to the one around it. */
  lemma SeesInnermost(shared: bool, labels: seq<A.Label>, c: A.Context)
    requires A.Runs(shared, A.Initial, labels)
    ensures var nest := NestAt(AllNests(shared, map[], labels), A.Seat(shared, c));
            A.Current(shared, A.Run(shared, A.Initial, labels), c) ==
              if nest == [] then None else Some(nest[|nest| - 1])
  {
    RunKeepsNests(shared, A.Initial, map[], labels);
    var t := A.Run(shared, A.Initial, labels);
    var k := A.Seat(shared, c);
    assert NestOk(t.current, t.previous, k, NestAt(AllNests(shared, map[], labels), k));
  }

  // ----- the variables of scopes that require others -----

  type Variable = (P.Scope, P.Context)

  /** Which activation becomes current is in the state, as is of which scope and where. */
  function ScopeNests(scopes: P.Scopes, s: P.State, nests: Nests<Variable>, l: P.Label): Nests<Variable>
    requires P.ValidScopes(scopes) && P.Enabled(scopes, s, l)
  {
    match l
    case Publish(a) =>
      var k := (s.acts[a].scope, s.acts[a].context);
      if scopes[k.0].shared then nests else nests[k := NestAt(nests, k) + [a]]
    case End(x, c) => if scopes[x].shared then nests else nests[(x, c) := Popped(NestAt(nests, (x, c)))]
    case Fork(from, into) => Forked(nests, from, into)
    case _ => nests
  }

  function Forked(nests: Nests<Variable>, from: P.Context, into: P.Context): Nests<Variable> {
    (map k | k in nests && k.1 != into :: nests[k])
    + map x | x in ScopesIn(nests, from) :: (x, into) := nests[(x, from)]
  }

  function ScopesIn(nests: Nests<Variable>, c: P.Context): set<P.Scope> {
    set k | k in nests && k.1 == c :: k.0
  }

  function AllScopeNests(scopes: P.Scopes, s: P.State, nests: Nests<Variable>, labels: seq<P.Label>): Nests<Variable>
    requires P.ValidScopes(scopes) && P.Runs(scopes, s, labels)
    decreases |labels|
  {
    if labels == [] then nests
    else AllScopeNests(scopes, P.Step(scopes, s, labels[0]), ScopeNests(scopes, s, nests, labels[0]), labels[1..])
  }

  /** What the activations that were ever current put back. */
  function Kept(acts: map<P.ActId, P.Activation>): Previous {
    map a | a in acts && !acts[a].phase.Pinned? :: acts[a].previous
  }

  lemma StepKeepsKept(scopes: P.Scopes, s: P.State, l: P.Label)
    requires P.ValidScopes(scopes) && P.Enabled(scopes, s, l)
    ensures var kept := Kept(P.Step(scopes, s, l).acts);
            forall a <- Kept(s.acts) :: a in kept && kept[a] == Kept(s.acts)[a]
  {
  }

  lemma PublishKeepsNests(scopes: P.Scopes, s: P.State, nests: Nests<Variable>, a: P.ActId)
    requires P.ValidScopes(scopes) && P.Enabled(scopes, s, P.Publish(a)) && NestsOk(s.context, Kept(s.acts), nests)
    ensures var t := P.Step(scopes, s, P.Publish(a));
            NestsOk(t.context, Kept(t.acts), ScopeNests(scopes, s, nests, P.Publish(a)))
  {
    var t := P.Step(scopes, s, P.Publish(a));
    var k := (s.acts[a].scope, s.acts[a].context);
    if scopes[k.0].shared {
      StepKeepsKept(scopes, s, P.Publish(a));
      PreviousGrows(s.context, Kept(s.acts), Kept(t.acts), nests);
    } else {
      SetNests(s.context, Kept(s.acts), nests, k, a);
      assert Kept(t.acts) == Kept(s.acts)[a := if k in s.context then Some(s.context[k]) else None];
    }
  }

  lemma EndKeepsNests(scopes: P.Scopes, s: P.State, nests: Nests<Variable>, x: P.Scope, c: P.Context)
    requires P.ValidScopes(scopes) && P.Enabled(scopes, s, P.End(x, c)) && NestsOk(s.context, Kept(s.acts), nests)
    ensures var t := P.Step(scopes, s, P.End(x, c));
            NestsOk(t.context, Kept(t.acts), ScopeNests(scopes, s, nests, P.End(x, c)))
  {
    var t := P.Step(scopes, s, P.End(x, c));
    if scopes[x].shared {
      StepKeepsKept(scopes, s, P.End(x, c));
      PreviousGrows(s.context, Kept(s.acts), Kept(t.acts), nests);
    } else {
      ResetNests(s.context, Kept(s.acts), nests, (x, c));
      assert Kept(t.acts) == Kept(s.acts);
    }
  }

  lemma ForkKeepsNests(scopes: P.Scopes, s: P.State, nests: Nests<Variable>, from: P.Context, into: P.Context)
    requires P.ValidScopes(scopes) && P.Enabled(scopes, s, P.Fork(from, into))
    requires NestsOk(s.context, Kept(s.acts), nests)
    ensures var t := P.Step(scopes, s, P.Fork(from, into));
            NestsOk(t.context, Kept(t.acts), Forked(nests, from, into))
  {
    var t := P.Step(scopes, s, P.Fork(from, into));
    var source := (k: Variable) => if k.1 == into then (k.0, from) else k;
    forall k: Variable
      ensures NestAt(Forked(nests, from, into), k) == NestAt(nests, source(k))
      ensures (k in t.context <==> source(k) in s.context) && (k in t.context ==> t.context[k] == s.context[source(k)])
    {
      ForkedAt(s, nests, from, into, k);
    }
    CopyNests(s.context, Kept(s.acts), nests, t.context, Forked(nests, from, into), source);
  }

  lemma ForkedAt(s: P.State, nests: Nests<Variable>, from: P.Context, into: P.Context, k: Variable)
    requires forall j :: j in s.context ==> j.1 != into
    requires NestsOk(s.context, Kept(s.acts), nests)
    ensures var source := if k.1 == into then (k.0, from) else k;
            var copied := P.Copied(s, from, into).context;
            && NestAt(Forked(nests, from, into), k) == NestAt(nests, source)
            && (k in copied <==> source in s.context) && (k in copied ==> copied[k] == s.context[source])
  {
    if k.1 == into {
      assert (k.0, from) in nests <==> k.0 in ScopesIn(nests, from);
      assert (k.0, from) in s.context <==> k.0 in P.InContext(s, from);
    }
  }

  lemma StepKeepsScopeNests(scopes: P.Scopes, s: P.State, nests: Nests<Variable>, l: P.Label)
    requires P.ValidScopes(scopes) && P.Enabled(scopes, s, l) && NestsOk(s.context, Kept(s.acts), nests)
    ensures var t := P.Step(scopes, s, l); NestsOk(t.context, Kept(t.acts), ScopeNests(scopes, s, nests, l))
  {
    match l
    case Publish(a) => PublishKeepsNests(scopes, s, nests, a);
    case End(x, c) => EndKeepsNests(scopes, s, nests, x, c);
    case Fork(from, into) => ForkKeepsNests(scopes, s, nests, from, into);
    case _ =>
      StepKeepsKept(scopes, s, l);
      PreviousGrows(s.context, Kept(s.acts), Kept(P.Step(scopes, s, l).acts), nests);
  }

  lemma {:induction false} RunKeepsScopeNests(
    scopes: P.Scopes, s: P.State, nests: Nests<Variable>, labels: seq<P.Label>
  )
    requires P.ValidScopes(scopes) && P.Runs(scopes, s, labels) && NestsOk(s.context, Kept(s.acts), nests)
    ensures var t := P.Run(scopes, s, labels);
            NestsOk(t.context, Kept(t.acts), AllScopeNests(scopes, s, nests, labels))
    decreases |labels|
  {
    if labels != [] {
      StepKeepsScopeNests(scopes, s, nests, labels[0]);
      RunKeepsScopeNests(scopes, P.Step(scopes, s, labels[0]), ScopeNests(scopes, s, nests, labels[0]), labels[1..]);
    }
  }

  /** And so it is of every scope's variable among scopes that require others. */
  lemma VariableIsInnermost(scopes: P.Scopes, labels: seq<P.Label>, k: Variable)
    requires P.ValidScopes(scopes) && P.Runs(scopes, P.Initial, labels)
    ensures IsLast(P.Run(scopes, P.Initial, labels).context, k,
                   NestAt(AllScopeNests(scopes, P.Initial, map[], labels), k))
  {
    NothingNested();
    RunKeepsScopeNests(scopes, P.Initial, map[], labels);
    InnermostOf(P.Run(scopes, P.Initial, labels), AllScopeNests(scopes, P.Initial, map[], labels), k);
  }

  lemma NothingNested()
    ensures NestsOk(P.Initial.context, Kept(P.Initial.acts), map[])
  {
  }

  lemma InnermostOf(s: P.State, nests: Nests<Variable>, k: Variable)
    requires NestsOk(s.context, Kept(s.acts), nests)
    ensures IsLast(s.context, k, NestAt(nests, k))
  {
    assert NestOk(s.context, Kept(s.acts), k, NestAt(nests, k));
  }
}
