/**
 * Activating and deactivating scopes in place, one call at a time.
 *
 * The methods follow the calls of one thread from start to end, and are tied to the steps of
 * `ParentPinning`, so what every interleaving keeps, they keep.
 */
module ScopeRuntime {
  import opened Options
  import opened ParentPinning

  datatype Refusal =
    | RequiredScopeInactive
    | ScopeAlreadyActive
    | NothingToDeactivate
    | DependentScopeActive
    | AlreadyDeactivated
    | WrongContext

  class Runtime {
    const scopes: Scopes
    var acts: map<ActId, Activation>
    var shared: map<Scope, ActId>
    var context: map<(Scope, Context), ActId>

    function Value(): State
      reads this
    {
      State(acts, shared, context)
    }

    ghost predicate Valid()
      reads this
    {
      ValidScopes(scopes) && Inv(scopes, Value())
    }

    constructor (scopes: Scopes)
      requires ValidScopes(scopes)
      ensures Valid() && Value() == Initial && this.scopes == scopes
    {
      this.scopes := scopes;
      acts, shared, context := map[], map[], map[];
    }

    /** The storage of the required parent, if any; `None` if that is not active. */
    method FindParent(x: Scope, c: Context) returns (parent: Option<Option<ActId>>)
      requires Valid() && x in scopes
      ensures parent == ParentOf(scopes, Value(), x, c)
    {
      if scopes[x].parent.None? {
        return Some(None);
      }
      var held := Current(scopes, Value(), scopes[x].parent.value, c);
      if held.None? || !Full(Value(), held.value) {
        return None;
      }
      return Some(held);
    }

    method CountUp(parent: Option<ActId>)
      requires parent.Some? ==> parent.value in acts
      modifies this`acts
      ensures acts == Counted(old(acts), parent, 1)
    {
      if parent.Some? {
        acts := acts[parent.value := acts[parent.value].(count := acts[parent.value].count + 1)];
      }
    }

    /** Count a new activation against its required parent, if that is active. */
    method PinParent(a: ActId, x: Scope, c: Context) returns (pinned: bool)
      requires Valid() && a !in acts && x in scopes
      modifies this
      ensures Valid()
      ensures pinned == old(ParentOf(scopes, Value(), x, c)).Some?
      ensures Value() == if pinned then old(PinStep(scopes, Value(), a, x, c)) else old(Value())
    {
      var found := FindParent(x, c);
      if found.None? {
        return false;
      }
      PinKeepsInv(scopes, Value(), a, x, c);
      ghost var after := PinStep(scopes, Value(), a, x, c);
      CountUp(found.value);
      acts := acts[a := Activation(x, c, found.value, Pinned, 0, None)];
      assert Value() == after;
      return true;
    }

    /** Set the scope's variable to a new storage; a shared variable that is set already refuses. */
    method SetCurrent(a: ActId) returns (current: bool)
      requires Valid() && a in acts && acts[a].phase.Pinned? && acts[a].scope in scopes
      modifies this
      ensures Valid()
      ensures current == !(scopes[old(acts)[a].scope].shared && old(acts)[a].scope in old(shared))
      ensures Value() == old(PublishStep(scopes, Value(), a))
    {
      PublishKeepsInv(scopes, Value(), a);
      var act := acts[a];
      if scopes[act.scope].shared {
        if act.scope in shared {
          acts := acts[a := act.(phase := Undoing)];
          return false;
        }
        shared := shared[act.scope := a];
        acts := acts[a := act.(phase := Active)];
      } else {
        var slot := (act.scope, act.context);
        acts := acts[a := act.(phase := Active, previous := if slot in context then Some(context[slot]) else None)];
        context := context[slot := a];
      }
      return true;
    }

    /** Stop counting an abandoned or closed activation against its parent's storage. */
    method LetGo(a: ActId, phase: Phase)
      requires Valid() && a in acts
      requires (acts[a].phase.Undoing? && phase.Abandoned?) || (acts[a].phase.Closing? && phase.Released?)
      modifies this
      ensures Valid() && Value() == old(Unpin(Value(), a, phase))
    {
      UnpinKeepsInv(scopes, Value(), a, phase);
      assert ActInv(scopes, acts, acts[a]);
      var parent := acts[a].parent;
      acts := acts[a := acts[a].(phase := phase)];
      if parent.Some? {
        acts := acts[parent.value := acts[parent.value].(count := acts[parent.value].count - 1)];
      }
    }

    /**
     * Activate a scope under the new storage `a`. Activation pins the parent first, and lets go of
     * it if the scope turns out to be active already.
     */
    method Activate(a: ActId, x: Scope, c: Context) returns (refused: Option<Refusal>)
      requires Valid() && a !in acts && x in scopes
      modifies this
      ensures Valid()
      ensures refused == Some(RequiredScopeInactive) <==> old(ParentOf(scopes, Value(), x, c)).None?
      ensures refused == Some(RequiredScopeInactive) ==> Value() == old(Value())
      ensures refused == Some(ScopeAlreadyActive) <==>
        old(ParentOf(scopes, Value(), x, c)).Some? && scopes[x].shared && x in old(shared)
      ensures refused == Some(ScopeAlreadyActive) ==>
        && shared == old(shared) && context == old(context) && acts.Keys == old(acts).Keys + {a}
        && forall b :: b in old(acts) ==> acts[b] == old(acts)[b]
      ensures refused.None? ==> Value() == old(PublishStep(scopes, PinStep(scopes, Value(), a, x, c), a))
      ensures refused.None? || refused.value in {RequiredScopeInactive, ScopeAlreadyActive}
    {
      ghost var before := Value();
      var pinned := PinParent(a, x, c);
      if !pinned {
        return Some(RequiredScopeInactive);
      }
      var current := SetCurrent(a);
      if !current {
        ParentIsActive(scopes, before, x, c);
        RefusalUndone(scopes, before, a, x, c);
        LetGo(a, Abandoned);
        return Some(ScopeAlreadyActive);
      }
      return None;
    }

    /** Check that the current activation may end here. An expected activation must be the current one. */
    method CheckEnd(expected: Option<ActId>, x: Scope, c: Context) returns (refused: Option<Refusal>)
      requires Valid() && x in scopes && (expected.Some? ==> expected.value in acts)
      ensures refused.None? <==>
        && Enabled(scopes, Value(), End(x, c))
        && (expected.Some? ==> expected == Current(scopes, Value(), x, c))
      ensures refused == Some(AlreadyDeactivated) <==>
        expected.Some? && expected != Current(scopes, Value(), x, c) && !Full(Value(), expected.value)
      ensures refused == Some(NothingToDeactivate) <==>
        && (expected.Some? ==> expected == Current(scopes, Value(), x, c))
        && !Ready(scopes, Value(), x, c)
      ensures refused == Some(DependentScopeActive) <==>
        && (expected.Some? ==> expected == Current(scopes, Value(), x, c))
        && Ready(scopes, Value(), x, c) && Pinners(acts, Current(scopes, Value(), x, c).value) != {}
      ensures refused == Some(WrongContext) <==>
        || (expected.Some? && expected != Current(scopes, Value(), x, c) && Full(Value(), expected.value))
        || (&& (expected.Some? ==> expected == Current(scopes, Value(), x, c))
            && Ready(scopes, Value(), x, c) && Pinners(acts, Current(scopes, Value(), x, c).value) == {}
            && !scopes[x].shared && acts[Current(scopes, Value(), x, c).value].context != c)
    {
      var current := Current(scopes, Value(), x, c);
      if expected.Some? && current != expected {
        return Some(if Full(Value(), expected.value) then WrongContext else AlreadyDeactivated);
      }
      if current.None? || !Full(Value(), current.value) {
        return Some(NothingToDeactivate);
      }
      var a := current.value;
      assert acts[a].count == |Pinners(acts, a)|;
      if acts[a].count > 0 {
        return Some(DependentScopeActive);
      }
      if !scopes[x].shared && acts[a].context != c {
        return Some(WrongContext);
      }
      return None;
    }

    /** Reset the scope's variable and empty the storage it held. */
    method Retire(a: ActId, x: Scope, c: Context)
      requires Valid() && Enabled(scopes, Value(), End(x, c)) && Current(scopes, Value(), x, c) == Some(a)
      modifies this
      ensures Valid() && Value() == Moved(old(EndStep(scopes, Value(), x, c)), a, Closing)
    {
      ghost var before := Value();
      RetiredIs(scopes, before, x, c);
      EndAndEmptyKeepsInv(scopes, before, x, c);
      acts := acts[a := acts[a].(phase := Closing)];
      if scopes[x].shared {
        shared := shared - {x};
      } else if acts[a].previous.Some? {
        context := context[(x, c) := acts[a].previous.value];
      } else {
        context := context - {(x, c)};
      }
      assert Value() == Moved(EndStep(scopes, before, x, c), a, Closing);
    }

    /**
     * End an activation, close its resources, and stop counting it against its parent. Nothing else
     * changes: no other storage, and only the parent's count.
     */
    method Deactivate(expected: Option<ActId>, x: Scope, c: Context) returns (refused: Option<Refusal>)
      requires Valid() && x in scopes && (expected.Some? ==> expected.value in acts)
      modifies this
      ensures Valid()
      ensures refused.Some? ==> Value() == old(Value())
      ensures refused.None? <==>
        && old(Enabled(scopes, Value(), End(x, c)))
        && (expected.Some? ==> expected == old(Current(scopes, Value(), x, c)))
      ensures refused.None? ==>
        var a := old(Current(scopes, Value(), x, c)).value;
        a in old(acts) && Value() == Unpin(Moved(old(EndStep(scopes, Value(), x, c)), a, Closing), a, Released)
    {
      refused := CheckEnd(expected, x, c);
      if refused.None? {
        var a := Current(scopes, Value(), x, c).value;
        Retire(a, x, c);
        LetGo(a, Released);
      }
    }
  }

  /** Whether the scope's variable holds a storage that is not emptied. */
  predicate Ready(scopes: Scopes, s: State, x: Scope, c: Context)
    requires x in scopes
  {
    Current(scopes, s, x, c).Some? && Full(s, Current(scopes, s, x, c).value)
  }

  /** What a deactivation leaves: the activation is over, and of the others only its parent's count changed. */
  lemma DeactivationChanges(scopes: Scopes, s: State, x: Scope, c: Context)
    requires ValidScopes(scopes) && Inv(scopes, s) && Enabled(scopes, s, End(x, c))
    ensures var a := Current(scopes, s, x, c).value;
            var t := Unpin(Moved(EndStep(scopes, s, x, c), a, Closing), a, Released);
            && t.acts[a].phase.Released?
            && t.acts.Keys == s.acts.Keys
            && forall b :: b in s.acts && b != a ==>
                 t.acts[b] == s.acts[b].(count := s.acts[b].count - if s.acts[a].parent == Some(b) then 1 else 0)
  {
    var a := Current(scopes, s, x, c).value;
    var closing := Moved(EndStep(scopes, s, x, c), a, Closing);
    assert ActInv(scopes, s.acts, s.acts[a]);
    CountedMeans(Moved(closing, a, Released).acts, s.acts[a].parent, -1);
  }

  lemma EndAndEmptyKeepsInv(scopes: Scopes, s: State, x: Scope, c: Context)
    requires ValidScopes(scopes) && Inv(scopes, s) && Enabled(scopes, s, End(x, c))
    ensures var a := Current(scopes, s, x, c).value;
            var ended := EndStep(scopes, s, x, c);
            a in ended.acts && Inv(scopes, Moved(ended, a, Closing))
  {
    EndKeepsInv(scopes, s, x, c);
    EmptyingKeepsInv(scopes, EndStep(scopes, s, x, c), Current(scopes, s, x, c).value);
  }

  lemma RetiredIs(scopes: Scopes, s: State, x: Scope, c: Context)
    requires ValidScopes(scopes) && Enabled(scopes, s, End(x, c))
    ensures var a := Current(scopes, s, x, c).value;
            var previous := s.acts[a].previous;
            var t := Moved(EndStep(scopes, s, x, c), a, Closing);
            && t.acts == s.acts[a := s.acts[a].(phase := Closing)]
            && t.shared == (if scopes[x].shared then s.shared - {x} else s.shared)
            && t.context == (if scopes[x].shared then s.context
                             else if previous.Some? then s.context[(x, c) := previous.value]
                             else s.context - {(x, c)})
  {
  }

  lemma EmptyingKeepsInv(scopes: Scopes, s: State, a: ActId)
    requires Inv(scopes, s) && a in s.acts && (s.acts[a].phase.Detached? || s.acts[a].phase.Closing?)
    ensures Inv(scopes, Moved(s, a, Closing))
  {
    if s.acts[a].phase.Detached? {
      EmptyKeepsInv(scopes, s, a);
    } else {
      assert Moved(s, a, Closing) == s;
    }
  }
}
