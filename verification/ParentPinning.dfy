/**
 * Scope activations that pin their parent's storage, as steps of interleaved threads.
 *
 * What a thread does while it holds a scope's lock is one step. A shared scope is ended under
 * its lock, then emptied, then closed, then released from its parent, with other threads in
 * between. A context scope is used by one thread at a time, so it is ended and emptied at once.
 */
module ParentPinning {
  import opened Options

  type Scope = nat
  type ActId = nat
  type Context = nat

  /** A scope's isolation and the scope it requires. A shared scope only requires shared ones. */
  datatype ScopeInfo = ScopeInfo(shared: bool, parent: Option<Scope>)

  type Scopes = map<Scope, ScopeInfo>

  predicate ValidScopes(scopes: Scopes) {
    forall x :: x in scopes && scopes[x].parent.Some? ==>
      scopes[x].parent.value in scopes && (scopes[x].shared ==> scopes[scopes[x].parent.value].shared)
  }

  /**
   * Where an activation is: it has counted itself against its parent (`Pinned`), failed to become
   * current (`Undoing`, `Abandoned`), is current (`Active`), is no longer current (`Detached`), has
   * been emptied and is closing its resources (`Closing`), or has stopped counting (`Released`).
   */
  datatype Phase = Pinned | Undoing | Abandoned | Active | Detached | Closing | Released

  /** `count` is the storage's live-dependent count; `previous` is what the reset token restores. */
  datatype Activation = Activation(
    scope: Scope, context: Context, parent: Option<ActId>, phase: Phase, count: int, previous: Option<ActId>)

  /** The activations, each shared scope's current one, and each context's view of the others. */
  datatype State = State(
    acts: map<ActId, Activation>,
    shared: map<Scope, ActId>,
    context: map<(Scope, Context), ActId>
  )

  const Initial := State(map[], map[], map[])

  datatype Label =
    | Pin(a: ActId, scope: Scope, context: Context)
    | Publish(a: ActId)
    | Undo(a: ActId)
    | End(scope: Scope, context: Context)
    | Empty(a: ActId)
    | Release(a: ActId)
    | Fork(from: Context, into: Context)

  /** The storage a scope's variable holds in a context. */
  function Current(scopes: Scopes, s: State, x: Scope, c: Context): Option<ActId>
    requires x in scopes
  {
    if scopes[x].shared then if x in s.shared then Some(s.shared[x]) else None
    else if (x, c) in s.context then Some(s.context[(x, c)]) else None
  }

  /** A storage is non-empty from its creation until its activation is emptied. */
  predicate Full(s: State, a: ActId) {
    a in s.acts && (s.acts[a].phase.Active? || s.acts[a].phase.Detached?)
  }

  /** The parent's storage a new activation would pin; `None` if a required parent isn't active. */
  function ParentOf(scopes: Scopes, s: State, x: Scope, c: Context): Option<Option<ActId>>
    requires ValidScopes(scopes) && x in scopes
  {
    match scopes[x].parent
    case None => Some(None)
    case Some(p) =>
      var current := Current(scopes, s, p, c);
      if current.Some? && Full(s, current.value) then Some(current) else None
  }

  function Counted(acts: map<ActId, Activation>, p: Option<ActId>, delta: int): map<ActId, Activation> {
    if p.Some? && p.value in acts then acts[p.value := acts[p.value].(count := acts[p.value].count + delta)] else acts
  }

  function Moved(s: State, a: ActId, phase: Phase): State
    requires a in s.acts
  {
    s.(acts := s.acts[a := s.acts[a].(phase := phase)])
  }

  predicate Enabled(scopes: Scopes, s: State, l: Label)
    requires ValidScopes(scopes)
  {
    match l
    case Pin(a, x, c) => a !in s.acts && x in scopes && ParentOf(scopes, s, x, c).Some?
    case Publish(a) => a in s.acts && s.acts[a].phase.Pinned? && s.acts[a].scope in scopes
    case Undo(a) => a in s.acts && s.acts[a].phase.Undoing?
    case End(x, c) =>
      x in scopes && Current(scopes, s, x, c).Some?
      && var a := Current(scopes, s, x, c).value;
         Full(s, a) && s.acts[a].count == 0 && (!scopes[x].shared ==> s.acts[a].context == c)
    case Empty(a) => a in s.acts && s.acts[a].phase.Detached?
    case Release(a) => a in s.acts && s.acts[a].phase.Closing?
    case Fork(from, into) => forall k :: k in s.context ==> k.1 != into
  }

  function PinStep(scopes: Scopes, s: State, a: ActId, x: Scope, c: Context): State
    requires ValidScopes(scopes) && x in scopes && ParentOf(scopes, s, x, c).Some?
  {
    var parent := ParentOf(scopes, s, x, c).value;
    s.(acts := Counted(s.acts, parent, 1)[a := Activation(x, c, parent, Pinned, 0, None)])
  }

  /** Become the scope's current activation; a shared scope that already has one refuses. */
  function PublishStep(scopes: Scopes, s: State, a: ActId): State
    requires a in s.acts && s.acts[a].scope in scopes
  {
    var act := s.acts[a];
    if scopes[act.scope].shared then
      if act.scope in s.shared then Moved(s, a, Undoing)
      else Moved(s, a, Active).(shared := s.shared[act.scope := a])
    else
      var slot := (act.scope, act.context);
      State(s.acts[a := act.(phase := Active, previous := if slot in s.context then Some(s.context[slot]) else None)],
            s.shared, s.context[slot := a])
  }

  function EndStep(scopes: Scopes, s: State, x: Scope, c: Context): State
    requires x in scopes && Current(scopes, s, x, c).Some? && Current(scopes, s, x, c).value in s.acts
  {
    var a := Current(scopes, s, x, c).value;
    if scopes[x].shared then Moved(s, a, Detached).(shared := s.shared - {x})
    else
      var previous := s.acts[a].previous;
      Moved(s, a, Closing).(
        context := if previous.Some? then s.context[(x, c) := previous.value] else s.context - {(x, c)})
  }

  /** Stop counting an activation against its parent's storage. */
  function Unpin(s: State, a: ActId, phase: Phase): State
    requires a in s.acts
  {
    var moved := Moved(s, a, phase);
    moved.(acts := Counted(moved.acts, s.acts[a].parent, -1))
  }

  function Copied(s: State, from: Context, into: Context): State {
    s.(context := s.context + map x | x in InContext(s, from) :: (x, into) := s.context[(x, from)])
  }

  function InContext(s: State, c: Context): set<Scope> {
    set k | k in s.context && k.1 == c :: k.0
  }

  function Step(scopes: Scopes, s: State, l: Label): State
    requires ValidScopes(scopes) && Enabled(scopes, s, l)
  {
    match l
    case Pin(a, x, c) => PinStep(scopes, s, a, x, c)
    case Publish(a) => PublishStep(scopes, s, a)
    case Undo(a) => Unpin(s, a, Abandoned)
    case End(x, c) => EndStep(scopes, s, x, c)
    case Empty(a) => Moved(s, a, Closing)
    case Release(a) => Unpin(s, a, Released)
    case Fork(from, into) => Copied(s, from, into)
  }

  predicate Runs(scopes: Scopes, s: State, labels: seq<Label>)
    requires ValidScopes(scopes)
    decreases |labels|
  {
    labels == [] || (Enabled(scopes, s, labels[0]) && Runs(scopes, Step(scopes, s, labels[0]), labels[1..]))
  }

  function Run(scopes: Scopes, s: State, labels: seq<Label>): State
    requires ValidScopes(scopes) && Runs(scopes, s, labels)
    decreases |labels|
  {
    if labels == [] then s else Run(scopes, Step(scopes, s, labels[0]), labels[1..])
  }

  // ----- what every step keeps -----

  /** The activation still counts against its parent. */
  predicate Holds(act: Activation) {
    !act.phase.Released? && !act.phase.Abandoned?
  }

  /** The child activations, complete or half-done, that pinned `p` and have not let go. */
  function Pinners(acts: map<ActId, Activation>, p: ActId): set<ActId> {
    set a | a in acts && acts[a].parent == Some(p) && Holds(acts[a])
  }

  ghost predicate CountInv(acts: map<ActId, Activation>) {
    forall p :: p in acts ==> acts[p].count == |Pinners(acts, p)|
  }

  predicate Published(phase: Phase) {
    phase.Active? || phase.Closing? || phase.Released?
  }

  /** A parent that is still held is the current activation of its scope. */
  ghost predicate ParentHeld(acts: map<ActId, Activation>, act: Activation) {
    Holds(act) && act.parent.Some? ==> act.parent.value in acts && acts[act.parent.value].phase.Active?
  }

  /** What a context variable can hold: a published activation of its own, context-isolated scope. */
  ghost predicate Visible(scopes: Scopes, acts: map<ActId, Activation>, a: ActId, x: Scope) {
    a in acts && acts[a].scope == x && Published(acts[a].phase) && x in scopes && !scopes[x].shared
  }

  ghost predicate ActInv(scopes: Scopes, acts: map<ActId, Activation>, act: Activation) {
    && act.scope in scopes
    && ParentHeld(acts, act)
    && (act.phase.Detached? || act.phase.Undoing? ==> scopes[act.scope].shared)
    && (act.previous.Some? ==> Visible(scopes, acts, act.previous.value, act.scope))
  }

  ghost predicate SharedInv(scopes: Scopes, acts: map<ActId, Activation>, shared: map<Scope, ActId>) {
    forall x :: x in shared ==>
      && x in scopes && scopes[x].shared && shared[x] in acts
      && acts[shared[x]].scope == x && acts[shared[x]].phase.Active?
  }

  ghost predicate ContextInv(scopes: Scopes, acts: map<ActId, Activation>, context: map<(Scope, Context), ActId>) {
    forall k :: k in context ==> Visible(scopes, acts, context[k], k.0)
  }

  ghost predicate Inv(scopes: Scopes, s: State) {
    && CountInv(s.acts)
    && (forall a :: a in s.acts ==> ActInv(scopes, s.acts, s.acts[a]))
    && SharedInv(scopes, s.acts, s.shared)
    && ContextInv(scopes, s.acts, s.context)
  }

  /** Later activations keep what was published, and which scope each activation is of. */
  ghost predicate Extends(acts: map<ActId, Activation>, later: map<ActId, Activation>) {
    forall a :: a in acts ==>
      a in later && later[a].scope == acts[a].scope && (Published(acts[a].phase) ==> Published(later[a].phase))
  }

  lemma ActStays(scopes: Scopes, acts: map<ActId, Activation>, later: map<ActId, Activation>, act: Activation)
    requires ActInv(scopes, acts, act) && Extends(acts, later) && ParentHeld(later, act)
    ensures ActInv(scopes, later, act)
  {
  }

  /** Moving an activation that counts before and after leaves every count right. */
  lemma MoveKeepsCounts(acts: map<ActId, Activation>, moved: map<ActId, Activation>)
    requires CountInv(acts) && moved.Keys == acts.Keys
    requires forall a :: a in acts ==>
      moved[a].parent == acts[a].parent && moved[a].count == acts[a].count && Holds(moved[a]) == Holds(acts[a])
    ensures CountInv(moved)
  {
    forall p | p in moved ensures moved[p].count == |Pinners(moved, p)| {
      assert Pinners(moved, p) == Pinners(acts, p);
    }
  }

  lemma CountedMeans(acts: map<ActId, Activation>, p: Option<ActId>, delta: int)
    ensures var counted := Counted(acts, p, delta);
            && counted.Keys == acts.Keys
            && forall a :: a in acts ==>
                 counted[a] == acts[a].(count := acts[a].count + if p == Some(a) then delta else 0)
  {
  }

  predicate SameHold(act: Activation, later: Activation) {
    act.parent == later.parent && Holds(act) == Holds(later)
  }

  lemma PinnersGrow(acts: map<ActId, Activation>, later: map<ActId, Activation>, a: ActId, p: ActId)
    requires a !in acts && later.Keys == acts.Keys + {a} && Holds(later[a])
    requires forall b :: b in acts ==> SameHold(acts[b], later[b])
    ensures |Pinners(later, p)| == |Pinners(acts, p)| + if later[a].parent == Some(p) then 1 else 0
  {
    assert a !in Pinners(acts, p);
    if later[a].parent == Some(p) {
      assert Pinners(later, p) == Pinners(acts, p) + {a};
    } else {
      assert Pinners(later, p) == Pinners(acts, p);
    }
  }

  lemma PinnersShrink(acts: map<ActId, Activation>, later: map<ActId, Activation>, a: ActId, p: ActId)
    requires a in acts && later.Keys == acts.Keys && Holds(acts[a]) && !Holds(later[a])
    requires forall b :: b in acts && b != a ==> SameHold(acts[b], later[b])
    ensures |Pinners(later, p)| == |Pinners(acts, p)| - if acts[a].parent == Some(p) then 1 else 0
  {
    assert a in Pinners(acts, p) <==> acts[a].parent == Some(p);
    assert Pinners(later, p) == Pinners(acts, p) - {a};
  }

  lemma PinKeepsCounts(acts: map<ActId, Activation>, a: ActId, act: Activation)
    requires CountInv(acts) && a !in acts && Holds(act) && act.count == 0
    requires forall b :: b in acts ==> ParentHeld(acts, acts[b])
    requires act.parent.Some? ==> act.parent.value in acts
    ensures CountInv(Counted(acts, act.parent, 1)[a := act])
  {
    CountedMeans(acts, act.parent, 1);
    var pinned := Counted(acts, act.parent, 1)[a := act];
    forall p | p in pinned ensures pinned[p].count == |Pinners(pinned, p)| {
      PinnersGrow(acts, pinned, a, p);
      if p == a { assert Pinners(acts, a) == {}; }
    }
  }

  lemma UnpinKeepsCounts(acts: map<ActId, Activation>, a: ActId, act: Activation)
    requires CountInv(acts) && a in acts && Holds(acts[a]) && !Holds(act)
    requires act.parent == acts[a].parent && act.count == acts[a].count
    requires act.parent.Some? ==> act.parent.value in acts && act.parent.value != a
    ensures CountInv(Counted(acts[a := act], act.parent, -1))
  {
    CountedMeans(acts[a := act], act.parent, -1);
    var freed := Counted(acts[a := act], act.parent, -1);
    forall p | p in freed ensures freed[p].count == |Pinners(freed, p)| {
      PinnersShrink(acts, freed, a, p);
    }
  }

  lemma PinKeepsInv(scopes: Scopes, s: State, a: ActId, x: Scope, c: Context)
    requires ValidScopes(scopes) && Inv(scopes, s) && Enabled(scopes, s, Pin(a, x, c))
    ensures Inv(scopes, PinStep(scopes, s, a, x, c))
  {
    var parent := ParentOf(scopes, s, x, c).value;
    var act := Activation(x, c, parent, Pinned, 0, None);
    var t := PinStep(scopes, s, a, x, c);
    CountedMeans(s.acts, parent, 1);
    ParentIsActive(scopes, s, x, c);
    PinKeepsCounts(s.acts, a, act);
    forall b | b in t.acts ensures ActInv(scopes, t.acts, t.acts[b]) {
      if b != a {
        ActStays(scopes, s.acts, t.acts, s.acts[b]);
      }
    }
  }

  /** Only a current activation can be pinned. */
  lemma ParentIsActive(scopes: Scopes, s: State, x: Scope, c: Context)
    requires ValidScopes(scopes) && Inv(scopes, s) && x in scopes && ParentOf(scopes, s, x, c).Some?
    ensures var parent := ParentOf(scopes, s, x, c).value;
            parent.Some? ==> parent.value in s.acts && s.acts[parent.value].phase.Active?
  {
    var parent := ParentOf(scopes, s, x, c).value;
    if parent.Some? {
      assert ActInv(scopes, s.acts, s.acts[parent.value]);
    }
  }

  lemma ContextStays(scopes: Scopes, acts: map<ActId, Activation>, later: map<ActId, Activation>,
                     context: map<(Scope, Context), ActId>)
    requires ContextInv(scopes, acts, context) && Extends(acts, later)
    ensures ContextInv(scopes, later, context)
  {
  }

  /** What is current for a shared scope stays so while it stays active. */
  lemma SharedStays(
    scopes: Scopes, acts: map<ActId, Activation>, later: map<ActId, Activation>, shared: map<Scope, ActId>
  )
    requires SharedInv(scopes, acts, shared) && Extends(acts, later)
    requires forall a :: a in acts && acts[a].phase.Active? ==> a in later && later[a].phase.Active?
    ensures SharedInv(scopes, later, shared)
  {
  }

  lemma PublishKeepsActs(scopes: Scopes, acts: map<ActId, Activation>, a: ActId, act: Activation)
    requires CountInv(acts) && (forall b :: b in acts ==> ActInv(scopes, acts, acts[b]))
    requires a in acts && acts[a].phase.Pinned? && ActInv(scopes, acts, act)
    requires act.scope == acts[a].scope && act.parent == acts[a].parent && act.count == acts[a].count
    requires act.phase.Active? || act.phase.Undoing?
    ensures var moved := acts[a := act];
            Extends(acts, moved) && CountInv(moved) && forall b :: b in moved ==> ActInv(scopes, moved, moved[b])
  {
    var moved := acts[a := act];
    MoveKeepsCounts(acts, moved);
    forall b | b in moved ensures ActInv(scopes, moved, moved[b]) {
      assert ActInv(scopes, acts, acts[b]);
      ActStays(scopes, acts, moved, if b == a then act else acts[b]);
    }
  }

  lemma PublishKeepsShared(
    scopes: Scopes, acts: map<ActId, Activation>, a: ActId, act: Activation, shared: map<Scope, ActId>
  )
    requires SharedInv(scopes, acts, shared) && a in acts && acts[a].phase.Pinned? && act.scope == acts[a].scope
    requires Extends(acts, acts[a := act])
    ensures SharedInv(scopes, acts[a := act], shared)
    ensures act.phase.Active? && act.scope in scopes && scopes[act.scope].shared ==>
              SharedInv(scopes, acts[a := act], shared[act.scope := a])
  {
    SharedStays(scopes, acts, acts[a := act], shared);
  }

  lemma PublishKeepsInv(scopes: Scopes, s: State, a: ActId)
    requires Inv(scopes, s) && a in s.acts && s.acts[a].phase.Pinned?
    ensures Inv(scopes, PublishStep(scopes, s, a))
  {
    var t := PublishStep(scopes, s, a);
    assert ActInv(scopes, s.acts, s.acts[a]);
    assert t.acts == s.acts[a := t.acts[a]];
    PublishKeepsActs(scopes, s.acts, a, t.acts[a]);
    PublishKeepsShared(scopes, s.acts, a, t.acts[a], s.shared);
    ContextStays(scopes, s.acts, t.acts, s.context);
  }

  /** An activation nobody holds can stop being current without taking a parent from anyone. */
  lemma RetireKeepsActs(scopes: Scopes, acts: map<ActId, Activation>, a: ActId, phase: Phase)
    requires CountInv(acts) && a in acts && (acts[a].phase.Active? ==> acts[a].count == 0)
    requires forall b :: b in acts ==> ActInv(scopes, acts, acts[b])
    requires (acts[a].phase.Active? && phase.Closing?) || (acts[a].phase.Detached? && phase.Closing?)
          || (acts[a].phase.Active? && phase.Detached? && acts[a].scope in scopes && scopes[acts[a].scope].shared)
    requires forall b :: b in acts && acts[b].previous == Some(a) ==> !phase.Detached?
    ensures var moved := acts[a := acts[a].(phase := phase)];
            && CountInv(moved) && (forall b :: b in moved ==> ActInv(scopes, moved, moved[b]))
            && (phase.Closing? ==> Extends(acts, moved))
  {
    var moved := acts[a := acts[a].(phase := phase)];
    MoveKeepsCounts(acts, moved);
    forall b | b in moved ensures ActInv(scopes, moved, moved[b]) {
      assert ActInv(scopes, acts, acts[b]);
      assert b in Pinners(acts, a) <==> Holds(acts[b]) && acts[b].parent == Some(a);
    }
  }

  lemma EndSharedKeepsInv(scopes: Scopes, s: State, x: Scope)
    requires Inv(scopes, s) && x in s.shared && s.acts[s.shared[x]].count == 0
    ensures Inv(scopes, EndStep(scopes, s, x, 0))
  {
    var a := s.shared[x];
    assert ActInv(scopes, s.acts, s.acts[a]);
    forall b | b in s.acts ensures s.acts[b].previous != Some(a) {
      assert ActInv(scopes, s.acts, s.acts[b]);
    }
    RetireKeepsActs(scopes, s.acts, a, Detached);
  }

  lemma EndContextKeepsInv(scopes: Scopes, s: State, x: Scope, c: Context)
    requires Inv(scopes, s) && (x, c) in s.context && x in scopes && !scopes[x].shared
    requires var act := s.acts[s.context[(x, c)]]; act.phase.Active? && act.count == 0
    ensures Inv(scopes, EndStep(scopes, s, x, c))
  {
    var a, t := s.context[(x, c)], EndStep(scopes, s, x, c);
    assert ActInv(scopes, s.acts, s.acts[a]);
    RetireKeepsActs(scopes, s.acts, a, Closing);
    ContextStays(scopes, s.acts, t.acts, s.context);
  }

  lemma EndKeepsInv(scopes: Scopes, s: State, x: Scope, c: Context)
    requires ValidScopes(scopes) && Inv(scopes, s) && Enabled(scopes, s, End(x, c))
    ensures Inv(scopes, EndStep(scopes, s, x, c))
  {
    assert ActInv(scopes, s.acts, s.acts[Current(scopes, s, x, c).value]);
    if scopes[x].shared {
      EndSharedKeepsInv(scopes, s, x);
    } else {
      EndContextKeepsInv(scopes, s, x, c);
    }
  }

  lemma EmptyKeepsInv(scopes: Scopes, s: State, a: ActId)
    requires Inv(scopes, s) && a in s.acts && s.acts[a].phase.Detached?
    ensures Inv(scopes, Moved(s, a, Closing))
  {
    RetireKeepsActs(scopes, s.acts, a, Closing);
  }

  lemma UnpinKeepsActs(scopes: Scopes, acts: map<ActId, Activation>, a: ActId, act: Activation)
    requires CountInv(acts) && a in acts && (forall b :: b in acts ==> ActInv(scopes, acts, acts[b]))
    requires (acts[a].phase.Undoing? && act.phase.Abandoned?) || (acts[a].phase.Closing? && act.phase.Released?)
    requires act == acts[a].(phase := act.phase)
    ensures var later := Counted(acts[a := act], act.parent, -1);
            CountInv(later) && Extends(acts, later) && (forall b :: b in later ==> ActInv(scopes, later, later[b]))
            && forall b :: b in acts && acts[b].phase.Active? ==> b in later && later[b].phase.Active?
  {
    var later := Counted(acts[a := act], act.parent, -1);
    assert ActInv(scopes, acts, acts[a]);
    UnpinKeepsCounts(acts, a, act);
    UnpinExtends(acts, a, act);
    forall b | b in later ensures ActInv(scopes, later, later[b]) {
      assert ActInv(scopes, acts, acts[b]);
      ActStays(scopes, acts, later, if b == a then act else acts[b]);
    }
  }

  lemma UnpinExtends(acts: map<ActId, Activation>, a: ActId, act: Activation)
    requires a in acts && act == acts[a].(phase := act.phase) && !acts[a].phase.Active?
    requires Published(acts[a].phase) ==> Published(act.phase)
    ensures var later := Counted(acts[a := act], act.parent, -1);
            && Extends(acts, later) && later.Keys == acts.Keys
            && (forall b :: b in acts && acts[b].phase.Active? ==> later[b].phase.Active?)
            && (forall b :: b in acts && b != a ==> later[b] == acts[b].(count := later[b].count))
            && later[a] == act.(count := later[a].count)
  {
    CountedMeans(acts[a := act], act.parent, -1);
  }

  lemma UnpinKeepsInv(scopes: Scopes, s: State, a: ActId, phase: Phase)
    requires Inv(scopes, s) && a in s.acts
    requires (s.acts[a].phase.Undoing? && phase.Abandoned?) || (s.acts[a].phase.Closing? && phase.Released?)
    ensures Inv(scopes, Unpin(s, a, phase))
  {
    var act, t := s.acts[a].(phase := phase), Unpin(s, a, phase);
    UnpinKeepsActs(scopes, s.acts, a, act);
    SharedStays(scopes, s.acts, t.acts, s.shared);
    ContextStays(scopes, s.acts, t.acts, s.context);
  }

  lemma ForkKeepsInv(scopes: Scopes, s: State, from: Context, into: Context)
    requires Inv(scopes, s)
    ensures Inv(scopes, Copied(s, from, into))
  {
  }

  lemma StepKeepsInv(scopes: Scopes, s: State, l: Label)
    requires ValidScopes(scopes) && Inv(scopes, s) && Enabled(scopes, s, l)
    ensures Inv(scopes, Step(scopes, s, l))
  {
    match l
    case Pin(a, x, c) => PinKeepsInv(scopes, s, a, x, c);
    case Publish(a) => PublishKeepsInv(scopes, s, a);
    case Undo(a) => UnpinKeepsInv(scopes, s, a, Abandoned);
    case End(x, c) => EndKeepsInv(scopes, s, x, c);
    case Empty(a) => EmptyKeepsInv(scopes, s, a);
    case Release(a) => UnpinKeepsInv(scopes, s, a, Released);
    case Fork(from, into) => ForkKeepsInv(scopes, s, from, into);
  }

  lemma {:induction false} RunKeepsInv(scopes: Scopes, s: State, labels: seq<Label>)
    requires ValidScopes(scopes) && Inv(scopes, s) && Runs(scopes, s, labels)
    ensures Inv(scopes, Run(scopes, s, labels))
    decreases |labels|
  {
    if labels != [] {
      StepKeepsInv(scopes, s, labels[0]);
      RunKeepsInv(scopes, Step(scopes, s, labels[0]), labels[1..]);
    }
  }

  // ----- main results, over every run -----

  /** A storage's dependent count is always the number of activations that pinned it and still hold it. */
  lemma CountsArePinners(scopes: Scopes, labels: seq<Label>, p: ActId)
    requires ValidScopes(scopes) && Runs(scopes, Initial, labels) && p in Run(scopes, Initial, labels).acts
    ensures var acts := Run(scopes, Initial, labels).acts;
            acts[p].count == |Pinners(acts, p)|
  {
    RunKeepsInv(scopes, Initial, labels);
  }

  /**
   * A parent outlives its children: while a child is active, ending, closing its resources or only
   * half-activated, its parent's storage is full and current, so no thread can end it.
   */
  lemma ParentOutlivesChild(scopes: Scopes, labels: seq<Label>, child: ActId)
    requires ValidScopes(scopes) && Runs(scopes, Initial, labels) && child in Run(scopes, Initial, labels).acts
    requires var act := Run(scopes, Initial, labels).acts[child]; Holds(act) && act.parent.Some?
    ensures var s := Run(scopes, Initial, labels);
            var p := s.acts[child].parent.value;
            && Full(s, p) && s.acts[p].phase.Active? && s.acts[p].count > 0
            && forall x, c :: Enabled(scopes, s, End(x, c)) ==> Current(scopes, s, x, c) != Some(p)
  {
    RunKeepsInv(scopes, Initial, labels);
    HeldIsCounted(scopes, Run(scopes, Initial, labels), child);
  }

  lemma HeldIsCounted(scopes: Scopes, s: State, child: ActId)
    requires ValidScopes(scopes) && Inv(scopes, s) && child in s.acts
    requires Holds(s.acts[child]) && s.acts[child].parent.Some?
    ensures var p := s.acts[child].parent.value;
            && Full(s, p) && s.acts[p].phase.Active? && s.acts[p].count > 0
            && forall x, c :: Enabled(scopes, s, End(x, c)) ==> Current(scopes, s, x, c) != Some(p)
  {
    assert ActInv(scopes, s.acts, s.acts[child]);
    assert child in Pinners(s.acts, s.acts[child].parent.value);
  }

  /** Letting go of a parent, after a release or a failed activation, finds its storage full. */
  lemma ReleaseFindsParent(scopes: Scopes, labels: seq<Label>, l: Label)
    requires ValidScopes(scopes) && Runs(scopes, Initial, labels) && Enabled(scopes, Run(scopes, Initial, labels), l)
    requires l.Release? || l.Undo?
    ensures var s := Run(scopes, Initial, labels);
            var parent := s.acts[l.a].parent;
            parent.Some? ==>
              && Full(s, parent.value)
              && Full(Step(scopes, s, l), parent.value)
              && Step(scopes, s, l).acts[parent.value].count == s.acts[parent.value].count - 1 >= 0
  {
    var s := Run(scopes, Initial, labels);
    var parent := s.acts[l.a].parent;
    RunKeepsInv(scopes, Initial, labels);
    if parent.Some? {
      ParentOutlivesChild(scopes, labels, l.a);
      CountedMeans(s.acts[l.a := s.acts[l.a].(phase := if l.Undo? then Abandoned else Released)], parent, -1);
    }
  }

  lemma RefusalUndone(scopes: Scopes, s: State, a: ActId, x: Scope, c: Context)
    requires ValidScopes(scopes) && Enabled(scopes, s, Pin(a, x, c)) && scopes[x].shared && x in s.shared
    requires var parent := ParentOf(scopes, s, x, c).value; parent.Some? ==> parent.value in s.acts
    ensures var refused := PublishStep(scopes, PinStep(scopes, s, a, x, c), a);
            var t := Unpin(refused, a, Abandoned);
            && refused.acts[a].phase.Undoing?
            && t.shared == s.shared && t.context == s.context && t.acts.Keys == s.acts.Keys + {a}
            && forall b :: b in s.acts ==> t.acts[b] == s.acts[b]
  {
    var parent := ParentOf(scopes, s, x, c).value;
    var refused := PublishStep(scopes, PinStep(scopes, s, a, x, c), a);
    CountedMeans(s.acts, parent, 1);
    CountedMeans(Moved(refused, a, Abandoned).acts, parent, -1);
  }

  /** A failed activation of an already active shared scope leaves every other storage as it found it. */
  lemma RefusedActivationUndone(scopes: Scopes, labels: seq<Label>, a: ActId, x: Scope, c: Context)
    requires ValidScopes(scopes) && Runs(scopes, Initial, labels)
    requires Enabled(scopes, Run(scopes, Initial, labels), Pin(a, x, c))
    requires scopes[x].shared && x in Run(scopes, Initial, labels).shared
    ensures var s := Run(scopes, Initial, labels);
            var refused := PublishStep(scopes, PinStep(scopes, s, a, x, c), a);
            var t := Unpin(refused, a, Abandoned);
            && refused.acts[a].phase.Undoing?
            && t.shared == s.shared && t.context == s.context && t.acts.Keys == s.acts.Keys + {a}
            && forall b :: b in s.acts ==> t.acts[b] == s.acts[b]
  {
    RunKeepsInv(scopes, Initial, labels);
    ParentIsActive(scopes, Run(scopes, Initial, labels), x, c);
    RefusalUndone(scopes, Run(scopes, Initial, labels), a, x, c);
  }

  // ----- whom an activation pins -----

  /** An activation holds a parent exactly if its scope requires one, and then one of that scope. */
  predicate RightParent(scopes: Scopes, acts: map<ActId, Activation>, act: Activation) {
    && act.scope in scopes
    && match scopes[act.scope].parent
       case None => act.parent.None?
       case Some(p) => act.parent.Some? && act.parent.value in acts && acts[act.parent.value].scope == p
  }

  /** An active activation of a shared scope is the one in its variable. */
  predicate InVariable(scopes: Scopes, s: State, a: ActId)
    requires a in s.acts
  {
    var act := s.acts[a];
    act.phase.Active? && act.scope in scopes && scopes[act.scope].shared ==>
      act.scope in s.shared && s.shared[act.scope] == a
  }

  /** An activation has the right parent, and is in its scope's variable if it should be. */
  predicate OriginOk(scopes: Scopes, s: State, a: ActId)
    requires a in s.acts
  {
    RightParent(scopes, s.acts, s.acts[a]) && InVariable(scopes, s, a)
  }

  ghost predicate OriginInv(scopes: Scopes, s: State) {
    forall a {:trigger OriginOk(scopes, s, a)} :: a in s.acts ==> OriginOk(scopes, s, a)
  }

  /** Whatever else changes of an activation, its scope, its context and its parent do not. */
  ghost predicate SameOrigins(acts: map<ActId, Activation>, later: map<ActId, Activation>) {
    forall a :: a in acts ==>
      && a in later && later[a].scope == acts[a].scope && later[a].context == acts[a].context
      && later[a].parent == acts[a].parent
  }

  lemma PinKeepsOrigins(scopes: Scopes, s: State, l: Label)
    requires ValidScopes(scopes) && Inv(scopes, s) && Enabled(scopes, s, l) && l.Pin? && OriginInv(scopes, s)
    ensures OriginInv(scopes, Step(scopes, s, l))
  {
    var t := Step(scopes, s, l);
    CountedMeans(s.acts, t.acts[l.a].parent, 1);
    PinsCurrent(scopes, s, l.a, l.scope, l.context);
    forall b | b in t.acts ensures OriginOk(scopes, t, b) {
      assert b != l.a ==> OriginOk(scopes, s, b);
    }
  }

  lemma StepKeepsActsOrigins(scopes: Scopes, s: State, l: Label)
    requires ValidScopes(scopes) && Enabled(scopes, s, l) && !l.Pin?
    ensures Step(scopes, s, l).acts.Keys == s.acts.Keys && SameOrigins(s.acts, Step(scopes, s, l).acts)
  {
  }

  /** A variable stays as it is for an activation that stays active, and is set for one that becomes so. */
  lemma VariableStays(scopes: Scopes, s: State, t: State, b: ActId)
    requires b in s.acts && b in t.acts && InVariable(scopes, s, b) && t.acts[b].scope == s.acts[b].scope
    requires t.acts[b].phase.Active? ==> s.acts[b].phase.Active?
    requires t.acts[b].phase.Active? && s.acts[b].scope in s.shared ==>
               s.acts[b].scope in t.shared && t.shared[s.acts[b].scope] == s.shared[s.acts[b].scope]
    ensures InVariable(scopes, t, b)
  {
  }

  lemma PublishKeepsVariables(scopes: Scopes, s: State, a: ActId, b: ActId)
    requires SharedInv(scopes, s.acts, s.shared) && a in s.acts && s.acts[a].phase.Pinned? && s.acts[a].scope in scopes
    requires b in s.acts && InVariable(scopes, s, b)
    ensures b in PublishStep(scopes, s, a).acts && InVariable(scopes, PublishStep(scopes, s, a), b)
  {
    var t := PublishStep(scopes, s, a);
    if b != a && s.acts[b].phase.Active? {
      VariableStays(scopes, s, t, b);
    }
  }

  lemma EndKeepsVariables(scopes: Scopes, s: State, x: Scope, c: Context, b: ActId)
    requires ValidScopes(scopes) && Enabled(scopes, s, End(x, c)) && b in s.acts && InVariable(scopes, s, b)
    ensures b in EndStep(scopes, s, x, c).acts && InVariable(scopes, EndStep(scopes, s, x, c), b)
  {
  }

  lemma StepKeepsVariables(scopes: Scopes, s: State, l: Label, b: ActId)
    requires ValidScopes(scopes) && Enabled(scopes, s, l) && !l.Pin? && SharedInv(scopes, s.acts, s.shared)
    requires b in s.acts && InVariable(scopes, s, b)
    ensures b in Step(scopes, s, l).acts && InVariable(scopes, Step(scopes, s, l), b)
  {
    match l
    case Publish(a) => PublishKeepsVariables(scopes, s, a, b);
    case End(x, c) => EndKeepsVariables(scopes, s, x, c, b);
    case Undo(a) => VariableStays(scopes, s, Step(scopes, s, l), b);
    case Release(a) => VariableStays(scopes, s, Step(scopes, s, l), b);
    case Empty(a) => VariableStays(scopes, s, Step(scopes, s, l), b);
    case Fork(from, into) =>
  }

  lemma StepKeepsOrigins(scopes: Scopes, s: State, l: Label)
    requires ValidScopes(scopes) && Inv(scopes, s) && Enabled(scopes, s, l) && OriginInv(scopes, s)
    ensures OriginInv(scopes, Step(scopes, s, l))
  {
    if l.Pin? {
      PinKeepsOrigins(scopes, s, l);
    } else {
      var t := Step(scopes, s, l);
      StepKeepsActsOrigins(scopes, s, l);
      forall b | b in t.acts ensures OriginOk(scopes, t, b) {
        assert OriginOk(scopes, s, b);
        StepKeepsVariables(scopes, s, l, b);
      }
    }
  }

  lemma {:induction false} RunKeepsOrigins(scopes: Scopes, s: State, labels: seq<Label>)
    requires ValidScopes(scopes) && Inv(scopes, s) && OriginInv(scopes, s) && Runs(scopes, s, labels)
    ensures OriginInv(scopes, Run(scopes, s, labels))
    decreases |labels|
  {
    if labels != [] {
      StepKeepsInv(scopes, s, labels[0]);
      StepKeepsOrigins(scopes, s, labels[0]);
      RunKeepsOrigins(scopes, Step(scopes, s, labels[0]), labels[1..]);
    }
  }

  lemma StepBegins(scopes: Scopes, s: State, l: Label, a: ActId)
    requires ValidScopes(scopes) && Enabled(scopes, s, l)
    ensures a in s.acts ==>
              && a in Step(scopes, s, l).acts && Step(scopes, s, l).acts[a].scope == s.acts[a].scope
              && Step(scopes, s, l).acts[a].context == s.acts[a].context
    ensures a !in s.acts && a in Step(scopes, s, l).acts ==>
              l == Pin(a, Step(scopes, s, l).acts[a].scope, Step(scopes, s, l).acts[a].context)
  {
  }

  /** Every activation was begun, for the scope and in the context that it has. */
  lemma {:induction false} BegunAs(scopes: Scopes, s: State, labels: seq<Label>, a: ActId)
    requires ValidScopes(scopes) && Runs(scopes, s, labels)
    ensures var t := Run(scopes, s, labels);
            && (a in s.acts ==>
                  a in t.acts && t.acts[a].scope == s.acts[a].scope && t.acts[a].context == s.acts[a].context)
            && (a in t.acts && a !in s.acts ==> Pin(a, t.acts[a].scope, t.acts[a].context) in labels)
    decreases |labels|
  {
    if labels != [] {
      StepBegins(scopes, s, labels[0], a);
      BegunAs(scopes, Step(scopes, s, labels[0]), labels[1..], a);
    }
  }

  /** The storage in a scope's variable, as a context has it. */
  predicate Holder(scopes: Scopes, s: State, p: Scope, c: Context, b: ActId) {
    && p in scopes
    && if scopes[p].shared then p in s.shared && s.shared[p] == b else (p, c) in s.context && s.context[(p, c)] == b
  }

  /**
   * A scope that requires another can begin to activate exactly where the other's variable holds an
   * active storage. It then pins just that one, and counts itself against it.
   */
  lemma PinsCurrent(scopes: Scopes, s: State, a: ActId, x: Scope, c: Context)
    requires ValidScopes(scopes) && Inv(scopes, s) && a !in s.acts && x in scopes
    ensures Enabled(scopes, s, Pin(a, x, c)) <==>
            forall p :: scopes[x].parent == Some(p) ==>
              exists b :: Holder(scopes, s, p, c, b) && b in s.acts && s.acts[b].phase.Active?
    ensures Enabled(scopes, s, Pin(a, x, c)) ==>
            var act := Step(scopes, s, Pin(a, x, c)).acts[a];
            && act.scope == x && act.context == c
            && (scopes[x].parent.None? ==> act.parent.None?)
            && (scopes[x].parent.Some? ==>
                  && act.parent.Some? && Holder(scopes, s, scopes[x].parent.value, c, act.parent.value)
                  && act.parent.value in s.acts && s.acts[act.parent.value].scope == scopes[x].parent.value
                  && Step(scopes, s, Pin(a, x, c)).acts[act.parent.value].count == s.acts[act.parent.value].count + 1)
  {
    if scopes[x].parent.Some? {
      var p := scopes[x].parent.value;
      var current := Current(scopes, s, p, c);
      if current.Some? {
        assert Holder(scopes, s, p, c, current.value);
        assert ActInv(scopes, s.acts, s.acts[current.value]);
      }
    }
  }

  /**
   * In every run, an activation is of the scope and context that it was begun for, and holds a parent
   * exactly if its scope requires one: an activation of that scope, which is active while the child
   * counts, is counted, and cannot be ended.
   */
  lemma RequiredParentStays(scopes: Scopes, labels: seq<Label>, child: ActId)
    requires ValidScopes(scopes) && Runs(scopes, Initial, labels) && child in Run(scopes, Initial, labels).acts
    ensures var s := Run(scopes, Initial, labels);
            var act := s.acts[child];
            && Pin(child, act.scope, act.context) in labels && act.scope in scopes
            && (scopes[act.scope].parent.None? ==> act.parent.None?)
            && (scopes[act.scope].parent.Some? ==>
                  && act.parent.Some? && act.parent.value in s.acts
                  && s.acts[act.parent.value].scope == scopes[act.scope].parent.value
                  && (Holds(act) ==>
                        && s.acts[act.parent.value].phase.Active? && s.acts[act.parent.value].count > 0
                        && forall c :: Holder(scopes, s, scopes[act.scope].parent.value, c, act.parent.value) ==>
                             !Enabled(scopes, s, End(scopes[act.scope].parent.value, c))))
  {
    var s := Run(scopes, Initial, labels);
    RunKeepsInv(scopes, Initial, labels);
    RunKeepsOrigins(scopes, Initial, labels);
    BegunAs(scopes, Initial, labels, child);
    assert OriginOk(scopes, s, child);
    if Holds(s.acts[child]) && s.acts[child].parent.Some? {
      ParentOutlivesChild(scopes, labels, child);
    }
  }

  /** At most one activation of a shared scope is active, and it is the one that every thread sees. */
  lemma SharedIsOne(scopes: Scopes, labels: seq<Label>, a: ActId)
    requires ValidScopes(scopes) && Runs(scopes, Initial, labels) && a in Run(scopes, Initial, labels).acts
    requires var act := Run(scopes, Initial, labels).acts[a]; act.scope in scopes && scopes[act.scope].shared
    ensures var s := Run(scopes, Initial, labels);
            s.acts[a].phase.Active? <==> s.acts[a].scope in s.shared && s.shared[s.acts[a].scope] == a
  {
    var s := Run(scopes, Initial, labels);
    RunKeepsInv(scopes, Initial, labels);
    RunKeepsOrigins(scopes, Initial, labels);
    assert OriginOk(scopes, s, a);
  }
}
