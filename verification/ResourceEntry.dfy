/**
 * Entering resources while their activation may end: every resource entered successfully is
 * exited exactly once, by the close or, if the activation ended during its entry, at once.
 *
 * Entries overlap, and each suspends while it runs, so an activation's life is a run of steps.
 */
module ResourceEntry {
  import opened Sequences

  type Id = nat

  /** How an exit came about: by the activation's close, or at once after a late entry. */
  datatype Exit = ByClose(id: Id) | AtOnce(id: Id)

  datatype Label =
    | Begin(id: Id)
    | EnterFails(id: Id)
    | Entered(id: Id)
    | End
    | CloseNext

  /** What an entry's caller gets: the resource's value, or an error, the exit's own if it raised. */
  datatype EntryResult = Registered | DidNotEnter | EndedDuringEntry | ExitRaised

  /**
   * One activation. `full` is whether its storage is non-empty, `contexts` the resources listed in
   * slot 0, and `closing` that list once the close has taken it. The rest is history: entries that
   * began, those that succeeded, the list as the close took it, and every exit made.
   */
  datatype State = State(
    full: bool,
    contexts: seq<Id>,
    closing: seq<Id>,
    entering: set<Id>,
    begun: set<Id>,
    entered: set<Id>,
    taken: seq<Id>,
    exits: seq<Exit>
  )

  const Initial := State(true, [], [], {}, {}, {}, [], [])

  predicate Enabled(s: State, l: Label) {
    match l
    case Begin(id) => id !in s.begun
    case EnterFails(id) => id in s.entering
    case Entered(id) => id in s.entering
    case End => s.full
    case CloseNext => !s.full && s.closing != []
  }

  /** A successful entry is registered, or exited at once if its activation has ended meanwhile. */
  function EnteredStep(s: State, id: Id): State {
    var left := s.(entering := s.entering - {id}, entered := s.entered + {id});
    if s.full then left.(contexts := s.contexts + [id]) else left.(exits := s.exits + [AtOnce(id)])
  }

  function Step(s: State, l: Label): State
    requires Enabled(s, l)
  {
    match l
    case Begin(id) => s.(entering := s.entering + {id}, begun := s.begun + {id})
    case EnterFails(id) => s.(entering := s.entering - {id})
    case Entered(id) => EnteredStep(s, id)
    case End => s.(full := false, contexts := [], closing := s.contexts, taken := s.contexts)
    case CloseNext =>
      var n := |s.closing| - 1;
      s.(closing := s.closing[..n], exits := s.exits + [ByClose(s.closing[n])])
  }

  predicate Runs(s: State, labels: seq<Label>)
    decreases |labels|
  {
    labels == [] || (Enabled(s, labels[0]) && Runs(Step(s, labels[0]), labels[1..]))
  }

  function Run(s: State, labels: seq<Label>): State
    requires Runs(s, labels)
    decreases |labels|
  {
    if labels == [] then s else Run(Step(s, labels[0]), labels[1..])
  }

  // ----- what every step keeps -----

  function Count(s: seq<Id>, id: Id): nat {
    if s == [] then 0 else Count(s[..|s| - 1], id) + if s[|s| - 1] == id then 1 else 0
  }

  function Exits(exits: seq<Exit>, id: Id): nat {
    if exits == [] then 0 else Exits(exits[..|exits| - 1], id) + if exits[|exits| - 1].id == id then 1 else 0
  }

  /** The exits the close made, in order. */
  function Closed(exits: seq<Exit>): seq<Id> {
    if exits == [] then []
    else Closed(exits[..|exits| - 1]) + if exits[|exits| - 1].ByClose? then [exits[|exits| - 1].id] else []
  }

  lemma CountAppend(s: seq<Id>, x: Id, id: Id)
    ensures Count(s + [x], id) == Count(s, id) + if x == id then 1 else 0
  {
    assert (s + [x])[..|s|] == s;
  }

  lemma ExitsAppend(exits: seq<Exit>, e: Exit, id: Id)
    ensures Exits(exits + [e], id) == Exits(exits, id) + if e.id == id then 1 else 0
  {
    assert (exits + [e])[..|exits|] == exits;
  }

  lemma ClosedAppend(exits: seq<Exit>, e: Exit)
    ensures Closed(exits + [e]) == Closed(exits) + if e.ByClose? then [e.id] else []
  {
    assert (exits + [e])[..|exits|] == exits;
  }

  /** How often a resource is listed, being closed or exited: once if it was entered, else never. */
  predicate AccountedOnce(entered: set<Id>, contexts: seq<Id>, closing: seq<Id>, exits: seq<Exit>, id: Id) {
    Count(contexts, id) + Count(closing, id) + Exits(exits, id) == if id in entered then 1 else 0
  }

  ghost predicate Accounted(entered: set<Id>, contexts: seq<Id>, closing: seq<Id>, exits: seq<Exit>) {
    forall id :: AccountedOnce(entered, contexts, closing, exits, id)
  }

  /** An entry is running, or its resource entered, only if it began, and not both. */
  predicate Entries(entering: set<Id>, entered: set<Id>, begun: set<Id>) {
    && (forall id <- entering :: id in begun && id !in entered)
    && (forall id <- entered :: id in begun)
  }

  ghost predicate Inv(s: State) {
    && Accounted(s.entered, s.contexts, s.closing, s.exits)
    && Entries(s.entering, s.entered, s.begun)
    && (!s.full ==> s.contexts == [])
    && (s.full ==> s.closing == [] && s.taken == [] && s.exits == [])
    && s.closing <= s.taken
    && Closed(s.exits) + Reversed(s.closing) == Reversed(s.taken)
  }

  lemma AccountedRegistered(entered: set<Id>, contexts: seq<Id>, closing: seq<Id>, exits: seq<Exit>, id: Id)
    requires id !in entered && Accounted(entered, contexts, closing, exits)
    ensures Accounted(entered + {id}, contexts + [id], closing, exits)
  {
    forall other ensures AccountedOnce(entered + {id}, contexts + [id], closing, exits, other) {
      assert AccountedOnce(entered, contexts, closing, exits, other);
      CountAppend(contexts, id, other);
    }
  }

  lemma AccountedExited(entered: set<Id>, contexts: seq<Id>, closing: seq<Id>, exits: seq<Exit>, id: Id)
    requires id !in entered && Accounted(entered, contexts, closing, exits)
    ensures Accounted(entered + {id}, contexts, closing, exits + [AtOnce(id)])
  {
    forall other ensures AccountedOnce(entered + {id}, contexts, closing, exits + [AtOnce(id)], other) {
      assert AccountedOnce(entered, contexts, closing, exits, other);
      ExitsAppend(exits, AtOnce(id), other);
    }
  }

  lemma AccountedClosed(entered: set<Id>, contexts: seq<Id>, closing: seq<Id>, exits: seq<Exit>, id: Id)
    requires Accounted(entered, contexts, closing + [id], exits)
    ensures Accounted(entered, contexts, closing, exits + [ByClose(id)])
  {
    forall other ensures AccountedOnce(entered, contexts, closing, exits + [ByClose(id)], other) {
      assert AccountedOnce(entered, contexts, closing + [id], exits, other);
      CountAppend(closing, id, other);
      ExitsAppend(exits, ByClose(id), other);
    }
  }

  lemma AccountedTaken(entered: set<Id>, contexts: seq<Id>, exits: seq<Exit>)
    requires Accounted(entered, contexts, [], exits)
    ensures Accounted(entered, [], contexts, exits)
  {
    forall other ensures AccountedOnce(entered, [], contexts, exits, other) {
      assert AccountedOnce(entered, contexts, [], exits, other);
    }
  }

  lemma EnteredKeepsInv(s: State, id: Id)
    requires Inv(s) && id in s.entering
    ensures Inv(EnteredStep(s, id))
  {
    assert Entries(s.entering - {id}, s.entered + {id}, s.begun);
    if s.full {
      AccountedRegistered(s.entered, s.contexts, s.closing, s.exits, id);
    } else {
      AccountedExited(s.entered, s.contexts, s.closing, s.exits, id);
      ClosedAppend(s.exits, AtOnce(id));
    }
  }

  lemma CloseKeepsInv(s: State)
    requires Inv(s) && Enabled(s, CloseNext)
    ensures Inv(Step(s, CloseNext))
  {
    var n := |s.closing| - 1;
    var last := s.closing[n];
    assert s.closing == s.closing[..n] + [last];
    AccountedClosed(s.entered, s.contexts, s.closing[..n], s.exits, last);
    ClosedAppend(s.exits, ByClose(last));
    var rest := Reversed(s.closing[..n]);
    assert Closed(s.exits) + ([last] + rest) == (Closed(s.exits) + [last]) + rest;
  }

  lemma StepKeepsInv(s: State, l: Label)
    requires Inv(s) && Enabled(s, l)
    ensures Inv(Step(s, l))
  {
    match l
    case Entered(id) => EnteredKeepsInv(s, id);
    case CloseNext => CloseKeepsInv(s);
    case End => AccountedTaken(s.entered, s.contexts, s.exits);
    case _ =>
  }

  lemma {:induction false} RunKeepsInv(s: State, labels: seq<Label>)
    requires Inv(s) && Runs(s, labels)
    ensures Inv(Run(s, labels))
    decreases |labels|
  {
    if labels != [] {
      StepKeepsInv(s, labels[0]);
      RunKeepsInv(Step(s, labels[0]), labels[1..]);
    }
  }

  lemma InitialInv()
    ensures Inv(Initial)
  {
    assert forall id :: AccountedOnce({}, [], [], [], id);
  }

  lemma CountedIsIn(s: seq<Id>, id: Id)
    ensures Count(s, id) > 0 ==> id in s
  {
    if s != [] {
      CountedIsIn(s[..|s| - 1], id);
    }
  }

  lemma AllAccounted(s: State)
    requires Inv(s) && !s.full && s.closing == []
    ensures forall id :: Exits(s.exits, id) == if id in s.entered then 1 else 0
  {
    forall id ensures Exits(s.exits, id) == if id in s.entered then 1 else 0 {
      assert AccountedOnce(s.entered, s.contexts, s.closing, s.exits, id);
    }
  }

  // ----- main results, over every run -----

  /** Nothing is exited twice, and nothing is exited that was not entered. */
  lemma ExitedAtMostOnce(labels: seq<Label>, id: Id)
    requires Runs(Initial, labels)
    ensures var s := Run(Initial, labels);
            && Exits(s.exits, id) <= 1
            && (Exits(s.exits, id) == 1 ==> id in s.entered)
            && (id in s.entered && Exits(s.exits, id) == 0 ==>
                  (id in s.contexts && s.full) || (id in s.closing && !s.full))
  {
    var s := Run(Initial, labels);
    InitialInv();
    RunKeepsInv(Initial, labels);
    assert AccountedOnce(s.entered, s.contexts, s.closing, s.exits, id);
    CountedIsIn(s.contexts, id);
    CountedIsIn(s.closing, id);
  }

  /**
   * Once the activation has ended, its close has finished and no entry is running, exactly the
   * resources entered have been exited, each once, and those registered in reverse entry order.
   */
  lemma AllExitedOnce(labels: seq<Label>)
    requires Runs(Initial, labels)
    requires var s := Run(Initial, labels); !s.full && s.closing == []
    ensures var s := Run(Initial, labels);
            && (forall id :: Exits(s.exits, id) == if id in s.entered then 1 else 0)
            && Closed(s.exits) == Reversed(s.taken)
  {
    InitialInv();
    RunKeepsInv(Initial, labels);
    AllAccounted(Run(Initial, labels));
  }

  /** No resource is ever registered into an ended activation. */
  lemma {:induction false} EndedTakesNothing(s: State, labels: seq<Label>)
    requires Inv(s) && Runs(s, labels) && !s.full
    ensures !Run(s, labels).full && Run(s, labels).contexts == [] && Run(s, labels).taken == s.taken
    ensures |Run(s, labels).closing| <= |s.closing|
    decreases |labels|
  {
    if labels != [] {
      StepKeepsInv(s, labels[0]);
      EndedTakesNothing(Step(s, labels[0]), labels[1..]);
    }
  }

  /** What was entered before the activation ended, in order. */
  function EnteredInTime(labels: seq<Label>): seq<Id>
    decreases |labels|
  {
    if labels == [] || labels[0].End? then []
    else (if labels[0].Entered? then [labels[0].id] else []) + EnteredInTime(labels[1..])
  }

  lemma {:induction false} ListedInOrder(s: State, labels: seq<Label>)
    requires Runs(s, labels)
    ensures var t := Run(s, labels);
            && (!s.full ==> !t.full && t.taken == s.taken)
            && (s.full ==> (t.full <==> End !in labels))
            && (s.full ==> (if t.full then t.contexts else t.taken) == s.contexts + EnteredInTime(labels))
    decreases |labels|
  {
    if labels == [] {
      assert s.contexts + [] == s.contexts;
    } else {
      var t := Step(s, labels[0]);
      ListedInOrder(t, labels[1..]);
      assert labels == [labels[0]] + labels[1..];
      if s.full && labels[0].Entered? {
        assert s.contexts + ([labels[0].id] + EnteredInTime(labels[1..])) == t.contexts + EnteredInTime(labels[1..]);
      } else if s.full {
        assert labels[0].End? ==> s.contexts + [] == s.contexts;
        assert [] + EnteredInTime(labels[1..]) == EnteredInTime(labels[1..]);
      }
    }
  }

  /** The close makes its exits in the reverse of the order in which resources were entered in time. */
  lemma ClosedInReverse(labels: seq<Label>)
    requires Runs(Initial, labels)
    requires var s := Run(Initial, labels); !s.full && s.closing == []
    ensures Closed(Run(Initial, labels).exits) == Reversed(EnteredInTime(labels))
  {
    AllExitedOnce(labels);
    ListedInOrder(Initial, labels);
    assert [] + EnteredInTime(labels) == EnteredInTime(labels);
  }

  // ----- the code -----

  /** One activation's storage and its resources, changed in place by entries and the close. */
  class Activation {
    var full: bool
    var contexts: seq<Id>
    var closing: seq<Id>
    var exits: seq<Exit>
    ghost var entering: set<Id>
    ghost var begun: set<Id>
    ghost var entered: set<Id>
    ghost var taken: seq<Id>

    ghost function Value(): State
      reads this
    {
      State(full, contexts, closing, entering, begun, entered, taken, exits)
    }

    constructor ()
      ensures Value() == Initial
    {
      full, contexts, closing, exits := true, [], [], [];
      entering, begun, entered, taken := {}, {}, {}, [];
    }

    /** The part of an entry before the resource's own entry runs. */
    method BeginEntry(id: Id)
      requires Inv(Value()) && id !in begun
      modifies this
      ensures Inv(Value()) && Value() == old(Step(Value(), Begin(id)))
    {
      entering, begun := entering + {id}, begun + {id};
    }

    /**
     * The part of an entry after the resource's own entry, which yielded a value or did not. A
     * resource that yielded is registered, or, in an ended activation, exited with no exception.
     */
    method FinishEntry(id: Id, yielded: bool, exitRaises: bool) returns (r: EntryResult)
      requires Inv(Value()) && id in entering
      modifies this
      ensures Inv(Value())
      ensures Value() == old(Step(Value(), if yielded then Entered(id) else EnterFails(id)))
      ensures r == Registered <==> yielded && old(full)
      ensures r == DidNotEnter <==> !yielded
      ensures r == ExitRaised <==> yielded && !old(full) && exitRaises
    {
      ghost var before := Value();
      StepKeepsInv(before, if yielded then Entered(id) else EnterFails(id));
      entering := entering - {id};
      if !yielded {
        assert Value() == before.(entering := entering);
        return DidNotEnter;
      }
      entered := entered + {id};
      if !full {
        exits := exits + [AtOnce(id)];
        assert Value() == EnteredStep(before, id);
        return if exitRaises then ExitRaised else EndedDuringEntry;
      }
      contexts := contexts + [id];
      assert Value() == EnteredStep(before, id);
      return Registered;
    }

    /** Deactivation takes the list of resources and empties the storage, before it closes any. */
    method TakeContexts()
      requires Inv(Value()) && full
      modifies this
      ensures Inv(Value()) && Value() == old(Step(Value(), End))
    {
      StepKeepsInv(Value(), End);
      closing, taken := contexts, contexts;
      full, contexts := false, [];
    }

    /** Close what was taken, in one go: the exits are the list reversed, after those made before. */
    method Close()
      requires Inv(Value()) && !full
      modifies this
      ensures Inv(Value()) && closing == [] && !full
      ensures Closed(exits) == Reversed(taken)
      ensures forall id :: Exits(exits, id) == if id in entered then 1 else 0
      ensures taken == old(taken) && entered == old(entered)
    {
      while closing != []
        invariant Inv(Value()) && !full && taken == old(taken) && entered == old(entered)
        decreases |closing|
      {
        CloseKeepsInv(Value());
        var id := closing[|closing| - 1];
        closing := closing[..|closing| - 1];
        exits := exits + [ByClose(id)];
      }
      AllAccounted(Value());
    }
  }
}
