/**
 * Overriding providers' values. A provider has one callable that all contexts call, which is its
 * dependency unless it is overridden somewhere, and one context variable that holds the innermost
 * value of each context. Together they are a stack of overrides per context, on which an entry that
 * is interrupted can leave its count and its value.
 */
module Overrides {
  import opened Options

  type ProviderId = nat
  type OverrideId = nat
  type Context = nat
  type Value = nat
  type Callable = nat
  type Tokens = map<OverrideId, seq<Option<Value>>>

  /** What calling a provider runs: a dependency as it was when set, or the override reader. */
  datatype Provide = Direct(dependency: Callable) | Reader

  datatype Provider = Provider(dependency: Callable, provide: Provide, count: nat, values: map<Context, Value>)

  /** What a call of a provider yields: an override's value, or what a dependency returns. */
  datatype Result = Overridden(value: Value) | Computed(dependency: Callable)

  /** An override object. It is used by the tasks of one context, and may be entered again inside itself. */
  datatype Override = Override(dep: ProviderId, value: Value, owner: Context)

  type Objects = map<OverrideId, Override>

  /** One override entered: its provider, what its context sees of it, and the value it took the place of. */
  datatype Entry = Entry(o: OverrideId, dep: ProviderId, value: Value, saved: Option<Value>)

  /** The values a context starts with, which are those of the one it is forked from, and what it has entered. */
  datatype Stack = Stack(base: map<ProviderId, Value>, entries: seq<Entry>)

  /**
   * Providers and overrides' tokens, and the stacks that they are to amount to. The rest is history:
   * how often an entry was interrupted once it was counted, and the tokens that nobody will use.
   */
  datatype State = State(
    providers: map<ProviderId, Provider>,
    tokens: Tokens,
    stacks: map<Context, Stack>,
    leaked: map<ProviderId, nat>,
    stale: Tokens
  )

  /**
   * Where an entry is interrupted: while it waits for the lock, once it is counted, once its value is
   * set but its token not kept, or once it is entered but not known to be by the one who enters it.
   */
  datatype Point = Waiting | Counted | ValueSet | Unlisted

  datatype Label =
    | Fork(from: Context, to: Context)
    | Enter(context: Context, o: OverrideId)
    | Exit(context: Context, o: OverrideId)
    | Update(p: ProviderId, dependency: Callable)
    | Interrupt(context: Context, o: OverrideId, point: Point)


  function Leaked(leaked: map<ProviderId, nat>, p: ProviderId): nat {
    if p in leaked then leaked[p] else 0
  }

  function Stale(stale: Tokens, o: OverrideId): seq<Option<Value>> {
    if o in stale then stale[o] else []
  }

  // ----- one provider -----

  function Read(p: Provider, context: Context): Option<Value> {
    if context in p.values then Some(p.values[context]) else None
  }

  function Write(values: map<Context, Value>, context: Context, value: Option<Value>): map<Context, Value> {
    if value.Some? then values[context := value.value] else values - {context}
  }

  function Entered(p: Provider, context: Context, value: Value): Provider {
    Provider(p.dependency, if p.count == 0 then Reader else p.provide, p.count + 1,
             Write(p.values, context, Some(value)))
  }

  function Exited(p: Provider, context: Context, saved: Option<Value>): Provider
    requires p.count > 0
  {
    Provider(p.dependency, if p.count == 1 then Direct(p.dependency) else p.provide, p.count - 1,
             Write(p.values, context, saved))
  }

  function Updated(p: Provider, dependency: Callable): Provider {
    p.(dependency := dependency, provide := if p.count == 0 then Direct(dependency) else p.provide)
  }

  /** What calling what a provider provides now yields. */
  function Called(p: Provider, context: Context): Result {
    match p.provide
    case Direct(dependency) => Computed(dependency)
    case Reader => if Read(p, context).Some? then Overridden(Read(p, context).value) else Computed(p.dependency)
  }

  // ----- one stack -----

  function Push(stack: Stack, e: Entry): Stack {
    stack.(entries := stack.entries + [e])
  }

  function Pop(stack: Stack): Stack
    requires stack.entries != []
  {
    stack.(entries := stack.entries[..|stack.entries| - 1])
  }

  function Top(stack: Stack): Entry
    requires stack.entries != []
  {
    stack.entries[|stack.entries| - 1]
  }

  /** The innermost value of a provider on a stack. */
  function Innermost(stack: Stack, p: ProviderId): Option<Value>
    decreases |stack.entries|
  {
    if stack.entries == [] then if p in stack.base then Some(stack.base[p]) else None
    else if Top(stack).dep == p then Some(Top(stack).value)
    else Innermost(Pop(stack), p)
  }

  /** A value left over takes the place of the innermost, until what it stands on is exited. */
  function Overlay(stack: Stack, p: ProviderId, value: Value): Stack
    decreases |stack.entries|
  {
    if stack.entries == [] then stack.(base := stack.base[p := value])
    else if Top(stack).dep == p then Push(Pop(stack), Top(stack).(value := value))
    else Push(Overlay(Pop(stack), p, value), Top(stack))
  }

  /** The tokens an override should hold: what its entries on a stack took the place of. */
  function TokensOf(stack: Stack, o: OverrideId): seq<Option<Value>>
    decreases |stack.entries|
  {
    if stack.entries == [] then []
    else TokensOf(Pop(stack), o) + if Top(stack).o == o then [Top(stack).saved] else []
  }

  // ----- runs -----

  predicate Enabled(objects: Objects, s: State, l: Label) {
    match l
    case Fork(from, to) => from in s.stacks && to !in s.stacks
    case Enter(context, o) => CanEnter(objects, s, context, o)
    case Exit(context, o) =>
      && context in s.stacks && s.stacks[context].entries != [] && o in objects && o in s.tokens
      && Top(s.stacks[context]).o == o
    case Update(p, _) => p in s.providers
    case Interrupt(context, o, point) =>
      && CanEnter(objects, s, context, o)
      && (point.Unlisted? ==> !IsEntered(s, context, o))
  }

  /** Whether an override is entered in a context. */
  predicate IsEntered(s: State, context: Context, o: OverrideId) {
    context in s.stacks && TokensOf(s.stacks[context], o) != []
  }

  predicate CanEnter(objects: Objects, s: State, context: Context, o: OverrideId) {
    context in s.stacks && o in objects && objects[o].owner == context && o in s.tokens && objects[o].dep in s.providers
  }

  /** What a forked context starts with. */
  function Inherited(s: State, from: Context): Stack
    requires from in s.stacks
  {
    Stack(map p | p in s.providers && Innermost(s.stacks[from], p).Some? :: Innermost(s.stacks[from], p).value, [])
  }

  function ForkedProvider(p: Provider, from: Context, to: Context): Provider {
    p.(values := Write(p.values, to, Read(p, from)))
  }

  /** What entering an override pushes. */
  function Pushed(objects: Objects, s: State, context: Context, o: OverrideId): Entry
    requires CanEnter(objects, s, context, o)
  {
    Entry(o, objects[o].dep, objects[o].value, Read(s.providers[objects[o].dep], context))
  }

  function EnterStep(objects: Objects, s: State, context: Context, o: OverrideId): State
    requires CanEnter(objects, s, context, o)
  {
    var e := Pushed(objects, s, context, o);
    s.(providers := s.providers[e.dep := Entered(s.providers[e.dep], context, e.value)],
       tokens := s.tokens[o := s.tokens[o] + [e.saved]],
       stacks := s.stacks[context := Push(s.stacks[context], e)])
  }

  /** Exiting pops a token and puts back the value in it. It does nothing if no token or provider is there. */
  function ExitStep(objects: Objects, s: State, context: Context, o: OverrideId): State
    requires Enabled(objects, s, Exit(context, o))
  {
    var n := |s.tokens[o]|;
    var dep := objects[o].dep;
    if n == 0 || dep !in s.providers || s.providers[dep].count == 0 then s
    else
      s.(providers := s.providers[dep := Exited(s.providers[dep], context, s.tokens[o][n - 1])],
         tokens := s.tokens[o := s.tokens[o][..n - 1]],
         stacks := s.stacks[context := Pop(s.stacks[context])])
  }

  /** What an entry that is interrupted did to its provider. */
  function LeftProvider(p: Provider, context: Context, value: Value, keepsValue: bool): Provider {
    Provider(p.dependency, Reader, p.count + 1, if keepsValue then p.values[context := value] else p.values)
  }

  function WithValue(
    stacks: map<Context, Stack>, context: Context, dep: ProviderId, value: Value, keepsValue: bool
  ): map<Context, Stack>
    requires context in stacks
  {
    if keepsValue then stacks[context := Overlay(stacks[context], dep, value)] else stacks
  }

  /** Whether a point leaves the value set. */
  predicate SetsValue(point: Point) {
    point.ValueSet? || point.Unlisted?
  }

  /**
   * What an interrupted entry leaves. Its value is there unless an entry of the provider below it was
   * exited since (`restored`), and its token, which holds `saved`, if it was kept.
   */
  function Left(
    objects: Objects, s: State, context: Context, o: OverrideId, point: Point, saved: Option<Value>, restored: bool
  ): State
    requires CanEnter(objects, s, context, o)
  {
    var dep, value := objects[o].dep, objects[o].value;
    var keepsValue := SetsValue(point) && !restored;
    if point.Waiting? then s
    else
      State(s.providers[dep := LeftProvider(s.providers[dep], context, value, keepsValue)],
            if point.Unlisted? then s.tokens[o := s.tokens[o] + [saved]] else s.tokens,
            WithValue(s.stacks, context, dep, value, keepsValue),
            s.leaked[dep := Leaked(s.leaked, dep) + 1],
            if point.Unlisted? then s.stale[o := Stale(s.stale, o) + [saved]] else s.stale)
  }

  function InterruptStep(objects: Objects, s: State, context: Context, o: OverrideId, point: Point): State
    requires CanEnter(objects, s, context, o)
  {
    Left(objects, s, context, o, point, Read(s.providers[objects[o].dep], context), false)
  }

  function Step(objects: Objects, s: State, l: Label): State
    requires Enabled(objects, s, l)
  {
    match l
    case Fork(from, to) =>
      s.(providers := map p | p in s.providers :: ForkedProvider(s.providers[p], from, to),
         stacks := s.stacks[to := Inherited(s, from)])
    case Enter(context, o) => EnterStep(objects, s, context, o)
    case Exit(context, o) => ExitStep(objects, s, context, o)
    case Update(p, dependency) => s.(providers := s.providers[p := Updated(s.providers[p], dependency)])
    case Interrupt(context, o, point) => InterruptStep(objects, s, context, o, point)
  }

  predicate Runs(objects: Objects, s: State, labels: seq<Label>)
    decreases |labels|
  {
    labels == [] || (Enabled(objects, s, labels[0]) && Runs(objects, Step(objects, s, labels[0]), labels[1..]))
  }

  function Run(objects: Objects, s: State, labels: seq<Label>): State
    requires Runs(objects, s, labels)
    decreases |labels|
  {
    if labels == [] then s else Run(objects, Step(objects, s, labels[0]), labels[1..])
  }

  /** One root context, and providers and overrides as they are made. */
  function Initial(providers: map<ProviderId, Callable>, objects: Objects, root: Context): State {
    State(map p | p in providers :: Provider(providers[p], Direct(providers[p]), 0, map[]),
          map o | o in objects :: [],
          map[root := Stack(map[], [])], map[], map[])
  }

  // ----- what every step keeps -----

  predicate IsOpen(stacks: map<Context, Stack>, p: ProviderId, context: Context, i: nat) {
    context in stacks && i < |stacks[context].entries| && stacks[context].entries[i].dep == p
  }

  /** Where a provider's overrides are entered, over all contexts. */
  ghost function Open(stacks: map<Context, Stack>, p: ProviderId): set<(Context, nat)> {
    set context, i | context in stacks && 0 <= i < |stacks[context].entries| && IsOpen(stacks, p, context, i) ::
      (context, i)
  }

  /** What a provider provides is its dependency exactly while its count is zero. */
  predicate ProvideOk(p: Provider) {
    p.provide == if p.count > 0 then Reader else Direct(p.dependency)
  }

  /** A provider counts what is entered and what was interrupted, and each context sees its innermost value. */
  ghost predicate ProviderOk(stacks: map<Context, Stack>, leaked: nat, id: ProviderId, p: Provider) {
    && p.count == |Open(stacks, id)| + leaked
    && ProvideOk(p)
    && (forall context <- stacks :: Read(p, context) == Innermost(stacks[context], id))
  }

  /** An entry is its override's, and took the place of what was innermost below it. */
  predicate EntryOk(objects: Objects, context: Context, below: Stack, e: Entry) {
    && e.o in objects && objects[e.o].owner == context && e.dep == objects[e.o].dep
    && e.saved == Innermost(below, e.dep)
  }

  predicate StackOk(objects: Objects, context: Context, stack: Stack)
    decreases |stack.entries|
  {
    stack.entries == [] || (StackOk(objects, context, Pop(stack)) && EntryOk(objects, context, Pop(stack), Top(stack)))
  }

  /** The tokens of an override's entries. */
  function HeldBy(objects: Objects, stacks: map<Context, Stack>, o: OverrideId): seq<Option<Value>>
    requires o in objects
  {
    if objects[o].owner in stacks then TokensOf(stacks[objects[o].owner], o) else []
  }

  /** An override's tokens are those nobody will use, and then those of its entries. */
  predicate TokenOk(objects: Objects, tokens: Tokens, stale: Tokens, stacks: map<Context, Stack>, o: OverrideId)
    requires o in objects
  {
    o in tokens && tokens[o] == Stale(stale, o) + HeldBy(objects, stacks, o)
  }

  ghost predicate TokensOk(objects: Objects, tokens: Tokens, stale: Tokens, stacks: map<Context, Stack>) {
    forall o <- objects :: TokenOk(objects, tokens, stale, stacks, o)
  }

  ghost predicate ProvidersOk(
    providers: map<ProviderId, Provider>, stacks: map<Context, Stack>, leaked: map<ProviderId, nat>
  ) {
    forall p <- providers :: ProviderOk(stacks, Leaked(leaked, p), p, providers[p])
  }

  ghost predicate Inv(objects: Objects, s: State) {
    && ProvidersOk(s.providers, s.stacks, s.leaked)
    && (forall o <- objects :: objects[o].dep in s.providers)
    && TokensOk(objects, s.tokens, s.stale, s.stacks)
    && StacksOk(objects, s.stacks)
  }

  ghost predicate StacksOk(objects: Objects, stacks: map<Context, Stack>) {
    forall context <- stacks :: StackOk(objects, context, stacks[context])
  }

  lemma PushPop(stack: Stack, e: Entry)
    ensures Pop(Push(stack, e)) == stack && Top(Push(stack, e)) == e
  {
    assert (stack.entries + [e])[..|stack.entries|] == stack.entries;
  }

  lemma PopPush(stack: Stack)
    requires stack.entries != []
    ensures Push(Pop(stack), Top(stack)) == stack
  {
    assert stack.entries[..|stack.entries| - 1] + [Top(stack)] == stack.entries;
  }

  lemma OpenPushed(stacks: map<Context, Stack>, context: Context, e: Entry, p: ProviderId)
    requires context in stacks
    ensures |Open(stacks[context := Push(stacks[context], e)], p)| == |Open(stacks, p)| + if e.dep == p then 1 else 0
  {
    var after := stacks[context := Push(stacks[context], e)];
    var n := |stacks[context].entries|;
    assert (context, n) !in Open(stacks, p);
    forall c, i: nat
      ensures IsOpen(after, p, c, i) <==> IsOpen(stacks, p, c, i) || (e.dep == p && c == context && i == n)
    {
    }
    if e.dep == p {
      assert Open(after, p) == Open(stacks, p) + {(context, n)};
    } else {
      assert Open(after, p) == Open(stacks, p);
    }
  }

  /** Where overrides are entered depends on the providers of the entries alone. */
  lemma SameOpen(stacks: map<Context, Stack>, after: map<Context, Stack>, p: ProviderId)
    requires forall c, i: nat :: IsOpen(after, p, c, i) <==> IsOpen(stacks, p, c, i)
    ensures Open(after, p) == Open(stacks, p)
  {
  }

  lemma EnteredProviderOk(
    stacks: map<Context, Stack>, leaked: nat, context: Context, e: Entry, id: ProviderId, p: Provider
  )
    requires context in stacks && ProviderOk(stacks, leaked, id, p)
    ensures var after := if e.dep == id then Entered(p, context, e.value) else p;
            ProviderOk(stacks[context := Push(stacks[context], e)], leaked, id, after)
  {
    OpenPushed(stacks, context, e, id);
    PushPop(stacks[context], e);
  }

  lemma ExitedProviderOk(
    stacks: map<Context, Stack>, leaked: nat, context: Context, e: Entry, id: ProviderId, p: Provider
  )
    requires context in stacks && ProviderOk(stacks[context := Push(stacks[context], e)], leaked, id, p)
    requires e.dep == id ==> e.saved == Innermost(stacks[context], id)
    ensures e.dep == id ==> p.count > 0
    ensures ProviderOk(stacks, leaked, id, if e.dep == id then Exited(p, context, e.saved) else p)
  {
    OpenPushed(stacks, context, e, id);
    PushPop(stacks[context], e);
    var after := stacks[context := Push(stacks[context], e)];
    forall c | c in stacks
      ensures Read(if e.dep == id then Exited(p, context, e.saved) else p, c) == Innermost(stacks[c], id)
    {
      assert c in after && Read(p, c) == Innermost(after[c], id);
    }
  }

  lemma EnterKeepsProviders(
    providers: map<ProviderId, Provider>, stacks: map<Context, Stack>, leaked: map<ProviderId, nat>, context: Context,
    e: Entry
  )
    requires context in stacks && e.dep in providers && ProvidersOk(providers, stacks, leaked)
    ensures ProvidersOk(providers[e.dep := Entered(providers[e.dep], context, e.value)],
                        stacks[context := Push(stacks[context], e)], leaked)
  {
    forall p | p in providers
      ensures ProviderOk(stacks[context := Push(stacks[context], e)], Leaked(leaked, p), p,
                         if e.dep == p then Entered(providers[p], context, e.value) else providers[p])
    {
      EnteredProviderOk(stacks, Leaked(leaked, p), context, e, p, providers[p]);
    }
  }

  /** Pushing an entry adds its token to its override's. */
  lemma HeldPushed(objects: Objects, stacks: map<Context, Stack>, context: Context, e: Entry, o: OverrideId)
    requires context in stacks && o in objects && e.o == o && objects[o].owner == context
    ensures HeldBy(objects, stacks[context := Push(stacks[context], e)], o) == HeldBy(objects, stacks, o) + [e.saved]
  {
    PushPop(stacks[context], e);
  }

  lemma EnterKeepsTokens(
    objects: Objects, tokens: Tokens, stale: Tokens, stacks: map<Context, Stack>, context: Context, e: Entry
  )
    requires context in stacks && e.o in objects && objects[e.o].owner == context
    requires TokensOk(objects, tokens, stale, stacks)
    ensures e.o in tokens
    ensures TokensOk(objects, tokens[e.o := tokens[e.o] + [e.saved]], stale,
                     stacks[context := Push(stacks[context], e)])
  {
    assert TokenOk(objects, tokens, stale, stacks, e.o);
    var after := tokens[e.o := tokens[e.o] + [e.saved]];
    forall o | o in objects ensures TokenOk(objects, after, stale, stacks[context := Push(stacks[context], e)], o) {
      assert TokenOk(objects, tokens, stale, stacks, o);
      if o == e.o {
        HeldPushed(objects, stacks, context, e, o);
      } else {
        HeldByOthers(objects, stacks, context, e, o);
      }
    }
  }

  lemma HeldByOthers(objects: Objects, stacks: map<Context, Stack>, context: Context, e: Entry, o: OverrideId)
    requires context in stacks && o in objects && e.o != o
    ensures HeldBy(objects, stacks[context := Push(stacks[context], e)], o) == HeldBy(objects, stacks, o)
  {
    PushPop(stacks[context], e);
  }

  lemma EnterKeepsInv(objects: Objects, s: State, context: Context, o: OverrideId)
    requires Inv(objects, s) && CanEnter(objects, s, context, o)
    ensures Inv(objects, EnterStep(objects, s, context, o))
  {
    var e := Pushed(objects, s, context, o);
    assert ProviderOk(s.stacks, Leaked(s.leaked, e.dep), e.dep, s.providers[e.dep]);
    assert StackOk(objects, context, s.stacks[context]);
    PushPop(s.stacks[context], e);
    EnterKeepsProviders(s.providers, s.stacks, s.leaked, context, e);
    EnterKeepsTokens(objects, s.tokens, s.stale, s.stacks, context, e);
    StacksStay(objects, s.stacks, context, Push(s.stacks[context], e));
  }

  /** The innermost entry of a context that can exit an override, and what is below it. */
  lemma TopEntry(objects: Objects, s: State, context: Context, o: OverrideId) returns (stack: Stack, e: Entry)
    requires Enabled(objects, s, Exit(context, o)) && StackOk(objects, context, s.stacks[context])
    ensures stack == Pop(s.stacks[context]) && s.stacks[context] == Push(stack, e)
    ensures StackOk(objects, context, stack) && EntryOk(objects, context, stack, e) && e.o == o
  {
    stack, e := Pop(s.stacks[context]), Top(s.stacks[context]);
    PopPush(s.stacks[context]);
  }

  /** Its token is the last one of its override. */
  lemma TopToken(objects: Objects, s: State, context: Context, stack: Stack, e: Entry)
    requires context in s.stacks && s.stacks[context] == Push(stack, e)
    requires e.o in objects && objects[e.o].owner == context && TokenOk(objects, s.tokens, s.stale, s.stacks, e.o)
    ensures var tokens := s.tokens[e.o];
            && tokens != [] && tokens[|tokens| - 1] == e.saved
            && tokens[..|tokens| - 1] == Stale(s.stale, e.o) + TokensOf(stack, e.o)
  {
    PushPop(stack, e);
    assert s.tokens[e.o] == (Stale(s.stale, e.o) + TokensOf(stack, e.o)) + [e.saved];
  }

  lemma EnteredIsCounted(
    stacks: map<Context, Stack>, leaked: nat, context: Context, stack: Stack, e: Entry, p: Provider
  )
    requires context in stacks && stacks[context] == Push(stack, e) && e.saved == Innermost(stack, e.dep)
    requires ProviderOk(stacks, leaked, e.dep, p)
    ensures p.count > 0
  {
    var before := stacks[context := stack];
    assert before[context := Push(before[context], e)] == stacks;
    ExitedProviderOk(before, leaked, context, e, e.dep, p);
  }

  /** What exiting the innermost override of a context leaves: all as it was below its entry. */
  lemma ExitMeans(objects: Objects, s: State, context: Context, o: OverrideId) returns (stack: Stack, e: Entry)
    requires Enabled(objects, s, Exit(context, o)) && StackOk(objects, context, s.stacks[context])
    requires TokenOk(objects, s.tokens, s.stale, s.stacks, o) && objects[o].dep in s.providers
    requires ProviderOk(s.stacks, Leaked(s.leaked, objects[o].dep), objects[o].dep, s.providers[objects[o].dep])
    ensures s.stacks[context] == Push(stack, e)
    ensures StackOk(objects, context, stack) && EntryOk(objects, context, stack, e) && e.o == o
    ensures s.providers[e.dep].count > 0
    ensures ExitStep(objects, s, context, o) ==
            s.(providers := s.providers[e.dep := Exited(s.providers[e.dep], context, e.saved)],
               tokens := s.tokens[o := Stale(s.stale, o) + TokensOf(stack, o)],
               stacks := s.stacks[context := stack])
  {
    stack, e := TopEntry(objects, s, context, o);
    TopToken(objects, s, context, stack, e);
    EnteredIsCounted(s.stacks, Leaked(s.leaked, e.dep), context, stack, e, s.providers[e.dep]);
  }

  lemma ExitKeepsProviders(
    providers: map<ProviderId, Provider>, stacks: map<Context, Stack>, leaked: map<ProviderId, nat>, context: Context,
    e: Entry
  )
    requires context in stacks && e.saved == Innermost(stacks[context], e.dep)
    requires ProvidersOk(providers, stacks[context := Push(stacks[context], e)], leaked)
    requires e.dep in providers && providers[e.dep].count > 0
    ensures ProvidersOk(providers[e.dep := Exited(providers[e.dep], context, e.saved)], stacks, leaked)
  {
    forall p | p in providers
      ensures ProviderOk(stacks, Leaked(leaked, p), p,
                         if e.dep == p then Exited(providers[p], context, e.saved) else providers[p])
    {
      ExitedProviderOk(stacks, Leaked(leaked, p), context, e, p, providers[p]);
    }
  }

  lemma ExitKeepsTokens(
    objects: Objects, tokens: Tokens, stale: Tokens, stacks: map<Context, Stack>, context: Context, e: Entry
  )
    requires context in stacks && e.o in objects && objects[e.o].owner == context
    requires TokensOk(objects, tokens, stale, stacks[context := Push(stacks[context], e)])
    ensures TokensOk(objects, tokens[e.o := Stale(stale, e.o) + TokensOf(stacks[context], e.o)], stale, stacks)
  {
    var after := tokens[e.o := Stale(stale, e.o) + TokensOf(stacks[context], e.o)];
    forall o | o in objects ensures TokenOk(objects, after, stale, stacks, o) {
      assert TokenOk(objects, tokens, stale, stacks[context := Push(stacks[context], e)], o);
      if o != e.o {
        HeldByOthers(objects, stacks, context, e, o);
      }
    }
  }

  lemma StacksStay(objects: Objects, stacks: map<Context, Stack>, context: Context, stack: Stack)
    requires StacksOk(objects, stacks) && StackOk(objects, context, stack)
    ensures StacksOk(objects, stacks[context := stack])
  {
  }

  lemma ExitKeepsInv(objects: Objects, s: State, context: Context, o: OverrideId)
    requires Inv(objects, s) && Enabled(objects, s, Exit(context, o))
    ensures Inv(objects, ExitStep(objects, s, context, o))
  {
    assert StackOk(objects, context, s.stacks[context]) && TokenOk(objects, s.tokens, s.stale, s.stacks, o);
    assert ProviderOk(s.stacks, Leaked(s.leaked, objects[o].dep), objects[o].dep, s.providers[objects[o].dep]);
    var stack, e := ExitMeans(objects, s, context, o);
    var below := s.stacks[context := stack];
    Rebuilt(s.stacks, context, stack, e);
    ExitKeepsProviders(s.providers, below, s.leaked, context, e);
    ExitKeepsTokens(objects, s.tokens, s.stale, below, context, e);
    StacksStay(objects, s.stacks, context, stack);
  }

  lemma Rebuilt(stacks: map<Context, Stack>, context: Context, stack: Stack, e: Entry)
    requires context in stacks && stacks[context] == Push(stack, e)
    ensures var below := stacks[context := stack]; below[context := Push(below[context], e)] == stacks
  {
  }

  lemma ForkedProviderOk(s: State, from: Context, to: Context, id: ProviderId)
    requires from in s.stacks && to !in s.stacks && id in s.providers
    requires ProviderOk(s.stacks, Leaked(s.leaked, id), id, s.providers[id])
    ensures ProviderOk(s.stacks[to := Inherited(s, from)], Leaked(s.leaked, id), id,
                       ForkedProvider(s.providers[id], from, to))
  {
    var after := s.stacks[to := Inherited(s, from)];
    SameOpen(s.stacks, after, id);
    var p := ForkedProvider(s.providers[id], from, to);
    forall context | context in after ensures Read(p, context) == Innermost(after[context], id) {
      if context != to {
        assert Read(s.providers[id], context) == Innermost(s.stacks[context], id);
      }
    }
  }

  lemma ForkKeepsProviders(s: State, from: Context, to: Context)
    requires from in s.stacks && to !in s.stacks && ProvidersOk(s.providers, s.stacks, s.leaked)
    ensures ProvidersOk(map p | p in s.providers :: ForkedProvider(s.providers[p], from, to),
                        s.stacks[to := Inherited(s, from)], s.leaked)
  {
    forall p | p in s.providers
      ensures ProviderOk(s.stacks[to := Inherited(s, from)], Leaked(s.leaked, p), p,
                         ForkedProvider(s.providers[p], from, to))
    {
      ForkedProviderOk(s, from, to, p);
    }
  }

  lemma ForkKeepsTokens(
    objects: Objects, tokens: Tokens, stale: Tokens, stacks: map<Context, Stack>, to: Context, stack: Stack
  )
    requires to !in stacks && stack.entries == [] && TokensOk(objects, tokens, stale, stacks)
    ensures TokensOk(objects, tokens, stale, stacks[to := stack])
  {
    forall o | o in objects ensures TokenOk(objects, tokens, stale, stacks[to := stack], o) {
      assert TokenOk(objects, tokens, stale, stacks, o);
    }
  }

  lemma ForkKeepsInv(objects: Objects, s: State, from: Context, to: Context)
    requires Inv(objects, s) && Enabled(objects, s, Fork(from, to))
    ensures Inv(objects, Step(objects, s, Fork(from, to)))
  {
    ForkKeepsProviders(s, from, to);
    ForkKeepsTokens(objects, s.tokens, s.stale, s.stacks, to, Inherited(s, from));
    StacksStay(objects, s.stacks, to, Inherited(s, from));
  }

  // ----- what an interrupted entry leaves -----

  /** A value left over changes what is innermost for its provider, and no entry's provider or token. */
  lemma {:induction false} OverlayShape(stack: Stack, p: ProviderId, value: Value)
    ensures var t := Overlay(stack, p, value);
            && |t.entries| == |stack.entries|
            && forall i :: 0 <= i < |stack.entries| ==> t.entries[i].dep == stack.entries[i].dep
    decreases |stack.entries|
  {
    if stack.entries != [] && Top(stack).dep != p {
      OverlayShape(Pop(stack), p, value);
    }
  }

  lemma {:induction false} OverlayInnermost(stack: Stack, p: ProviderId, value: Value, id: ProviderId)
    ensures Innermost(Overlay(stack, p, value), id) == if id == p then Some(value) else Innermost(stack, id)
    decreases |stack.entries|
  {
    if stack.entries != [] {
      OverlayInnermost(Pop(stack), p, value, id);
      OverlayPops(stack, p, value);
    }
  }

  lemma OverlayPops(stack: Stack, p: ProviderId, value: Value)
    requires stack.entries != []
    ensures var t := Overlay(stack, p, value);
            && t.entries != [] && Top(t).dep == Top(stack).dep && Top(t).o == Top(stack).o
            && Top(t).saved == Top(stack).saved
            && Top(t).value == (if Top(stack).dep == p then value else Top(stack).value)
            && Pop(t) == if Top(stack).dep == p then Pop(stack) else Overlay(Pop(stack), p, value)
  {
    if Top(stack).dep == p {
      PushPop(Pop(stack), Top(stack).(value := value));
    } else {
      PushPop(Overlay(Pop(stack), p, value), Top(stack));
    }
  }

  lemma {:induction false} OverlayTokens(stack: Stack, p: ProviderId, value: Value, o: OverrideId)
    ensures TokensOf(Overlay(stack, p, value), o) == TokensOf(stack, o)
    decreases |stack.entries|
  {
    if stack.entries != [] {
      OverlayTokens(Pop(stack), p, value, o);
      OverlayPops(stack, p, value);
    }
  }

  lemma {:induction false} OverlayKeepsStack(
    objects: Objects, context: Context, stack: Stack, p: ProviderId, value: Value
  )
    requires StackOk(objects, context, stack)
    ensures StackOk(objects, context, Overlay(stack, p, value))
    decreases |stack.entries|
  {
    if stack.entries != [] {
      OverlayPops(stack, p, value);
      if Top(stack).dep != p {
        OverlayKeepsStack(objects, context, Pop(stack), p, value);
        OverlayInnermost(Pop(stack), p, value, Top(stack).dep);
      }
    }
  }

  lemma LeftProviderOk(
    stacks: map<Context, Stack>, leaked: nat, context: Context, id: ProviderId, p: Provider,
    dep: ProviderId, value: Value, keepsValue: bool
  )
    requires context in stacks && ProviderOk(stacks, leaked, id, p)
    ensures var after := WithValue(stacks, context, dep, value, keepsValue);
            if dep == id then ProviderOk(after, leaked + 1, id, LeftProvider(p, context, value, keepsValue))
            else ProviderOk(after, leaked, id, p)
  {
    if keepsValue {
      OverlayShape(stacks[context], dep, value);
      OverlayInnermost(stacks[context], dep, value, id);
      SameOpen(stacks, WithValue(stacks, context, dep, value, true), id);
    }
  }

  lemma LeftKeepsTokens(
    objects: Objects, s: State, context: Context, o: OverrideId, point: Point, saved: Option<Value>, restored: bool
  )
    requires CanEnter(objects, s, context, o) && TokensOk(objects, s.tokens, s.stale, s.stacks)
    requires point.Unlisted? ==> !IsEntered(s, context, o)
    ensures var t := Left(objects, s, context, o, point, saved, restored);
            TokensOk(objects, t.tokens, t.stale, t.stacks)
  {
    var t := Left(objects, s, context, o, point, saved, restored);
    forall other | other in objects ensures TokenOk(objects, t.tokens, t.stale, t.stacks, other) {
      assert TokenOk(objects, s.tokens, s.stale, s.stacks, other);
      OverlayTokens(s.stacks[context], objects[o].dep, objects[o].value, other);
      assert HeldBy(objects, t.stacks, other) == HeldBy(objects, s.stacks, other);
      if point.Unlisted? && other == o {
        assert s.tokens[o] == Stale(s.stale, o) && Stale(t.stale, o) == Stale(s.stale, o) + [saved];
      }
    }
  }

  lemma LeftKeepsProviders(
    objects: Objects, s: State, context: Context, o: OverrideId, point: Point, saved: Option<Value>, restored: bool
  )
    requires CanEnter(objects, s, context, o) && ProvidersOk(s.providers, s.stacks, s.leaked)
    ensures var t := Left(objects, s, context, o, point, saved, restored);
            ProvidersOk(t.providers, t.stacks, t.leaked)
  {
    var t := Left(objects, s, context, o, point, saved, restored);
    if !point.Waiting? {
      forall p | p in t.providers ensures ProviderOk(t.stacks, Leaked(t.leaked, p), p, t.providers[p]) {
        LeftProviderOk(s.stacks, Leaked(s.leaked, p), context, p, s.providers[p], objects[o].dep, objects[o].value,
                       SetsValue(point) && !restored);
      }
    }
  }

  /** What follows an interrupted entry is as sound as what came before. */
  lemma LeftKeepsInv(
    objects: Objects, s: State, context: Context, o: OverrideId, point: Point, saved: Option<Value>, restored: bool
  )
    requires Inv(objects, s) && CanEnter(objects, s, context, o)
    requires point.Unlisted? ==> !IsEntered(s, context, o)
    ensures Inv(objects, Left(objects, s, context, o, point, saved, restored))
  {
    LeftKeepsTokens(objects, s, context, o, point, saved, restored);
    LeftKeepsProviders(objects, s, context, o, point, saved, restored);
    LeftKeepsStacks(objects, s.stacks, context, objects[o].dep, objects[o].value, SetsValue(point) && !restored);
  }

  lemma LeftKeepsStacks(
    objects: Objects, stacks: map<Context, Stack>, context: Context, dep: ProviderId, value: Value, keepsValue: bool
  )
    requires context in stacks && StacksOk(objects, stacks)
    ensures StacksOk(objects, WithValue(stacks, context, dep, value, keepsValue))
  {
    OverlayKeepsStack(objects, context, stacks[context], dep, value);
    StacksStay(objects, stacks, context, Overlay(stacks[context], dep, value));
  }

  lemma StepKeepsInv(objects: Objects, s: State, l: Label)
    requires Inv(objects, s) && Enabled(objects, s, l)
    ensures Inv(objects, Step(objects, s, l))
  {
    match l
    case Fork(from, to) => ForkKeepsInv(objects, s, from, to);
    case Enter(context, o) => EnterKeepsInv(objects, s, context, o);
    case Exit(context, o) => ExitKeepsInv(objects, s, context, o);
    case Update(p, dependency) => UpdateKeepsInv(objects, s, p, dependency);
    case Interrupt(context, o, point) =>
      LeftKeepsInv(objects, s, context, o, point, Read(s.providers[objects[o].dep], context), false);
  }

  lemma UpdateKeepsInv(objects: Objects, s: State, id: ProviderId, dependency: Callable)
    requires Inv(objects, s) && id in s.providers
    ensures Inv(objects, s.(providers := s.providers[id := Updated(s.providers[id], dependency)]))
  {
    UpdateKeepsProviders(s.providers, s.stacks, s.leaked, id, dependency);
  }

  lemma UpdateKeepsProviders(
    providers: map<ProviderId, Provider>, stacks: map<Context, Stack>, leaked: map<ProviderId, nat>, id: ProviderId,
    dependency: Callable
  )
    requires id in providers && ProvidersOk(providers, stacks, leaked)
    ensures ProvidersOk(providers[id := Updated(providers[id], dependency)], stacks, leaked)
  {
    assert ProviderOk(stacks, Leaked(leaked, id), id, providers[id]);
    var p := Updated(providers[id], dependency);
    forall context | context in stacks ensures Read(p, context) == Innermost(stacks[context], id) {
      assert Read(providers[id], context) == Innermost(stacks[context], id);
    }
  }

  lemma {:induction false} RunKeepsInv(objects: Objects, s: State, labels: seq<Label>)
    requires Inv(objects, s) && Runs(objects, s, labels)
    ensures Inv(objects, Run(objects, s, labels))
    decreases |labels|
  {
    if labels != [] {
      StepKeepsInv(objects, s, labels[0]);
      RunKeepsInv(objects, Step(objects, s, labels[0]), labels[1..]);
    }
  }

  /** Every override is of a provider that was made. */
  predicate Grounded(providers: map<ProviderId, Callable>, objects: Objects) {
    forall o <- objects :: objects[o].dep in providers
  }

  lemma InitialInv(providers: map<ProviderId, Callable>, objects: Objects, root: Context)
    requires Grounded(providers, objects)
    ensures Inv(objects, Initial(providers, objects, root))
  {
    var s := Initial(providers, objects, root);
    forall p | p in s.providers ensures ProviderOk(s.stacks, Leaked(s.leaked, p), p, s.providers[p]) {
      assert Open(s.stacks, p) == {};
    }
  }

  // ----- main results, over every well-nested run across contexts -----

  /** What a per-context stack would give: the innermost value, or else the current dependency. */
  function FromStack(stack: Stack, id: ProviderId, dependency: Callable): Result {
    var v := Innermost(stack, id);
    if v.Some? then Overridden(v.value) else Computed(dependency)
  }

  /**
   * What a provider provides is the override reader exactly while its count is positive, which counts
   * the overrides entered and the entries interrupted once counted. A call then yields the stack's
   * answer, and otherwise what the current dependency returns, whenever the dependency was updated.
   */
  lemma CallsFollowTheStack(
    providers: map<ProviderId, Callable>, objects: Objects, root: Context, labels: seq<Label>, id: ProviderId,
    context: Context
  )
    requires Grounded(providers, objects) && Runs(objects, Initial(providers, objects, root), labels)
    requires id in Run(objects, Initial(providers, objects, root), labels).providers
    requires context in Run(objects, Initial(providers, objects, root), labels).stacks
    ensures var s := Run(objects, Initial(providers, objects, root), labels);
            var p := s.providers[id];
            && (p.provide == Reader <==> p.count > 0) && p.count == |Open(s.stacks, id)| + Leaked(s.leaked, id)
            && Called(p, context) == if p.count > 0 then FromStack(s.stacks[context], id, p.dependency)
                                     else Computed(p.dependency)
  {
    InitialInv(providers, objects, root);
    RunKeepsInv(objects, Initial(providers, objects, root), labels);
    var s := Run(objects, Initial(providers, objects, root), labels);
    assert ProviderOk(s.stacks, Leaked(s.leaked, id), id, s.providers[id]);
  }

  /**
   * So the one callable and the variable are a stack per context, but for one case: a value that a
   * context inherited is not seen while its provider's count is zero.
   */
  lemma FollowsTheStackExactlyWhen(objects: Objects, s: State, id: ProviderId, context: Context)
    requires Inv(objects, s) && id in s.providers && context in s.stacks
    ensures Called(s.providers[id], context) == FromStack(s.stacks[context], id, s.providers[id].dependency)
       <==> s.providers[id].count > 0 || Innermost(s.stacks[context], id).None?
    ensures (exists i :: 0 <= i < |s.stacks[context].entries| && IsOpen(s.stacks, id, context, i)) ==>
              s.providers[id].count > 0
  {
    assert ProviderOk(s.stacks, Leaked(s.leaked, id), id, s.providers[id]);
    forall i | 0 <= i < |s.stacks[context].entries| && IsOpen(s.stacks, id, context, i)
      ensures s.providers[id].count > 0
    {
      assert (context, i) in Open(s.stacks, id);
    }
  }

  // ----- which override's value, and which dependency -----

  /** The dependency that the last update of a provider set, or the one it started with. */
  function LastUpdated(labels: seq<Label>, id: ProviderId, first: Callable): Callable
    decreases |labels|
  {
    if labels == [] then first
    else LastUpdated(labels[1..], id, if labels[0].Update? && labels[0].p == id then labels[0].dependency else first)
  }

  lemma StepUpdates(objects: Objects, s: State, l: Label, id: ProviderId)
    requires Enabled(objects, s, l) && id in s.providers
    ensures var t := Step(objects, s, l);
            && id in t.providers
            && t.providers[id].dependency == if l.Update? && l.p == id then l.dependency else s.providers[id].dependency
  {
  }

  lemma {:induction false} RunUpdates(objects: Objects, s: State, labels: seq<Label>, id: ProviderId)
    requires Runs(objects, s, labels) && id in s.providers
    ensures var t := Run(objects, s, labels);
            id in t.providers && t.providers[id].dependency == LastUpdated(labels, id, s.providers[id].dependency)
    decreases |labels|
  {
    if labels != [] {
      StepUpdates(objects, s, labels[0], id);
      RunUpdates(objects, Step(objects, s, labels[0]), labels[1..], id);
    }
  }

  /** The overrides entered in a context and not exited, innermost last, as the steps alone say. */
  function Within(labels: seq<Label>, context: Context, open: seq<OverrideId>): seq<OverrideId>
    decreases |labels|
  {
    if labels == [] then open
    else Within(labels[1..], context, NextOpen(labels[0], context, open))
  }

  function NextOpen(l: Label, context: Context, open: seq<OverrideId>): seq<OverrideId> {
    if l.Enter? && l.context == context then open + [l.o]
    else if l.Exit? && l.context == context && open != [] then open[..|open| - 1]
    else open
  }

  /** Which open override of a provider is innermost. */
  predicate IsInnermost(objects: Objects, open: seq<OverrideId>, id: ProviderId, i: nat) {
    && i < |open| && open[i] in objects && objects[open[i]].dep == id
    && forall j :: i < j < |open| ==> open[j] in objects && objects[open[j]].dep != id
  }

  predicate NoneInterrupted(labels: seq<Label>) {
    forall l <- labels :: !l.Interrupt?
  }

  function EntriesIn(s: State, context: Context): seq<Entry> {
    if context in s.stacks then s.stacks[context].entries else []
  }

  /** A context's entries are of the overrides open there, each with its provider and its value. */
  predicate EntriesAre(objects: Objects, s: State, context: Context, open: seq<OverrideId>) {
    && |EntriesIn(s, context)| == |open|
    && forall i :: 0 <= i < |open| ==>
         && open[i] in objects
         && EntriesIn(s, context)[i].dep == objects[open[i]].dep
         && EntriesIn(s, context)[i].value == objects[open[i]].value
  }

  lemma EnterEntries(objects: Objects, s: State, c: Context, o: OverrideId, context: Context, open: seq<OverrideId>)
    requires CanEnter(objects, s, c, o) && EntriesAre(objects, s, context, open)
    ensures EntriesAre(objects, EnterStep(objects, s, c, o), context, NextOpen(Enter(c, o), context, open))
  {
  }

  lemma ExitEntries(objects: Objects, s: State, c: Context, o: OverrideId, context: Context, open: seq<OverrideId>)
    requires Inv(objects, s) && Enabled(objects, s, Exit(c, o)) && EntriesAre(objects, s, context, open)
    ensures EntriesAre(objects, ExitStep(objects, s, c, o), context, NextOpen(Exit(c, o), context, open))
  {
    assert StackOk(objects, c, s.stacks[c]) && TokenOk(objects, s.tokens, s.stale, s.stacks, o);
    assert ProviderOk(s.stacks, Leaked(s.leaked, objects[o].dep), objects[o].dep, s.providers[objects[o].dep]);
    var stack, e := ExitMeans(objects, s, c, o);
    PoppedEntries(objects, s, c, stack, e, ExitStep(objects, s, c, o), context, open);
  }

  lemma PoppedEntries(
    objects: Objects, s: State, c: Context, stack: Stack, e: Entry, t: State, context: Context, open: seq<OverrideId>
  )
    requires c in s.stacks && s.stacks[c] == Push(stack, e) && t.stacks == s.stacks[c := stack]
    requires EntriesAre(objects, s, context, open)
    ensures EntriesAre(objects, t, context, if c == context && open != [] then open[..|open| - 1] else open)
  {
    if c == context {
      assert EntriesIn(s, context) == stack.entries + [e];
    }
  }

  lemma StepEntries(objects: Objects, s: State, l: Label, context: Context, open: seq<OverrideId>)
    requires Inv(objects, s) && Enabled(objects, s, l) && !l.Interrupt? && EntriesAre(objects, s, context, open)
    ensures EntriesAre(objects, Step(objects, s, l), context, NextOpen(l, context, open))
  {
    match l
    case Enter(c, o) => EnterEntries(objects, s, c, o, context, open);
    case Exit(c, o) => ExitEntries(objects, s, c, o, context, open);
    case Fork(from, to) => assert EntriesIn(Step(objects, s, l), context) == EntriesIn(s, context);
    case Update(p, dependency) => assert EntriesIn(Step(objects, s, l), context) == EntriesIn(s, context);
  }

  lemma {:induction false} RunEntries(
    objects: Objects, s: State, labels: seq<Label>, context: Context, open: seq<OverrideId>
  )
    requires Inv(objects, s) && Runs(objects, s, labels) && NoneInterrupted(labels)
    requires EntriesAre(objects, s, context, open)
    ensures EntriesAre(objects, Run(objects, s, labels), context, Within(labels, context, open))
    decreases |labels|
  {
    if labels != [] {
      assert labels[0] in labels && forall l <- labels[1..] :: l in labels;
      StepKeepsInv(objects, s, labels[0]);
      StepEntries(objects, s, labels[0], context, open);
      RunEntries(objects, Step(objects, s, labels[0]), labels[1..], context, NextOpen(labels[0], context, open));
    }
  }

  lemma {:induction false} InnermostEntry(stack: Stack, id: ProviderId, i: nat)
    requires i < |stack.entries| && stack.entries[i].dep == id
    requires forall j :: i < j < |stack.entries| ==> stack.entries[j].dep != id
    ensures Innermost(stack, id) == Some(stack.entries[i].value)
    decreases |stack.entries|
  {
    if i < |stack.entries| - 1 {
      InnermostEntry(Pop(stack), id, i);
    }
  }

  lemma OpenIsCounted(objects: Objects, s: State, context: Context, id: ProviderId, i: nat)
    requires Inv(objects, s) && id in s.providers && context in s.stacks && i < |s.stacks[context].entries|
    requires s.stacks[context].entries[i].dep == id
    ensures Called(s.providers[id], context) == FromStack(s.stacks[context], id, s.providers[id].dependency)
  {
    assert IsOpen(s.stacks, id, context, i);
    FollowsTheStackExactlyWhen(objects, s, id, context);
  }

  /**
   * So a call in a context yields the value of the innermost override of the provider entered there, and,
   * while none is entered anywhere, what the dependency that was set last returns.
   */
  lemma InnermostOverrideIsCalled(
    providers: map<ProviderId, Callable>, objects: Objects, root: Context, labels: seq<Label>, id: ProviderId,
    context: Context
  )
    requires Grounded(providers, objects) && Runs(objects, Initial(providers, objects, root), labels)
    requires NoneInterrupted(labels) && id in providers
    ensures var s, open := Run(objects, Initial(providers, objects, root), labels), Within(labels, context, []);
            && id in s.providers
            && (forall i :: 0 <= i < |open| && IsInnermost(objects, open, id, i) ==>
                  Called(s.providers[id], context) == Overridden(objects[open[i]].value))
            && (s.providers[id].count == 0 ==>
                  Called(s.providers[id], context) == Computed(LastUpdated(labels, id, providers[id])))
  {
    var start := Initial(providers, objects, root);
    var s, open := Run(objects, start, labels), Within(labels, context, []);
    InitialInv(providers, objects, root);
    RunKeepsInv(objects, start, labels);
    RunUpdates(objects, start, labels, id);
    RunEntries(objects, start, labels, context, []);
    assert ProviderOk(s.stacks, Leaked(s.leaked, id), id, s.providers[id]);
    forall i | 0 <= i < |open| && IsInnermost(objects, open, id, i)
      ensures Called(s.providers[id], context) == Overridden(objects[open[i]].value)
    {
      InnermostEntry(s.stacks[context], id, i);
      OpenIsCounted(objects, s, context, id, i);
    }
  }

  lemma StepThenRun(objects: Objects, s: State, l: Label, rest: seq<Label>)
    requires Enabled(objects, s, l) && Runs(objects, Step(objects, s, l), rest)
    ensures Runs(objects, s, [l] + rest) && Run(objects, s, [l] + rest) == Run(objects, Step(objects, s, l), rest)
  {
    assert ([l] + rest)[1..] == rest;
  }

  /** A run that shows that case: `root` enters an override, `child` is forked from it, and `root` exits. */
  datatype Story = Story(
    id: ProviderId, dependency: Callable, o: OverrideId, value: Value, root: Context, child: Context
  ) {
    function Objects(): Objects {
      map[o := Override(id, value, root)]
    }

    function Start(): State {
      Initial(map[id := dependency], Objects(), root)
    }

    function Made(): Entry {
      Entry(o, id, value, None)
    }

    function Entered(): State {
      State(map[id := Provider(dependency, Reader, 1, map[root := value])], map[o := [None]],
            map[root := Stack(map[], [Made()])], map[], map[])
    }

    function Forked(): State {
      State(map[id := Provider(dependency, Reader, 1, map[root := value, child := value])], map[o := [None]],
            map[root := Stack(map[], [Made()]), child := Stack(map[id := value], [])], map[], map[])
    }

    function Exited(): State {
      State(map[id := Provider(dependency, Direct(dependency), 0, map[child := value])], map[o := []],
            map[root := Stack(map[], []), child := Stack(map[id := value], [])], map[], map[])
    }
  }

  lemma StoryEnters(y: Story)
    ensures Enabled(y.Objects(), y.Start(), Enter(y.root, y.o))
    ensures Step(y.Objects(), y.Start(), Enter(y.root, y.o)) == y.Entered()
  {
    var s, t := y.Start(), y.Entered();
    var p := s.providers[y.id];
    assert p == Provider(y.dependency, Direct(y.dependency), 0, map[]);
    assert Read(p, y.root) == None && Entered(p, y.root, y.value) == t.providers[y.id];
    assert s.providers[y.id := t.providers[y.id]] == t.providers;
    assert s.tokens[y.o] + [None] == [None] && s.tokens[y.o := [None]] == t.tokens;
    assert Push(s.stacks[y.root], y.Made()) == t.stacks[y.root] && s.stacks[y.root := t.stacks[y.root]] == t.stacks;
  }

  lemma StoryForks(y: Story)
    requires y.root != y.child
    ensures Enabled(y.Objects(), y.Entered(), Fork(y.root, y.child))
    ensures Step(y.Objects(), y.Entered(), Fork(y.root, y.child)) == y.Forked()
  {
    var s, t := y.Entered(), Step(y.Objects(), y.Entered(), Fork(y.root, y.child));
    var p := s.providers[y.id];
    assert ForkedProvider(p, y.root, y.child) == y.Forked().providers[y.id];
    assert t.providers == y.Forked().providers;
    assert Innermost(s.stacks[y.root], y.id) == Some(y.value);
    assert Inherited(s, y.root) == Stack(map[y.id := y.value], []);
  }

  lemma StoryExits(y: Story)
    requires y.root != y.child
    ensures Enabled(y.Objects(), y.Forked(), Exit(y.root, y.o))
    ensures Step(y.Objects(), y.Forked(), Exit(y.root, y.o)) == y.Exited()
  {
    var s, t := y.Forked(), y.Exited();
    var tokens := s.tokens[y.o];
    assert Pop(s.stacks[y.root]) == Stack(map[], []) && tokens[..|tokens| - 1] == [];
    var p := Exited(s.providers[y.id], y.root, None);
    assert p.values == t.providers[y.id].values;
    assert p == t.providers[y.id];
    assert s.providers[y.id := p] == t.providers;
    assert s.tokens[y.o := []] == t.tokens && s.stacks[y.root := Stack(map[], [])] == t.stacks;
  }

  /** That case: a context forked inside an override, which is then exited, computes what its stack overrides. */
  lemma InheritedIsNotSeen(y: Story) returns (labels: seq<Label>)
    requires y.root != y.child
    ensures Grounded(map[y.id := y.dependency], y.Objects()) && Runs(y.Objects(), y.Start(), labels)
    ensures var s := Run(y.Objects(), y.Start(), labels);
            && y.id in s.providers && y.child in s.stacks
            && Called(s.providers[y.id], y.child) == Computed(y.dependency)
            && FromStack(s.stacks[y.child], y.id, y.dependency) == Overridden(y.value)
  {
    StoryEnters(y);
    StoryForks(y);
    StoryExits(y);
    var l, m, n := Enter(y.root, y.o), Fork(y.root, y.child), Exit(y.root, y.o);
    StepThenRun(y.Objects(), y.Forked(), n, []);
    StepThenRun(y.Objects(), y.Entered(), m, [n] + []);
    StepThenRun(y.Objects(), y.Start(), l, [m] + ([n] + []));
    labels := [l] + ([m] + ([n] + []));
  }

  /** Exiting an override at once undoes entering it, whatever is entered around it. */
  lemma ExitUndoesEnter(objects: Objects, s: State, context: Context, o: OverrideId)
    requires Inv(objects, s) && CanEnter(objects, s, context, o)
    ensures Exitable(objects, EnterStep(objects, s, context, o), context, o)
    ensures ExitStep(objects, EnterStep(objects, s, context, o), context, o) == s
  {
    assert ProviderOk(s.stacks, Leaked(s.leaked, objects[o].dep), objects[o].dep, s.providers[objects[o].dep]);
    EnterThenExit(objects, s, context, o);
  }

  /** Whether an override can be exited: it is innermost in its context, and holds a token. */
  predicate Exitable(objects: Objects, s: State, context: Context, o: OverrideId) {
    && Enabled(objects, s, Exit(context, o)) && s.tokens[o] != []
    && objects[o].dep in s.providers && s.providers[objects[o].dep].count > 0
  }

  lemma EnterThenExit(objects: Objects, s: State, context: Context, o: OverrideId)
    requires CanEnter(objects, s, context, o)
    requires ProvideOk(s.providers[objects[o].dep])
    ensures Exitable(objects, EnterStep(objects, s, context, o), context, o)
    ensures ExitStep(objects, EnterStep(objects, s, context, o), context, o) == s
  {
    var t := EnterStep(objects, s, context, o);
    var p := s.providers[objects[o].dep];
    PushPop(s.stacks[context], Pushed(objects, s, context, o));
    assert t.tokens[o][..|s.tokens[o]|] == s.tokens[o];
    assert Write(Write(p.values, context, Some(objects[o].value)), context, Read(p, context)) == p.values;
    assert Exited(Entered(p, context, objects[o].value), context, Read(p, context)) == p;
    var u := ExitStep(objects, t, context, o);
    assert u.providers == s.providers;
    assert u.tokens == s.tokens;
    assert u.stacks == s.stacks;
  }

  // ----- several overrides at once -----

  predicate Usable(objects: Objects, s: State, context: Context, items: seq<OverrideId>) {
    forall i :: 0 <= i < |items| ==> CanEnter(objects, s, context, items[i])
  }

  /** One override entered, and that exiting it goes back. */
  predicate EntersUndoably(objects: Objects, context: Context, before: State, after: State, o: OverrideId) {
    && CanEnter(objects, before, context, o) && after == EnterStep(objects, before, context, o)
    && Exitable(objects, after, context, o) && ExitStep(objects, after, context, o) == before
    && ProvideOk(before.providers[objects[o].dep])
  }

  /** The states that entering the first of the items goes through, and exiting them goes back through. */
  predicate Chain(objects: Objects, context: Context, states: seq<State>, items: seq<OverrideId>) {
    && 1 <= |states| <= |items| + 1
    && forall k :: 0 <= k < |states| - 1 ==> EntersUndoably(objects, context, states[k], states[k + 1], items[k])
  }

  lemma ChainAppend(objects: Objects, context: Context, states: seq<State>, items: seq<OverrideId>, next: State)
    requires Chain(objects, context, states, items) && |states| <= |items|
    requires EntersUndoably(objects, context, states[|states| - 1], next, items[|states| - 1])
    ensures Chain(objects, context, states + [next], items)
  {
    var s := states + [next];
    forall k | 0 <= k < |s| - 1 ensures EntersUndoably(objects, context, s[k], s[k + 1], items[k]) {
      if k < |states| - 1 {
        assert EntersUndoably(objects, context, states[k], states[k + 1], items[k]);
      }
    }
  }

  /** An override entered before one that is interrupted can still be exited, and restores its provider's value. */
  lemma LeftStays(
    objects: Objects, context: Context, before: State, after: State, o: OverrideId,
    left: OverrideId, point: Point, saved: Option<Value>, restored: bool
  )
    requires EntersUndoably(objects, context, before, after, o) && CanEnter(objects, before, context, left) && o != left
    ensures CanEnter(objects, after, context, left)
    ensures Exitable(objects, Left(objects, after, context, left, point, saved, restored), context, o)
    ensures var now := restored || objects[o].dep == objects[left].dep;
            ExitStep(objects, Left(objects, after, context, left, point, saved, restored), context, o) ==
              Left(objects, before, context, left, point, saved, now)
  {
    var e := Pushed(objects, before, context, o);
    PushPop(before.stacks[context], e);
    OverlayPops(after.stacks[context], objects[left].dep, objects[left].value);
    assert after == EnterStep(objects, before, context, o);
    LeftProviders(before.providers, context, e, objects[left].dep, objects[left].value, SetsValue(point) && !restored);
    LeftStacks(before.stacks, context, e, objects[left].dep, objects[left].value, SetsValue(point) && !restored);
    LeftTokens(objects, context, before, o, left, point, saved, restored);
  }

  lemma LeftTokens(
    objects: Objects, context: Context, before: State, o: OverrideId,
    left: OverrideId, point: Point, saved: Option<Value>, restored: bool
  )
    requires CanEnter(objects, before, context, o) && CanEnter(objects, before, context, left) && o != left
    ensures var after := EnterStep(objects, before, context, o);
            var tokens := Left(objects, after, context, left, point, saved, restored).tokens;
            && tokens[o] == after.tokens[o] && after.tokens[o][..|after.tokens[o]| - 1] == before.tokens[o]
            && tokens[o := before.tokens[o]] == Left(objects, before, context, left, point, saved, true).tokens
  {
    var after := EnterStep(objects, before, context, o);
    var tokens := Left(objects, after, context, left, point, saved, restored).tokens;
    assert tokens[o := before.tokens[o]] == Left(objects, before, context, left, point, saved, true).tokens;
  }

  lemma LeftStacks(
    stacks: map<Context, Stack>, context: Context, e: Entry, dep: ProviderId, value: Value, keepsValue: bool
  )
    requires context in stacks
    ensures var after := WithValue(stacks[context := Push(stacks[context], e)], context, dep, value, keepsValue);
            && after[context].entries != []
            && after[context := Pop(after[context])]
            == WithValue(stacks, context, dep, value, keepsValue && e.dep != dep)
  {
    PushPop(stacks[context], e);
    OverlayPops(Push(stacks[context], e), dep, value);
    var after := WithValue(stacks[context := Push(stacks[context], e)], context, dep, value, keepsValue);
    assert stacks[context := stacks[context]] == stacks;
    assert after[context := Pop(after[context])] == stacks[context := Pop(after[context])];
  }

  lemma LeftProviders(
    providers: map<ProviderId, Provider>, context: Context, e: Entry, dep: ProviderId, value: Value, keepsValue: bool
  )
    requires e.dep in providers && dep in providers && e.saved == Read(providers[e.dep], context)
    requires ProvideOk(providers[e.dep])
    ensures var after := providers[e.dep := Entered(providers[e.dep], context, e.value)];
            && after[e.dep := Exited(after[e.dep], context, e.saved)] == providers
            && var left := after[dep := LeftProvider(after[dep], context, value, keepsValue)];
               && left[e.dep].count > 0
               && left[e.dep := Exited(left[e.dep], context, e.saved)]
               == providers[dep := LeftProvider(providers[dep], context, value, keepsValue && e.dep != dep)]
  {
    var p := providers[e.dep];
    LeftExits(p, context, e.value, value, keepsValue);
    EnteredExits(p, context, e.value);
    assert providers[e.dep := p] == providers;
  }

  lemma EnteredExits(p: Provider, context: Context, value: Value)
    requires ProvideOk(p)
    ensures Exited(Entered(p, context, value), context, Read(p, context)) == p
  {
    assert Exited(Entered(p, context, value), context, Read(p, context)).values == p.values;
  }

  /** Exiting an entry of the same provider puts its value back, whatever was left over on it. */
  lemma LeftExits(p: Provider, context: Context, value: Value, left: Value, keepsValue: bool)
    ensures Exited(LeftProvider(Entered(p, context, value), context, left, keepsValue), context, Read(p, context))
         == LeftProvider(p, context, left, false)
  {
    var q := Exited(LeftProvider(Entered(p, context, value), context, left, keepsValue), context, Read(p, context));
    assert q.values == p.values;
  }

  // ----- the code -----

  /** Every provider and override object, changed in place as overrides are entered and exited. */
  class Overriding {
    const objects: Objects
    var providers: map<ProviderId, Provider>
    var tokens: Tokens
    ghost var stacks: map<Context, Stack>
    ghost var leaked: map<ProviderId, nat>
    ghost var stale: Tokens

    ghost function Value(): State
      reads this
    {
      State(providers, tokens, stacks, leaked, stale)
    }

    constructor (dependencies: map<ProviderId, Callable>, objects: Objects, root: Context)
      requires Grounded(dependencies, objects)
      ensures this.objects == objects && Value() == Initial(dependencies, objects, root) && Inv(objects, Value())
    {
      this.objects := objects;
      providers := map p | p in dependencies :: Provider(dependencies[p], Direct(dependencies[p]), 0, map[]);
      tokens := map o | o in objects :: [];
      stacks, leaked, stale := map[root := Stack(map[], [])], map[], map[];
      new;
      InitialInv(dependencies, objects, root);
    }

    method Enter(context: Context, o: OverrideId)
      requires CanEnter(objects, Value(), context, o)
      modifies this
      ensures Value() == EnterStep(objects, old(Value()), context, o)
    {
      var dep := objects[o].dep;
      var p := providers[dep];
      ghost var e := Pushed(objects, Value(), context, o);
      tokens := tokens[o := tokens[o] + [Read(p, context)]];
      if p.count == 0 {
        p := p.(provide := Reader);
      }
      p := p.(count := p.count + 1);
      p := p.(values := p.values[context := objects[o].value]);
      providers := providers[dep := p];
      stacks := stacks[context := Push(stacks[context], e)];
    }

    method Exit(context: Context, o: OverrideId)
      requires Exitable(objects, Value(), context, o)
      modifies this
      ensures Value() == ExitStep(objects, old(Value()), context, o)
    {
      var dep := objects[o].dep;
      var p := providers[dep];
      var saved := tokens[o][|tokens[o]| - 1];
      tokens := tokens[o := tokens[o][..|tokens[o]| - 1]];
      p := p.(values := Write(p.values, context, saved));
      p := p.(count := p.count - 1);
      if p.count == 0 {
        p := p.(provide := Direct(p.dependency));
      }
      providers := providers[dep := p];
      stacks := stacks[context := Pop(stacks[context])];
    }

    method Update(id: ProviderId, dependency: Callable)
      requires id in providers
      modifies this`providers
      ensures Value() == Step(objects, old(Value()), Label.Update(id, dependency))
    {
      var p := providers[id].(dependency := dependency);
      if p.count == 0 {
        p := p.(provide := Direct(p.dependency));
      }
      providers := providers[id := p];
    }

    /**
     * Exit the first `n` items in reverse, back through the states that entering them made, but for
     * what the interrupted entry of `left` leaves.
     */
    method ExitAll(
      context: Context, items: seq<OverrideId>, n: nat, ghost states: seq<State>,
      ghost left: OverrideId, ghost point: Point, ghost saved: Option<Value>
    )
      requires Chain(objects, context, states, items) && |states| == n + 1
      requires CanEnter(objects, states[n], context, left)
      requires forall k :: 0 <= k < n ==> items[k] != left
      requires Value() == Left(objects, states[n], context, left, point, saved, false)
      modifies this
      ensures CanEnter(objects, states[0], context, left)
      ensures Value()
           == Left(objects, states[0], context, left, point, saved, IsAmong(objects, items[..n], objects[left].dep))
    {
      assert items[n..n] == [];
      for i := n downto 0
        invariant CanEnter(objects, states[i], context, left)
        invariant Value()
               == Left(objects, states[i], context, left, point, saved,
                       IsAmong(objects, items[i..n], objects[left].dep))
      {
        assert EntersUndoably(objects, context, states[i], states[i + 1], items[i]);
        assert items[i..n] == [items[i]] + items[i + 1..n];
        AmongMore(objects, items[i], items[i + 1..n], objects[left].dep);
        LeftStays(objects, context, states[i], states[i + 1], items[i], left, point, saved,
                  IsAmong(objects, items[i + 1..n], objects[left].dep));
        Exit(context, items[i]);
      }
      assert items[0..n] == items[..n];
    }

    /** An entry that is interrupted at a point. */
    method EnterInterrupted(context: Context, o: OverrideId, point: Point)
      requires CanEnter(objects, Value(), context, o) && ProvidesOk(providers)
      modifies this
      ensures var saved := Read(old(providers)[objects[o].dep], context);
              Value() == Left(objects, old(Value()), context, o, point, saved, false)
    {
      if point.Waiting? {
        return;
      }
      var dep := objects[o].dep;
      var p := providers[dep];
      var saved := Read(p, context);
      if p.count == 0 {
        p := p.(provide := Reader);
      }
      p := p.(count := p.count + 1);
      leaked := leaked[dep := Leaked(leaked, dep) + 1];
      if !point.Counted? {
        p := p.(values := p.values[context := objects[o].value]);
        stacks := stacks[context := Overlay(stacks[context], dep, objects[o].value)];
      }
      if point.Unlisted? {
        stale := stale[o := Stale(stale, o) + [saved]];
        tokens := tokens[o := tokens[o] + [saved]];
      }
      providers := providers[dep := p];
    }

    /** The first items entered, one state each, and the rest still usable. */
    ghost predicate Entering(context: Context, items: seq<OverrideId>, states: seq<State>)
      reads this
    {
      && Chain(objects, context, states, items) && states[|states| - 1] == Value()
      && ProvidesOk(providers) && Usable(objects, Value(), context, items)
    }

    /** Enter the next item, knowing how to go back. */
    method EnterNext(context: Context, o: OverrideId, ghost states: seq<State>, ghost items: seq<OverrideId>)
      returns (ghost more: seq<State>)
      requires Entering(context, items, states) && |states| <= |items| && o == items[|states| - 1]
      modifies this
      ensures Entering(context, items, more) && more == states + [Value()]
    {
      assert CanEnter(objects, Value(), context, o);
      EnterThenExit(objects, Value(), context, o);
      Enter(context, o);
      ChainAppend(objects, context, states, items, Value());
      more := states + [Value()];
    }

    /** The `n`-th entry is interrupted, and those before it are exited. */
    method GiveUp(context: Context, items: seq<OverrideId>, n: nat, point: Point, ghost states: seq<State>)
      requires Entering(context, items, states) && |states| == n + 1 && n < |items| && Separate(items)
      modifies this
      ensures LeftFrom(objects, context, items, n, point, states, Value())
    {
      assert CanEnter(objects, Value(), context, items[n]);
      ghost var saved := Read(providers[objects[items[n]].dep], context);
      EnterInterrupted(context, items[n], point);
      ExitAll(context, items, n, states, items[n], point, saved);
    }

    /** Enter the items in turn, up to the one whose entry is interrupted, and then go back. */
    method EnterEach(context: Context, items: seq<OverrideId>, failing: Option<(nat, Point)>)
      returns (entered: bool, ghost states: seq<State>)
      requires ProvidesOk(providers) && Usable(objects, Value(), context, items) && Separate(items)
      modifies this
      ensures entered <==> failing.None? || failing.value.0 >= |items|
      ensures Chain(objects, context, states, items) && states[0] == old(Value())
      ensures entered ==> |states| == |items| + 1 && states[|items|] == Value()
      ensures !entered ==> LeftFrom(objects, context, items, failing.value.0, failing.value.1, states, Value())
    {
      states := [Value()];
      for i := 0 to |items|
        invariant |states| == i + 1 && states[0] == old(Value())
        invariant Entering(context, items, states)
        invariant failing.Some? ==> failing.value.0 >= i
      {
        if failing.Some? && failing.value.0 == i {
          GiveUp(context, items, i, failing.value.1, states);
          return false, states;
        }
        states := EnterNext(context, items[i], states, items);
      }
      entered := true;
    }

    /**
     * Enter several overrides, of which one's entry may be interrupted: then those before it are
     * exited, and all is as it was but for what that entry leaves, which `LeftIsBefore` and
     * `CallsStandExactly` weigh. Otherwise each has been entered, in turn, and can be exited in reverse.
     */
    method EnterAll(context: Context, items: seq<OverrideId>, failing: Option<(nat, Point)>)
      returns (entered: bool, ghost states: seq<State>)
      requires Inv(objects, Value()) && Usable(objects, Value(), context, items) && Separate(items)
      modifies this
      ensures entered <==> failing.None? || failing.value.0 >= |items|
      ensures Chain(objects, context, states, items) && states[0] == old(Value())
      ensures entered ==> |states| == |items| + 1 && states[|items|] == Value() && Inv(objects, Value())
      ensures !entered ==> LeftFrom(objects, context, items, failing.value.0, failing.value.1, states, Value())
      ensures !entered && (failing.value.1.Unlisted? ==> !old(IsEntered(Value(), context, items[failing.value.0]))) ==>
                Inv(objects, Value())
    {
      InvHasProvides(objects, Value());
      entered, states := EnterEach(context, items, failing);
      if entered {
        ChainKeepsInv(objects, context, states, items, |items|);
      } else if failing.value.1.Unlisted? ==> !IsEntered(states[0], context, items[failing.value.0]) {
        LeftFromKeepsInv(objects, context, items, failing.value.0, failing.value.1, states, Value());
      }
    }
  }

  /** Overrides entered together are made for that, each its own object. */
  predicate Separate(items: seq<OverrideId>) {
    forall i, j :: 0 <= i < j < |items| ==> items[i] != items[j]
  }

  predicate IsAmong(objects: Objects, items: seq<OverrideId>, dep: ProviderId) {
    exists k :: 0 <= k < |items| && items[k] in objects && objects[items[k]].dep == dep
  }

  lemma AmongMore(objects: Objects, o: OverrideId, items: seq<OverrideId>, dep: ProviderId)
    requires o in objects
    ensures IsAmong(objects, [o] + items, dep) <==> objects[o].dep == dep || IsAmong(objects, items, dep)
  {
    var all := [o] + items;
    if IsAmong(objects, items, dep) {
      var k :| 0 <= k < |items| && items[k] in objects && objects[items[k]].dep == dep;
      assert all[k + 1] == items[k];
    }
    assert all[0] == o;
  }

  /**
   * A state is the one before the first of the items was entered, but for what the interrupted entry
   * of the `n`-th leaves: not its value, if one of the items before it is of the same provider.
   */
  ghost predicate LeftFrom(
    objects: Objects, context: Context, items: seq<OverrideId>, n: nat, point: Point, states: seq<State>, after: State
  ) {
    && n < |items| && |states| == n + 1
    && CanEnter(objects, states[0], context, items[n]) && CanEnter(objects, states[n], context, items[n])
    && var dep := objects[items[n]].dep;
       after == Left(objects, states[0], context, items[n], point, Read(states[n].providers[dep], context),
                     IsAmong(objects, items[..n], dep))
  }

  /** What is sound before is sound after. */
  ghost predicate KeepsInv(objects: Objects, before: State, after: State) {
    Inv(objects, before) ==> Inv(objects, after)
  }

  lemma {:induction false} InvAlong(objects: Objects, states: seq<State>, k: nat)
    requires k < |states| && Inv(objects, states[0])
    requires forall j :: 0 <= j < |states| - 1 ==> KeepsInv(objects, states[j], states[j + 1])
    ensures Inv(objects, states[k])
  {
    if k > 0 {
      InvAlong(objects, states, k - 1);
      assert KeepsInv(objects, states[k - 1], states[k - 1 + 1]);
    }
  }

  lemma ChainKeepsInv(objects: Objects, context: Context, states: seq<State>, items: seq<OverrideId>, k: nat)
    requires Chain(objects, context, states, items) && k < |states| && Inv(objects, states[0])
    ensures Inv(objects, states[k])
  {
    forall j | 0 <= j < |states| - 1 ensures KeepsInv(objects, states[j], states[j + 1]) {
      EnteredKeepsInv(objects, context, states[j], states[j + 1], items[j]);
    }
    InvAlong(objects, states, k);
  }

  lemma LeftFromKeepsInv(
    objects: Objects, context: Context, items: seq<OverrideId>, n: nat, point: Point, states: seq<State>, after: State
  )
    requires LeftFrom(objects, context, items, n, point, states, after) && Inv(objects, states[0])
    requires point.Unlisted? ==> !IsEntered(states[0], context, items[n])
    ensures Inv(objects, after)
  {
    var dep := objects[items[n]].dep;
    LeftKeepsInv(objects, states[0], context, items[n], point, Read(states[n].providers[dep], context),
                 IsAmong(objects, items[..n], dep));
  }

  lemma EnteredKeepsInv(objects: Objects, context: Context, before: State, after: State, o: OverrideId)
    requires EntersUndoably(objects, context, before, after, o)
    ensures KeepsInv(objects, before, after)
  {
    if Inv(objects, before) {
      EnterKeepsInv(objects, before, context, o);
    }
  }

  // ----- what an interrupted entry changes -----

  /** Nothing at all has changed exactly if the interruption came before the entry was counted. */
  lemma LeftIsBefore(
    objects: Objects, s: State, context: Context, o: OverrideId, point: Point, saved: Option<Value>, restored: bool
  )
    requires CanEnter(objects, s, context, o)
    ensures Left(objects, s, context, o, point, saved, restored) == s <==> point.Waiting?
  {
    var t := Left(objects, s, context, o, point, saved, restored);
    if !point.Waiting? {
      assert t.providers[objects[o].dep].count != s.providers[objects[o].dep].count;
    }
  }

  lemma StepKeepsLeaked(objects: Objects, s: State, l: Label, id: ProviderId)
    requires Enabled(objects, s, l) && id in s.providers
    ensures id in Step(objects, s, l).providers && Leaked(s.leaked, id) <= Leaked(Step(objects, s, l).leaked, id)
  {
  }

  /** An entry interrupted once it is counted leaves the override reader in place for the rest of every run. */
  lemma {:induction false} ReaderStays(objects: Objects, s: State, labels: seq<Label>, id: ProviderId)
    requires Inv(objects, s) && Runs(objects, s, labels) && id in s.providers && Leaked(s.leaked, id) > 0
    ensures id in Run(objects, s, labels).providers && Run(objects, s, labels).providers[id].provide == Reader
    decreases |labels|
  {
    if labels == [] {
      assert ProviderOk(s.stacks, Leaked(s.leaked, id), id, s.providers[id]);
    } else {
      StepKeepsInv(objects, s, labels[0]);
      StepKeepsLeaked(objects, s, labels[0], id);
      ReaderStays(objects, Step(objects, s, labels[0]), labels[1..], id);
    }
  }

  /** Every context's call of every provider yields the same. */
  ghost predicate SameCalls(s: State, t: State) {
    s.providers.Keys == t.providers.Keys
    && forall p, context: Context :: p in s.providers ==>
         Called(t.providers[p], context) == Called(s.providers[p], context)
  }

  /**
   * Whether calls stand: with a value left, its context must have seen that value already. Without,
   * the reader must be in place already, or no context have a value for it to find.
   */
  predicate CallsStand(p: Provider, context: Context, value: Value, keepsValue: bool) {
    if keepsValue then p.count > 0 && Read(p, context) == Some(value) else p.count > 0 || p.values == map[]
  }

  /** What an interrupted entry leaves makes no call differ exactly then. */
  lemma CallsStandExactly(
    objects: Objects, s: State, context: Context, o: OverrideId, point: Point, saved: Option<Value>, restored: bool
  )
    requires Inv(objects, s) && CanEnter(objects, s, context, o)
    ensures SameCalls(s, Left(objects, s, context, o, point, saved, restored))
       <==> point.Waiting?
            || CallsStand(s.providers[objects[o].dep], context, objects[o].value, SetsValue(point) && !restored)
  {
    var t := Left(objects, s, context, o, point, saved, restored);
    var dep, value := objects[o].dep, objects[o].value;
    var p := s.providers[dep];
    assert ProviderOk(s.stacks, Leaked(s.leaked, dep), dep, p);
    if !point.Waiting? {
      var keepsValue := SetsValue(point) && !restored;
      SameCallsOfOne(s, t, dep);
      LeftCalls(p, context, value, keepsValue);
    }
  }

  /** If one provider alone has changed, calls of it decide. */
  lemma SameCallsOfOne(s: State, t: State, dep: ProviderId)
    requires dep in s.providers && dep in t.providers && t.providers == s.providers[dep := t.providers[dep]]
    ensures SameCalls(s, t) <==>
            forall context: Context :: Called(t.providers[dep], context) == Called(s.providers[dep], context)
  {
  }

  lemma LeftCalls(p: Provider, context: Context, value: Value, keepsValue: bool)
    requires ProvideOk(p)
    ensures (forall c: Context :: Called(LeftProvider(p, context, value, keepsValue), c) == Called(p, c))
       <==> CallsStand(p, context, value, keepsValue)
  {
    var q := LeftProvider(p, context, value, keepsValue);
    if keepsValue {
      assert Called(q, context) == Overridden(value);
    } else if p.count == 0 && p.values != map[] {
      var c :| c in p.values;
      assert Called(q, c) == Overridden(p.values[c]) != Called(p, c);
    }
  }

  /** What a provider provides is its dependency exactly while it is not overridden, as `Inv` has it. */
  predicate ProvidesOk(providers: map<ProviderId, Provider>) {
    forall p <- providers :: ProvideOk(providers[p])
  }

  lemma InvHasProvides(objects: Objects, s: State)
    requires Inv(objects, s)
    ensures ProvidesOk(s.providers)
  {
    forall p | p in s.providers
      ensures ProvideOk(s.providers[p])
    {
      assert ProviderOk(s.stacks, Leaked(s.leaked, p), p, s.providers[p]);
    }
  }
}
