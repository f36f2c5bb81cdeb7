/**
 * The claim protocol of the compiled cache wrappers, as a step relation over interleaved
 * callers of one wrapper.
 *
 * A caller that misses either claims its entry and computes it, or waits on the signal of
 * the claim that is in the way. Claims live in one dictionary per wrapper. Everything
 * between taking and releasing the wrapper's lock is one step; the lock is free between
 * steps. The `Task` style has no lock, and its coarser steps are in `TaskClaims`.
 */
module ClaimProtocol {
  import opened Options

  /** A thread, or a task together with the event loop that runs it. */
  datatype Agent = Agent(id: nat, loop: nat)

  type CallId = nat
  type Activation = nat
  type Key = int
  type Value = int
  type Signal = nat
  type DictId = nat

  /** How a wrapper guards its claims. */
  datatype Style = Locked | Thread | Task

  /**
   * One compiled wrapper: its style, whether it caches per key in a dictionary or one value
   * directly in its slot, and whether it is async.
   */
  datatype Config = Config(style: Style, keyed: bool, asynchronous: bool)

  /** Where a claim is filed: a shared scope leaves the activation out. */
  datatype ClaimKey = Whole(key: Key) | PerActivation(activation: Activation, key: Key)

  function ClaimKeyOf(cfg: Config, a: Activation, k: Key): ClaimKey {
    if cfg.style.Locked? then Whole(k) else PerActivation(a, k)
  }

  /** A claim: the bare owner until somebody waits, then a record with what to wake. */
  datatype Claim =
    | Bare(owner: Agent)
    | Pending(owner: Agent, done: Option<Signal>)
    | AsyncPending(owner: Agent, waiters: seq<Signal>)
    | WatchedClaim(owner: Agent, event: Signal)

  /** An event or a future. Only futures are `Scheduled` on their loop or `Cancelled`. */
  datatype SignalState = Clear | Scheduled | Raised | Cancelled

  /** What a slot holds: nothing, one value, or a reference to a keyed wrapper's dictionary. */
  datatype Slot = Unset | Direct(value: Value) | Dict(dict: DictId)

  datatype Outcome =
    | Computed(value: Value)
    | Hit(value: Value)
    | Failed
    | Ended
    | LookupFailed
    | CacheCycle
    | CrossLoop
    | WaitCancelled

  datatype PC =
    | Checking(dict: DictId)
    | Missed
    | Waiting(signal: Signal, local: Option<DictId>)
    | Woken(local: Option<DictId>)
    | Computing(local: Option<DictId>)
    | Storing(local: Option<DictId>, value: Value)
    | Releasing(outcome: Outcome)
    | Done(outcome: Outcome)

  datatype Call = Call(agent: Agent, activation: Activation, key: Key, pc: PC)

  /** Which call won an entry, and with what. A history variable: no step reads it. */
  datatype Win = Win(call: CallId, value: Value)

  /**
   * The activations' storages. An emptied storage has ended for good. `made` is a history
   * variable: the dictionary ever made for an activation.
   */
  datatype Storage = Storage(
    live: set<Activation>,
    ended: set<Activation>,
    slots: map<Activation, Slot>,
    dicts: map<DictId, map<Key, Value>>,
    made: map<Activation, DictId>
  )

  /** The claims on file and their signals. `holders` is a history variable: who claimed. */
  datatype Claims = Claims(
    inflight: map<ClaimKey, Claim>,
    signals: map<Signal, SignalState>,
    holders: map<ClaimKey, CallId>
  )

  type Wins = map<(Activation, Key), Win>

  /** Everything the callers share, the callers, and the history of won entries. */
  datatype State = State(storage: Storage, claims: Claims, calls: map<CallId, Call>, wins: Wins)

  datatype Label =
    | Activate(a: Activation)
    | End(a: Activation)
    | Start(c: CallId, agent: Agent, a: Activation, k: Key)
    | LookUp(c: CallId)
    | Attempt(c: CallId, spare: nat)
    | Wake(signal: Signal)
    | Resume(c: CallId)
    | CancelWait(c: CallId)
    | CheckEnded(c: CallId)
    | Finish(c: CallId, result: Option<Value>)
    | Store(c: CallId)
    | Release(c: CallId)

  const Initial: State :=
    State(Storage({}, {}, map[], map[], map[]), Claims(map[], map[], map[]), map[], map[])

  // ----- claims -----

  /** Replace a bare owner by the record that a second caller can wait on. */
  function Upgrade(cfg: Config, claim: Claim, spare: Signal): Claim {
    if !claim.Bare? then claim
    else if cfg.style.Task? then WatchedClaim(claim.owner, spare)
    else if cfg.asynchronous then AsyncPending(claim.owner, [])
    else Pending(claim.owner, None)
  }

  function Watched(claim: Claim): set<Signal> {
    match claim
    case Bare(_) => {}
    case Pending(_, done) => if done.Some? then {done.value} else {}
    case AsyncPending(_, waiters) => set w | w in waiters
    case WatchedClaim(_, event) => {event}
  }

  /** Watching a claim either refuses the caller or gives it a signal; both may rewrite the claim. */
  datatype WatchResult =
    | Refused(claim: Claim, outcome: Outcome)
    | Watching(claim: Claim, signal: Signal)

  function Watch(cfg: Config, claim: Claim, agent: Agent, spare: Signal): WatchResult {
    if cfg.style.Task? then
      if claim.owner == agent then Refused(claim, CacheCycle)
      else if claim.owner.loop != agent.loop then Refused(claim, CrossLoop)
      else
        var watched := Upgrade(cfg, claim, spare);
        Watching(watched, if watched.WatchedClaim? then watched.event else spare)
    else
      var pending := Upgrade(cfg, claim, spare);
      if pending.owner == agent then Refused(pending, CacheCycle)
      else match pending
        case Pending(owner, Some(done)) => Watching(pending, done)
        case Pending(owner, None) => Watching(Pending(owner, Some(spare)), spare)
        case AsyncPending(owner, waiters) => Watching(AsyncPending(owner, waiters + [spare]), spare)
        case _ => Refused(pending, CacheCycle)
  }

  /** Wake whoever watches a released claim. A future is completed on its own loop, later. */
  function WakeAll(claim: Claim, signals: map<Signal, SignalState>): map<Signal, SignalState> {
    match claim
    case Bare(_) => signals
    case Pending(_, None) => signals
    case Pending(_, Some(done)) => signals[done := Raised]
    case WatchedClaim(_, event) => signals[event := Raised]
    case AsyncPending(_, waiters) =>
      map w | w in signals :: if w in waiters && signals[w].Clear? then Scheduled else signals[w]
  }

  // ----- steps -----

  function KeyOf(cfg: Config, call: Call): ClaimKey {
    ClaimKeyOf(cfg, call.activation, call.key)
  }

  function Goto(s: State, c: CallId, pc: PC): State
    requires c in s.calls
  {
    s.(calls := s.calls[c := s.calls[c].(pc := pc)])
  }

  function FileClaim(claims: Claims, ck: ClaimKey, agent: Agent, c: CallId): Claims {
    claims.(inflight := claims.inflight[ck := Bare(agent)], holders := claims.holders[ck := c])
  }

  function Rewrite(claims: Claims, ck: ClaimKey, claim: Claim): Claims {
    claims.(inflight := claims.inflight[ck := claim])
  }

  function AddSignal(claims: Claims, w: Signal): Claims {
    if w in claims.signals then claims else claims.(signals := claims.signals[w := Clear])
  }

  function DropClaim(claims: Claims, ck: ClaimKey): Claims {
    claims.(
      inflight := claims.inflight - {ck},
      holders := claims.holders - {ck},
      signals := if ck in claims.inflight then WakeAll(claims.inflight[ck], claims.signals) else claims.signals)
  }

  /** Watch the claim that is in the way, rewriting it to a form that can be waited on. */
  function WatchStep(cfg: Config, s: State, c: CallId, spare: nat, local: Option<DictId>): State
    requires c in s.calls && KeyOf(cfg, s.calls[c]) in s.claims.inflight
  {
    var ck := KeyOf(cfg, s.calls[c]);
    var r := Watch(cfg, s.claims.inflight[ck], s.calls[c].agent, spare);
    var rewritten := Rewrite(s.claims, ck, r.claim);
    if r.Refused? then Goto(s.(claims := rewritten), c, Done(r.outcome))
    else Goto(s.(claims := AddSignal(rewritten, r.signal)), c, Waiting(r.signal, local))
  }

  /** Claim the entry, or watch the claim that is in the way. */
  function ClaimOrWatch(cfg: Config, s: State, c: CallId, spare: nat, local: Option<DictId>): State
    requires c in s.calls
  {
    var ck := KeyOf(cfg, s.calls[c]);
    if ck !in s.claims.inflight then
      Goto(s.(claims := FileClaim(s.claims, ck, s.calls[c].agent, c)), c, Computing(local))
    else WatchStep(cfg, s, c, spare, local)
  }

  /** Create the dictionary of a keyed wrapper in its slot. */
  function MakeDict(storage: Storage, a: Activation, d: DictId): Storage {
    storage.(slots := storage.slots[a := Dict(d)], dicts := storage.dicts[d := map[]],
             made := storage.made[a := d])
  }

  /** The guarded part of a miss: read the slot again, and claim only if it is still a miss. */
  function AttemptStep(cfg: Config, s: State, c: CallId, spare: nat): State
    requires c in s.calls
  {
    var a, k := s.calls[c].activation, s.calls[c].key;
    if a !in s.storage.slots then Goto(s, c, Done(LookupFailed))
    else match s.storage.slots[a]
      case Direct(v) => Goto(s, c, Done(Hit(v)))
      case Dict(d) =>
        if d in s.storage.dicts && k in s.storage.dicts[d] then Goto(s, c, Done(Hit(s.storage.dicts[d][k])))
        else ClaimOrWatch(cfg, s, c, spare, Some(d))
      case Unset =>
        if cfg.keyed then
          ClaimOrWatch(cfg, s.(storage := MakeDict(s.storage, a, spare)), c, spare, Some(spare))
        else ClaimOrWatch(cfg, s, c, spare, None)
  }

  function ActivateStep(storage: Storage, a: Activation): Storage {
    storage.(live := storage.live + {a}, slots := storage.slots[a := Unset])
  }

  function EndStep(storage: Storage, a: Activation): Storage {
    storage.(live := storage.live - {a}, ended := storage.ended + {a}, slots := storage.slots - {a})
  }

  /** The first read of a call: a hit returns at once, a dictionary is looked up next. */
  function StartStep(s: State, c: CallId, agent: Agent, a: Activation, k: Key): State
    requires a in s.storage.slots
  {
    var pc := match s.storage.slots[a]
      case Direct(v) => Done(Hit(v))
      case Dict(d) => Checking(d)
      case Unset => Missed;
    s.(calls := s.calls[c := Call(agent, a, k, pc)])
  }

  function LookUpStep(s: State, c: CallId): State
    requires c in s.calls && s.calls[c].pc.Checking?
  {
    var d, k := s.calls[c].pc.dict, s.calls[c].key;
    if d in s.storage.dicts && k in s.storage.dicts[d] then Goto(s, c, Done(Hit(s.storage.dicts[d][k])))
    else Goto(s, c, Missed)
  }

  /** Put a computed value where its wrapper keeps it; an emptied storage is not refilled. */
  function Put(cfg: Config, storage: Storage, a: Activation, k: Key, local: Option<DictId>, v: Value): Storage {
    if cfg.keyed then
      if local.Some? && local.value in storage.dicts then
        storage.(dicts := storage.dicts[local.value := storage.dicts[local.value][k := v]])
      else storage
    else if a in storage.slots then storage.(slots := storage.slots[a := Direct(v)])
    else storage
  }

  function StoreStep(cfg: Config, s: State, c: CallId): State
    requires c in s.calls && s.calls[c].pc.Storing?
  {
    var call := s.calls[c];
    var v := call.pc.value;
    Goto(s.(storage := Put(cfg, s.storage, call.activation, call.key, call.pc.local, v),
            wins := s.wins[(call.activation, call.key) := Win(c, v)]),
         c, Releasing(Computed(v)))
  }

  function ReleaseStep(cfg: Config, s: State, c: CallId): State
    requires c in s.calls && s.calls[c].pc.Releasing?
  {
    Goto(s.(claims := DropClaim(s.claims, KeyOf(cfg, s.calls[c]))), c, Done(s.calls[c].pc.outcome))
  }

  /** Whether each waiter has a future of its own, completed on its own loop. */
  predicate Futures(cfg: Config) {
    cfg.asynchronous && !cfg.style.Task?
  }

  /** A wait is cancelled or interrupted; a future of the waiter's own is cancelled with it. */
  function CancelStep(cfg: Config, s: State, c: CallId): State
    requires c in s.calls && s.calls[c].pc.Waiting?
  {
    var left :=
      if !Futures(cfg) then s.claims
      else s.claims.(signals := s.claims.signals[s.calls[c].pc.signal := Cancelled]);
    Goto(s.(claims := left), c, Done(WaitCancelled))
  }

  /** Whether a step is enabled. */
  predicate Enabled(cfg: Config, s: State, l: Label) {
    match l
    case Activate(a) => a !in s.storage.live && a !in s.storage.ended
    case End(a) => a in s.storage.live
    case Start(c, _, a, k) =>
      c !in s.calls && a in s.storage.live && a in s.storage.slots && (!cfg.keyed ==> k == 0)
    case LookUp(c) => c in s.calls && s.calls[c].pc.Checking?
    case Attempt(c, spare) =>
      c in s.calls && s.calls[c].pc.Missed? && spare !in s.claims.signals && spare !in s.storage.dicts
    case Wake(w) => w in s.claims.signals && s.claims.signals[w].Scheduled?
    case Resume(c) =>
      c in s.calls && s.calls[c].pc.Waiting? && s.calls[c].pc.signal in s.claims.signals
      && s.claims.signals[s.calls[c].pc.signal].Raised?
    case CancelWait(c) => c in s.calls && s.calls[c].pc.Waiting?
    case CheckEnded(c) => c in s.calls && s.calls[c].pc.Woken?
    case Finish(c, _) => c in s.calls && s.calls[c].pc.Computing?
    case Store(c) => c in s.calls && s.calls[c].pc.Storing?
    case Release(c) => c in s.calls && s.calls[c].pc.Releasing?
  }

  /** One step of one caller, of an event loop, or of the scope. */
  function Step(cfg: Config, s: State, l: Label): State
    requires Enabled(cfg, s, l)
  {
    match l
    case Activate(a) => s.(storage := ActivateStep(s.storage, a))
    case End(a) => s.(storage := EndStep(s.storage, a))
    case Start(c, agent, a, k) => StartStep(s, c, agent, a, k)
    case LookUp(c) => LookUpStep(s, c)
    case Attempt(c, spare) => AttemptStep(cfg, s, c, spare)
    case Wake(w) => s.(claims := s.claims.(signals := s.claims.signals[w := Raised]))
    case Resume(c) => Goto(s, c, Woken(s.calls[c].pc.local))
    case CancelWait(c) => CancelStep(cfg, s, c)
    case CheckEnded(c) => Goto(s, c, if s.calls[c].activation in s.storage.live then Missed else Done(Ended))
    case Finish(c, result) =>
      Goto(s, c, if result.Some? then Storing(s.calls[c].pc.local, result.value) else Releasing(Failed))
    case Store(c) => StoreStep(cfg, s, c)
    case Release(c) => ReleaseStep(cfg, s, c)
  }

  /** Whether a list of steps can be taken one after another. */
  predicate Runs(cfg: Config, s: State, labels: seq<Label>)
    decreases |labels|
  {
    labels == [] || (Enabled(cfg, s, labels[0]) && Runs(cfg, Step(cfg, s, labels[0]), labels[1..]))
  }

  function Run(cfg: Config, s: State, labels: seq<Label>): State
    requires Runs(cfg, s, labels)
    decreases |labels|
  {
    if labels == [] then s else Run(cfg, Step(cfg, s, labels[0]), labels[1..])
  }

  // ----- what every step keeps -----

  /** The call is between claiming its entry and releasing the claim. */
  predicate Owns(call: Call) {
    call.pc.Computing? || call.pc.Storing? || call.pc.Releasing?
  }

  predicate InProgress(call: Call) {
    call.pc.Computing? || call.pc.Storing?
  }

  /** The dictionary a call holds a reference to. */
  function Held(pc: PC): Option<DictId> {
    match pc
    case Checking(d) => Some(d)
    case Waiting(_, l) => l
    case Woken(l) => l
    case Computing(l) => l
    case Storing(l, _) => l
    case _ => None
  }

  /** The outcome a call has, or is about to have. */
  function OutcomeOf(call: Call): Option<Outcome> {
    match call.pc
    case Releasing(o) => Some(o)
    case Done(o) => Some(o)
    case _ => None
  }

  /** What the storage of an activation holds for a key. */
  function Entry(cfg: Config, st: Storage, a: Activation, k: Key): Option<Value> {
    if cfg.keyed then
      if a in st.made && st.made[a] in st.dicts && k in st.dicts[st.made[a]]
      then Some(st.dicts[st.made[a]][k]) else None
    else if k == 0 && a in st.slots && st.slots[a].Direct? then Some(st.slots[a].value)
    else None
  }

  /** Slots exist exactly for live activations, and a dictionary has one home. */
  ghost predicate StorageInv(cfg: Config, st: Storage) {
    && st.slots.Keys == st.live
    && st.live !! st.ended
    && st.made.Keys <= st.live + st.ended
    && (forall a :: a in st.slots ==>
          if cfg.keyed then
            !st.slots[a].Direct? && (st.slots[a].Dict? <==> a in st.made)
            && (st.slots[a].Dict? ==> st.slots[a].dict == st.made[a])
          else !st.slots[a].Dict?)
    && (forall a :: a in st.made ==> st.made[a] in st.dicts)
    && (forall a, b :: a in st.made && b in st.made && st.made[a] == st.made[b] ==> a == b)
    && (!cfg.keyed ==> st.made == map[])
  }

  /** Entries agree with the history of wins. */
  ghost predicate ValueInv(cfg: Config, st: Storage, wins: Wins) {
    && (forall a: Activation, k: Key :: Entry(cfg, st, a, k).Some? ==>
          (a, k) in wins && wins[(a, k)].value == Entry(cfg, st, a, k).value)
    && (forall a: Activation, k: Key :: (a, k) in wins ==>
          a in st.live + st.ended && (cfg.keyed || a in st.live ==> Entry(cfg, st, a, k).Some?))
  }

  /** A call belongs to a known activation, and refers only to that activation's dictionary. */
  ghost predicate Placed(cfg: Config, st: Storage, call: Call) {
    && call.activation in st.live + st.ended
    && (!cfg.keyed ==> call.key == 0 && Held(call.pc).None?)
    && (Held(call.pc).Some? ==> call.activation in st.made && Held(call.pc).value == st.made[call.activation])
    && (cfg.keyed && (InProgress(call) || call.pc.Waiting? || call.pc.Woken?) ==> Held(call.pc).Some?)
  }

  /** An owning call has its claim on file, under its agent's name. */
  ghost predicate Filed(cfg: Config, claims: Claims, c: CallId, call: Call) {
    var ck := KeyOf(cfg, call);
    Owns(call) ==>
      && ck in claims.inflight && claims.inflight[ck].owner == call.agent
      && ck in claims.holders && claims.holders[ck] == c
  }

  /** A waiting call has been woken, or is watching the claim it waits for, which is not its own. */
  ghost predicate Attended(cfg: Config, claims: Claims, call: Call) {
    call.pc.Waiting? ==>
      var w, ck := call.pc.signal, KeyOf(cfg, call);
      && w in claims.signals
      && !claims.signals[w].Cancelled?
      && (claims.signals[w].Clear? ==>
            && ck in claims.inflight
            && w in Watched(claims.inflight[ck])
            && claims.inflight[ck].owner != call.agent)
  }

  /** A call at work, or failed and holding its claim, has not been beaten; one with a value has the winner's. */
  ghost predicate Justified(wins: Wins, c: CallId, call: Call) {
    var e := (call.activation, call.key);
    && (InProgress(call) || call.pc == Releasing(Failed) ==> e !in wins)
    && (OutcomeOf(call).Some? && OutcomeOf(call).value.Computed? ==>
          e in wins && wins[e] == Win(c, OutcomeOf(call).value.value))
    && (OutcomeOf(call).Some? && OutcomeOf(call).value.Hit? ==>
          e in wins && wins[e].value == OutcomeOf(call).value.value)
  }

  ghost predicate CallInv(cfg: Config, s: State, c: CallId, call: Call) {
    && Placed(cfg, s.storage, call)
    && Filed(cfg, s.claims, c, call)
    && Attended(cfg, s.claims, call)
    && Justified(s.wins, c, call)
  }

  /** A claim has the form of its style, and its signals exist. */
  ghost predicate WellShaped(cfg: Config, signals: map<Signal, SignalState>, claim: Claim) {
    && (if cfg.style.Task? then claim.Bare? || claim.WatchedClaim?
        else if cfg.asynchronous then claim.Bare? || claim.AsyncPending?
        else claim.Bare? || claim.Pending?)
    && Watched(claim) <= signals.Keys
  }

  /** A claim on file is held by an owning call. */
  ghost predicate HeldByOwner(cfg: Config, claims: Claims, calls: map<CallId, Call>, ck: ClaimKey) {
    && ck in claims.holders
    && claims.holders[ck] in calls
    && Owns(calls[claims.holders[ck]])
    && KeyOf(cfg, calls[claims.holders[ck]]) == ck
  }

  ghost predicate ClaimInv(cfg: Config, claims: Claims, calls: map<CallId, Call>) {
    forall ck :: ck in claims.inflight ==>
      WellShaped(cfg, claims.signals, claims.inflight[ck]) && HeldByOwner(cfg, claims, calls, ck)
  }

  /** Each future has one waiter; an event is never scheduled or cancelled. */
  ghost predicate SignalInv(cfg: Config, signals: map<Signal, SignalState>, calls: map<CallId, Call>) {
    if Futures(cfg) then
      forall c, d ::
        (c in calls && d in calls && calls[c].pc.Waiting? && calls[d].pc.Waiting?
         && calls[c].pc.signal == calls[d].pc.signal) ==> c == d
    else
      forall w :: w in signals ==> signals[w].Clear? || signals[w].Raised?
  }

  ghost predicate Inv(cfg: Config, s: State) {
    && StorageInv(cfg, s.storage)
    && ValueInv(cfg, s.storage, s.wins)
    && SignalInv(cfg, s.claims.signals, s.calls)
    && ClaimInv(cfg, s.claims, s.calls)
    && (forall c :: c in s.calls ==> CallInv(cfg, s, c, s.calls[c]))
  }

  predicate ValidConfig(cfg: Config) {
    cfg.style.Task? ==> cfg.asynchronous
  }

  /** Moving one call to another point of its program: only that call's part must be shown. */
  lemma MoveKeepsInv(cfg: Config, s: State, c: CallId, pc: PC)
    requires Inv(cfg, s) && c in s.calls
    requires Owns(s.calls[c].(pc := pc)) == Owns(s.calls[c])
    requires pc.Waiting? && Futures(cfg) ==>
      forall d :: d in s.calls && s.calls[d].pc.Waiting? ==> s.calls[d].pc.signal != pc.signal
    requires CallInv(cfg, s, c, s.calls[c].(pc := pc))
    ensures Inv(cfg, Goto(s, c, pc))
  {
  }

  lemma ActivateKeepsInv(cfg: Config, s: State, a: Activation)
    requires Inv(cfg, s) && a !in s.storage.live && a !in s.storage.ended
    ensures Inv(cfg, s.(storage := ActivateStep(s.storage, a)))
  {
  }

  lemma EndKeepsInv(cfg: Config, s: State, a: Activation)
    requires Inv(cfg, s) && a in s.storage.live
    ensures Inv(cfg, s.(storage := EndStep(s.storage, a)))
  {
  }

  lemma MakeDictKeepsStorage(cfg: Config, st: Storage, wins: Wins, a: Activation, d: DictId)
    requires StorageInv(cfg, st) && ValueInv(cfg, st, wins)
    requires cfg.keyed && a in st.slots && st.slots[a].Unset? && d !in st.dicts
    ensures StorageInv(cfg, MakeDict(st, a, d)) && ValueInv(cfg, MakeDict(st, a, d), wins)
  {
    forall b: Activation, k: Key ensures Entry(cfg, MakeDict(st, a, d), b, k) == Entry(cfg, st, b, k) {
    }
  }

  lemma MakeDictKeepsInv(cfg: Config, s: State, a: Activation, d: DictId)
    requires Inv(cfg, s) && cfg.keyed && a in s.storage.slots && s.storage.slots[a].Unset? && d !in s.storage.dicts
    ensures Inv(cfg, s.(storage := MakeDict(s.storage, a, d)))
  {
    MakeDictKeepsStorage(cfg, s.storage, s.wins, a, d);
  }

  lemma StartKeepsInv(cfg: Config, s: State, c: CallId, agent: Agent, a: Activation, k: Key)
    requires Inv(cfg, s) && c !in s.calls && a in s.storage.slots && (!cfg.keyed ==> k == 0)
    ensures Inv(cfg, StartStep(s, c, agent, a, k))
  {
    assert Entry(cfg, s.storage, a, k).Some? || !s.storage.slots[a].Direct? || cfg.keyed;
  }

  /** The facts under which a caller reaches the claims: its recheck missed in live storage. */
  ghost predicate StillMissing(cfg: Config, s: State, c: CallId, local: Option<DictId>) {
    && c in s.calls && s.calls[c].pc.Missed?
    && s.calls[c].activation in s.storage.live
    && Entry(cfg, s.storage, s.calls[c].activation, s.calls[c].key).None?
    && (if cfg.keyed then
          s.calls[c].activation in s.storage.made && local == Some(s.storage.made[s.calls[c].activation])
        else local.None?)
  }

  lemma ClaimKeepsClaims(cfg: Config, claims: Claims, calls: map<CallId, Call>, c: CallId, local: Option<DictId>)
    requires ClaimInv(cfg, claims, calls) && SignalInv(cfg, claims.signals, calls)
    requires c in calls && calls[c].pc.Missed? && KeyOf(cfg, calls[c]) !in claims.inflight
    ensures var filed := FileClaim(claims, KeyOf(cfg, calls[c]), calls[c].agent, c);
            var moved := calls[c := calls[c].(pc := Computing(local))];
            ClaimInv(cfg, filed, moved) && SignalInv(cfg, filed.signals, moved)
  {
  }

  lemma ClaimKeepsCalls(cfg: Config, s: State, c: CallId, spare: nat, local: Option<DictId>)
    requires Inv(cfg, s) && StillMissing(cfg, s, c, local) && KeyOf(cfg, s.calls[c]) !in s.claims.inflight
    ensures var t := ClaimOrWatch(cfg, s, c, spare, local);
            forall d :: d in t.calls ==> CallInv(cfg, t, d, t.calls[d])
  {
    var t := ClaimOrWatch(cfg, s, c, spare, local);
    forall d | d in t.calls ensures CallInv(cfg, t, d, t.calls[d]) {
      assert CallInv(cfg, s, d, s.calls[d]);
    }
  }

  lemma ClaimKeepsInv(cfg: Config, s: State, c: CallId, spare: nat, local: Option<DictId>)
    requires Inv(cfg, s) && StillMissing(cfg, s, c, local) && KeyOf(cfg, s.calls[c]) !in s.claims.inflight
    ensures Inv(cfg, ClaimOrWatch(cfg, s, c, spare, local))
  {
    ClaimKeepsClaims(cfg, s.claims, s.calls, c, local);
    ClaimKeepsCalls(cfg, s, c, spare, local);
  }

  /** Watching keeps the owner and every earlier waiter, and never lets an owner wait on itself. */
  lemma WatchMeans(cfg: Config, signals: map<Signal, SignalState>, claim: Claim, agent: Agent, spare: Signal)
    requires ValidConfig(cfg) && WellShaped(cfg, signals, claim)
    ensures var r := Watch(cfg, claim, agent, spare);
            && r.claim.owner == claim.owner
            && Watched(claim) <= Watched(r.claim) <= Watched(claim) + {spare}
            && (r.Watching? <==> claim.owner != agent && (cfg.style.Task? ==> claim.owner.loop == agent.loop))
            && (r.Watching? ==> r.signal in Watched(r.claim))
            && (r.Refused? ==>
                  Watched(r.claim) == Watched(claim) && (claim.owner == agent <==> r.outcome == CacheCycle))
            && (r.Refused? ==> r.outcome == CacheCycle || r.outcome == CrossLoop)
            && (r.Watching? && Futures(cfg) ==> r.signal == spare)
            && WellShaped(cfg, if r.Watching? then signals[spare := Clear] else signals, r.claim)
  {
  }

  lemma RewriteKeepsCall(cfg: Config, s: State, ck: ClaimKey, claim: Claim, w: Option<Signal>, c: CallId)
    requires c in s.calls && CallInv(cfg, s, c, s.calls[c])
    requires ck in s.claims.inflight
    requires claim.owner == s.claims.inflight[ck].owner && Watched(s.claims.inflight[ck]) <= Watched(claim)
    ensures var rewritten := Rewrite(s.claims, ck, claim);
            CallInv(cfg, s.(claims := if w.Some? then AddSignal(rewritten, w.value) else rewritten), c, s.calls[c])
  {
  }

  lemma RewriteKeepsClaims(cfg: Config, claims: Claims, calls: map<CallId, Call>, ck: ClaimKey, claim: Claim,
                           w: Option<Signal>)
    requires ClaimInv(cfg, claims, calls) && SignalInv(cfg, claims.signals, calls) && ck in claims.inflight
    requires WellShaped(cfg, if w.Some? then claims.signals[w.value := Clear] else claims.signals, claim)
    ensures var rewritten := Rewrite(claims, ck, claim);
            var result := if w.Some? then AddSignal(rewritten, w.value) else rewritten;
            ClaimInv(cfg, result, calls) && SignalInv(cfg, result.signals, calls)
  {
  }

  /** Rewriting a claim under the same owner, with at most one more signal to wake. */
  lemma RewriteKeepsInv(cfg: Config, s: State, ck: ClaimKey, claim: Claim, w: Option<Signal>)
    requires Inv(cfg, s) && ck in s.claims.inflight
    requires claim.owner == s.claims.inflight[ck].owner && Watched(s.claims.inflight[ck]) <= Watched(claim)
    requires WellShaped(cfg, if w.Some? then s.claims.signals[w.value := Clear] else s.claims.signals, claim)
    ensures var rewritten := Rewrite(s.claims, ck, claim);
            Inv(cfg, s.(claims := if w.Some? then AddSignal(rewritten, w.value) else rewritten))
  {
    forall c | c in s.calls {
      RewriteKeepsCall(cfg, s, ck, claim, w, c);
    }
    RewriteKeepsClaims(cfg, s.claims, s.calls, ck, claim, w);
  }

  lemma WaitsAreOld(cfg: Config, s: State, spare: Signal)
    requires Inv(cfg, s) && spare !in s.claims.signals
    ensures forall d :: d in s.calls && s.calls[d].pc.Waiting? ==> s.calls[d].pc.signal != spare
  {
    forall d | d in s.calls && s.calls[d].pc.Waiting? ensures s.calls[d].pc.signal != spare {
      assert CallInv(cfg, s, d, s.calls[d]);
    }
  }

  /** The caller now watches the claim under `ck`, which has been rewritten to include its signal. */
  lemma JoinKeepsInv(cfg: Config, s: State, c: CallId, w: Signal, local: Option<DictId>)
    requires Inv(cfg, s) && StillMissing(cfg, s, c, local) && w in s.claims.signals
    requires !s.claims.signals[w].Cancelled?
    requires KeyOf(cfg, s.calls[c]) in s.claims.inflight
    requires w in Watched(s.claims.inflight[KeyOf(cfg, s.calls[c])])
    requires s.claims.inflight[KeyOf(cfg, s.calls[c])].owner != s.calls[c].agent
    requires Futures(cfg) ==> forall d :: d in s.calls && s.calls[d].pc.Waiting? ==> s.calls[d].pc.signal != w
    ensures Inv(cfg, Goto(s, c, Waiting(w, local)))
  {
    assert CallInv(cfg, s, c, s.calls[c]);
    MoveKeepsInv(cfg, s, c, Waiting(w, local));
  }

  /** The caller is refused: only the form of the claim may have changed. */
  lemma TurnedAwayKeepsInv(cfg: Config, s: State, c: CallId, outcome: Outcome)
    requires Inv(cfg, s) && c in s.calls && s.calls[c].pc.Missed?
    requires outcome == CacheCycle || outcome == CrossLoop
    ensures Inv(cfg, Goto(s, c, Done(outcome)))
  {
    assert CallInv(cfg, s, c, s.calls[c]);
    MoveKeepsInv(cfg, s, c, Done(outcome));
  }

  lemma RefusalKeepsInv(cfg: Config, s: State, c: CallId, spare: nat, local: Option<DictId>)
    requires ValidConfig(cfg) && Inv(cfg, s) && StillMissing(cfg, s, c, local)
    requires KeyOf(cfg, s.calls[c]) in s.claims.inflight
    requires Watch(cfg, s.claims.inflight[KeyOf(cfg, s.calls[c])], s.calls[c].agent, spare).Refused?
    ensures Inv(cfg, WatchStep(cfg, s, c, spare, local))
  {
    var ck := KeyOf(cfg, s.calls[c]);
    WatchMeans(cfg, s.claims.signals, s.claims.inflight[ck], s.calls[c].agent, spare);
    var r := Watch(cfg, s.claims.inflight[ck], s.calls[c].agent, spare);
    var t := s.(claims := Rewrite(s.claims, ck, r.claim));
    RewriteKeepsInv(cfg, s, ck, r.claim, None);
    TurnedAwayKeepsInv(cfg, t, c, r.outcome);
  }

  lemma WatchKeepsInv(cfg: Config, s: State, c: CallId, spare: nat, local: Option<DictId>)
    requires ValidConfig(cfg) && Inv(cfg, s) && StillMissing(cfg, s, c, local)
    requires KeyOf(cfg, s.calls[c]) in s.claims.inflight && spare !in s.claims.signals
    requires Watch(cfg, s.claims.inflight[KeyOf(cfg, s.calls[c])], s.calls[c].agent, spare).Watching?
    ensures Inv(cfg, WatchStep(cfg, s, c, spare, local))
  {
    var ck := KeyOf(cfg, s.calls[c]);
    WatchMeans(cfg, s.claims.signals, s.claims.inflight[ck], s.calls[c].agent, spare);
    var r := Watch(cfg, s.claims.inflight[ck], s.calls[c].agent, spare);
    var claims := AddSignal(Rewrite(s.claims, ck, r.claim), r.signal);
    WaitsAreOld(cfg, s, spare);
    RewriteKeepsInv(cfg, s, ck, r.claim, Some(r.signal));
    JoinKeepsInv(cfg, s.(claims := claims), c, r.signal, local);
  }

  /** A store changes the one entry it is for, and none at all in an ended slot. */
  lemma PutChanges(cfg: Config, st: Storage, call: Call, v: Value)
    requires StorageInv(cfg, st) && Placed(cfg, st, call) && call.pc.Storing?
    ensures var after := Put(cfg, st, call.activation, call.key, call.pc.local, v);
            && StorageInv(cfg, after)
            && after.live == st.live && after.ended == st.ended && after.made == st.made
            && (forall a, k :: Entry(cfg, after, a, k) ==
                  if a == call.activation && k == call.key && (cfg.keyed || a in st.live) then Some(v)
                  else Entry(cfg, st, a, k))
  {
  }

  lemma StoreKeepsValues(cfg: Config, st: Storage, wins: Wins, call: Call, c: CallId, v: Value)
    requires StorageInv(cfg, st) && ValueInv(cfg, st, wins) && Placed(cfg, st, call) && call.pc.Storing?
    ensures ValueInv(cfg, Put(cfg, st, call.activation, call.key, call.pc.local, v),
                     wins[(call.activation, call.key) := Win(c, v)])
  {
    PutChanges(cfg, st, call, v);
  }

  /** Two owning calls under one claim key are one call. */
  lemma OwnersDiffer(cfg: Config, s: State, c: CallId, d: CallId)
    requires Inv(cfg, s) && c in s.calls && d in s.calls && Owns(s.calls[c]) && Owns(s.calls[d])
    requires KeyOf(cfg, s.calls[c]) == KeyOf(cfg, s.calls[d])
    ensures c == d
  {
    assert CallInv(cfg, s, c, s.calls[c]) && CallInv(cfg, s, d, s.calls[d]);
  }

  lemma StoreKeepsCall(cfg: Config, s: State, c: CallId, d: CallId)
    requires c in s.calls && d in s.calls && c != d && s.calls[c].pc.Storing?
    requires StorageInv(cfg, s.storage)
    requires CallInv(cfg, s, c, s.calls[c]) && CallInv(cfg, s, d, s.calls[d])
    requires Owns(s.calls[d]) ==> KeyOf(cfg, s.calls[c]) != KeyOf(cfg, s.calls[d])
    ensures CallInv(cfg, StoreStep(cfg, s, c), d, s.calls[d])
  {
    PutChanges(cfg, s.storage, s.calls[c], s.calls[c].pc.value);
  }

  lemma MoveKeepsClaims(cfg: Config, claims: Claims, calls: map<CallId, Call>, c: CallId, pc: PC)
    requires ClaimInv(cfg, claims, calls) && SignalInv(cfg, claims.signals, calls) && c in calls
    requires Owns(calls[c].(pc := pc)) == Owns(calls[c]) && !pc.Waiting?
    ensures ClaimInv(cfg, claims, calls[c := calls[c].(pc := pc)])
    ensures SignalInv(cfg, claims.signals, calls[c := calls[c].(pc := pc)])
  {
  }

  lemma StoreKeepsOthers(cfg: Config, s: State, c: CallId)
    requires Inv(cfg, s) && c in s.calls && s.calls[c].pc.Storing?
    ensures forall d :: d in s.calls && d != c ==> CallInv(cfg, StoreStep(cfg, s, c), d, s.calls[d])
  {
    forall d | d in s.calls && d != c ensures CallInv(cfg, StoreStep(cfg, s, c), d, s.calls[d]) {
      assert CallInv(cfg, s, c, s.calls[c]) && CallInv(cfg, s, d, s.calls[d]);
      if Owns(s.calls[d]) && KeyOf(cfg, s.calls[d]) == KeyOf(cfg, s.calls[c]) { OwnersDiffer(cfg, s, c, d); }
      StoreKeepsCall(cfg, s, c, d);
    }
  }

  lemma StoreKeepsOwn(cfg: Config, s: State, c: CallId)
    requires c in s.calls && s.calls[c].pc.Storing? && StorageInv(cfg, s.storage) && CallInv(cfg, s, c, s.calls[c])
    ensures CallInv(cfg, StoreStep(cfg, s, c), c, StoreStep(cfg, s, c).calls[c])
  {
    PutChanges(cfg, s.storage, s.calls[c], s.calls[c].pc.value);
  }

  lemma StoreKeepsStorage(cfg: Config, s: State, c: CallId)
    requires c in s.calls && s.calls[c].pc.Storing? && Placed(cfg, s.storage, s.calls[c])
    requires StorageInv(cfg, s.storage) && ValueInv(cfg, s.storage, s.wins)
    ensures var t := StoreStep(cfg, s, c); StorageInv(cfg, t.storage) && ValueInv(cfg, t.storage, t.wins)
  {
    PutChanges(cfg, s.storage, s.calls[c], s.calls[c].pc.value);
    StoreKeepsValues(cfg, s.storage, s.wins, s.calls[c], c, s.calls[c].pc.value);
  }

  lemma StoreKeepsInv(cfg: Config, s: State, c: CallId)
    requires Inv(cfg, s) && c in s.calls && s.calls[c].pc.Storing?
    ensures Inv(cfg, StoreStep(cfg, s, c))
  {
    assert CallInv(cfg, s, c, s.calls[c]);
    StoreKeepsStorage(cfg, s, c);
    StoreKeepsOwn(cfg, s, c);
    StoreKeepsOthers(cfg, s, c);
    MoveKeepsClaims(cfg, s.claims, s.calls, c, StoreStep(cfg, s, c).calls[c].pc);
  }

  lemma DropKeepsClaims(cfg: Config, claims: Claims, calls: map<CallId, Call>, c: CallId, pc: PC)
    requires ClaimInv(cfg, claims, calls) && SignalInv(cfg, claims.signals, calls)
    requires c in calls && calls[c].pc.Releasing? && pc.Done? && KeyOf(cfg, calls[c]) in claims.inflight
    ensures var dropped := DropClaim(claims, KeyOf(cfg, calls[c]));
            var moved := calls[c := calls[c].(pc := pc)];
            ClaimInv(cfg, dropped, moved) && SignalInv(cfg, dropped.signals, moved)
  {
  }

  /** Releasing a claim wakes its waiters and leaves every other claim as it was. */
  lemma DropKeepsCall(cfg: Config, claims: Claims, ck: ClaimKey, c: CallId, call: Call)
    requires ck in claims.inflight && WellShaped(cfg, claims.signals, claims.inflight[ck])
    requires Filed(cfg, claims, c, call) && Attended(cfg, claims, call)
    requires Owns(call) ==> KeyOf(cfg, call) != ck
    ensures Filed(cfg, DropClaim(claims, ck), c, call) && Attended(cfg, DropClaim(claims, ck), call)
  {
  }

  lemma ReleaseKeepsOthers(cfg: Config, s: State, c: CallId)
    requires Inv(cfg, s) && c in s.calls && s.calls[c].pc.Releasing?
    ensures forall d :: d in s.calls && d != c ==> CallInv(cfg, ReleaseStep(cfg, s, c), d, s.calls[d])
  {
    var ck := KeyOf(cfg, s.calls[c]);
    forall d | d in s.calls && d != c ensures CallInv(cfg, ReleaseStep(cfg, s, c), d, s.calls[d]) {
      assert CallInv(cfg, s, c, s.calls[c]) && CallInv(cfg, s, d, s.calls[d]);
      if Owns(s.calls[d]) && KeyOf(cfg, s.calls[d]) == ck { OwnersDiffer(cfg, s, c, d); }
      DropKeepsCall(cfg, s.claims, ck, d, s.calls[d]);
    }
  }

  lemma ReleaseKeepsInv(cfg: Config, s: State, c: CallId)
    requires Inv(cfg, s) && c in s.calls && s.calls[c].pc.Releasing?
    ensures Inv(cfg, ReleaseStep(cfg, s, c))
  {
    assert CallInv(cfg, s, c, s.calls[c]);
    DropKeepsClaims(cfg, s.claims, s.calls, c, ReleaseStep(cfg, s, c).calls[c].pc);
    ReleaseKeepsOwn(cfg, s, c);
    ReleaseKeepsOthers(cfg, s, c);
  }

  lemma ReleaseKeepsOwn(cfg: Config, s: State, c: CallId)
    requires c in s.calls && s.calls[c].pc.Releasing? && CallInv(cfg, s, c, s.calls[c])
    ensures CallInv(cfg, ReleaseStep(cfg, s, c), c, ReleaseStep(cfg, s, c).calls[c])
  {
  }

  lemma CancelKeepsInv(cfg: Config, s: State, c: CallId)
    requires Inv(cfg, s) && c in s.calls && s.calls[c].pc.Waiting?
    ensures Inv(cfg, CancelStep(cfg, s, c))
  {
    assert CallInv(cfg, s, c, s.calls[c]);
    if Futures(cfg) {
      CancelKeepsCalls(cfg, s, c);
      CancelKeepsClaims(cfg, s, c);
    } else {
      MoveKeepsInv(cfg, s, c, Done(WaitCancelled));
    }
  }

  /** A cancelled future is its waiter's own. */
  lemma CancelKeepsCalls(cfg: Config, s: State, c: CallId)
    requires Inv(cfg, s) && c in s.calls && s.calls[c].pc.Waiting? && Futures(cfg)
    ensures var t := CancelStep(cfg, s, c); forall d :: d in t.calls ==> CallInv(cfg, t, d, t.calls[d])
  {
    var t := CancelStep(cfg, s, c);
    forall d | d in t.calls ensures CallInv(cfg, t, d, t.calls[d]) {
      assert CallInv(cfg, s, d, s.calls[d]);
    }
  }

  lemma CancelKeepsClaims(cfg: Config, s: State, c: CallId)
    requires ClaimInv(cfg, s.claims, s.calls) && SignalInv(cfg, s.claims.signals, s.calls)
    requires c in s.calls && s.calls[c].pc.Waiting? && Futures(cfg)
    ensures var t := CancelStep(cfg, s, c);
            ClaimInv(cfg, t.claims, t.calls) && SignalInv(cfg, t.claims.signals, t.calls)
  {
    var t := CancelStep(cfg, s, c);
    assert s.claims.signals.Keys <= t.claims.signals.Keys;
  }

  lemma WakeKeepsInv(cfg: Config, s: State, w: Signal)
    requires Inv(cfg, s) && w in s.claims.signals && s.claims.signals[w].Scheduled?
    ensures Inv(cfg, s.(claims := s.claims.(signals := s.claims.signals[w := Raised])))
  {
  }

  lemma ClaimOrWatchKeepsInv(cfg: Config, s: State, c: CallId, spare: nat, local: Option<DictId>)
    requires ValidConfig(cfg) && Inv(cfg, s) && StillMissing(cfg, s, c, local) && spare !in s.claims.signals
    ensures Inv(cfg, ClaimOrWatch(cfg, s, c, spare, local))
  {
    var ck := KeyOf(cfg, s.calls[c]);
    if ck !in s.claims.inflight {
      ClaimKeepsInv(cfg, s, c, spare, local);
    } else if Watch(cfg, s.claims.inflight[ck], s.calls[c].agent, spare).Refused? {
      RefusalKeepsInv(cfg, s, c, spare, local);
    } else {
      WatchKeepsInv(cfg, s, c, spare, local);
    }
  }

  lemma AttemptKeepsInv(cfg: Config, s: State, c: CallId, spare: nat)
    requires ValidConfig(cfg) && Inv(cfg, s) && Enabled(cfg, s, Attempt(c, spare))
    ensures Inv(cfg, AttemptStep(cfg, s, c, spare))
  {
    var a, k := s.calls[c].activation, s.calls[c].key;
    assert CallInv(cfg, s, c, s.calls[c]);
    if a !in s.storage.slots {
      MoveKeepsInv(cfg, s, c, Done(LookupFailed));
    } else if Entry(cfg, s.storage, a, k).Some? {
      MoveKeepsInv(cfg, s, c, Done(Hit(Entry(cfg, s.storage, a, k).value)));
    } else if cfg.keyed && s.storage.slots[a].Unset? {
      var t := s.(storage := MakeDict(s.storage, a, spare));
      MakeDictKeepsInv(cfg, s, a, spare);
      ClaimOrWatchKeepsInv(cfg, t, c, spare, Some(spare));
    } else {
      ClaimOrWatchKeepsInv(cfg, s, c, spare, if cfg.keyed then Some(s.storage.slots[a].dict) else None);
    }
  }

  lemma LookUpKeepsInv(cfg: Config, s: State, c: CallId)
    requires Inv(cfg, s) && c in s.calls && s.calls[c].pc.Checking?
    ensures Inv(cfg, LookUpStep(s, c))
  {
    assert CallInv(cfg, s, c, s.calls[c]);
    var e := Entry(cfg, s.storage, s.calls[c].activation, s.calls[c].key);
    MoveKeepsInv(cfg, s, c, if e.Some? then Done(Hit(e.value)) else Missed);
  }

  lemma ResumeKeepsInv(cfg: Config, s: State, c: CallId)
    requires Inv(cfg, s) && Enabled(cfg, s, Resume(c))
    ensures Inv(cfg, Step(cfg, s, Resume(c)))
  {
    assert CallInv(cfg, s, c, s.calls[c]);
    MoveKeepsInv(cfg, s, c, Woken(s.calls[c].pc.local));
  }

  lemma CheckEndedKeepsInv(cfg: Config, s: State, c: CallId)
    requires Inv(cfg, s) && Enabled(cfg, s, CheckEnded(c))
    ensures Inv(cfg, Step(cfg, s, CheckEnded(c)))
  {
    assert CallInv(cfg, s, c, s.calls[c]);
    MoveKeepsInv(cfg, s, c, if s.calls[c].activation in s.storage.live then Missed else Done(Ended));
  }

  lemma FinishKeepsInv(cfg: Config, s: State, c: CallId, result: Option<Value>)
    requires Inv(cfg, s) && Enabled(cfg, s, Finish(c, result))
    ensures Inv(cfg, Step(cfg, s, Finish(c, result)))
  {
    assert CallInv(cfg, s, c, s.calls[c]);
    MoveKeepsInv(cfg, s, c, if result.Some? then Storing(s.calls[c].pc.local, result.value) else Releasing(Failed));
  }

  lemma StepKeepsInv(cfg: Config, s: State, l: Label)
    requires ValidConfig(cfg) && Inv(cfg, s) && Enabled(cfg, s, l)
    ensures Inv(cfg, Step(cfg, s, l))
  {
    match l
    case Activate(a) => ActivateKeepsInv(cfg, s, a);
    case End(a) => EndKeepsInv(cfg, s, a);
    case Start(c, agent, a, k) => StartKeepsInv(cfg, s, c, agent, a, k);
    case LookUp(c) => LookUpKeepsInv(cfg, s, c);
    case Attempt(c, spare) => AttemptKeepsInv(cfg, s, c, spare);
    case Wake(w) => WakeKeepsInv(cfg, s, w);
    case CancelWait(c) => CancelKeepsInv(cfg, s, c);
    case Store(c) => StoreKeepsInv(cfg, s, c);
    case Release(c) => ReleaseKeepsInv(cfg, s, c);
    case Resume(c) => ResumeKeepsInv(cfg, s, c);
    case CheckEnded(c) => CheckEndedKeepsInv(cfg, s, c);
    case Finish(c, result) => FinishKeepsInv(cfg, s, c, result);
  }

  lemma {:induction false} RunKeepsInv(cfg: Config, s: State, labels: seq<Label>)
    requires ValidConfig(cfg) && Inv(cfg, s) && Runs(cfg, s, labels)
    ensures Inv(cfg, Run(cfg, s, labels))
    decreases |labels|
  {
    if labels != [] {
      StepKeepsInv(cfg, s, labels[0]);
      RunKeepsInv(cfg, Step(cfg, s, labels[0]), labels[1..]);
    }
  }

  // ----- where values come from -----

  /** Every win is by a call for that very entry, which has computed the winning value. */
  ghost predicate WinInv(calls: map<CallId, Call>, wins: Wins) {
    forall e :: e in wins ==>
      var c := wins[e].call;
      && c in calls
      && (calls[c].activation, calls[c].key) == e
      && OutcomeOf(calls[c]) == Some(Computed(wins[e].value))
  }

  /** An attempt moves its own call only, and at most creates the activation's first dictionary. */
  lemma AttemptMoves(cfg: Config, s: State, c: CallId, spare: nat)
    requires c in s.calls
    ensures var t := AttemptStep(cfg, s, c, spare);
            && c in t.calls && t.calls == s.calls[c := s.calls[c].(pc := t.calls[c].pc)] && t.wins == s.wins
            && var a := s.calls[c].activation;
               (t.storage == s.storage
                || (cfg.keyed && a in s.storage.slots && s.storage.slots[a].Unset?
                    && t.storage == MakeDict(s.storage, a, spare)))
  {
  }

  lemma AttemptKeepsWins(cfg: Config, s: State, c: CallId, spare: nat)
    requires WinInv(s.calls, s.wins) && Enabled(cfg, s, Attempt(c, spare))
    ensures WinInv(AttemptStep(cfg, s, c, spare).calls, AttemptStep(cfg, s, c, spare).wins)
  {
    AttemptMoves(cfg, s, c, spare);
  }

  lemma StepKeepsWins(cfg: Config, s: State, l: Label)
    requires WinInv(s.calls, s.wins) && Enabled(cfg, s, l)
    ensures WinInv(Step(cfg, s, l).calls, Step(cfg, s, l).wins)
  {
    if l.Attempt? { AttemptKeepsWins(cfg, s, l.c, l.spare); }
  }

  lemma {:induction false} RunKeepsWins(cfg: Config, s: State, labels: seq<Label>)
    requires WinInv(s.calls, s.wins) && Runs(cfg, s, labels)
    ensures WinInv(Run(cfg, s, labels).calls, Run(cfg, s, labels).wins)
    decreases |labels|
  {
    if labels != [] {
      StepKeepsWins(cfg, s, labels[0]);
      RunKeepsWins(cfg, Step(cfg, s, labels[0]), labels[1..]);
    }
  }

  // ----- main results, over every run -----

  predicate SameEntry(c: Call, d: Call) {
    c.activation == d.activation && c.key == d.key
  }

  /** The value a call returned, or is about to return once it has released its claim. */
  function Returned(call: Call): Option<Value> {
    match OutcomeOf(call)
    case Some(Computed(v)) => Some(v)
    case Some(Hit(v)) => Some(v)
    case _ => None
  }

  predicate Succeeded(call: Call) {
    OutcomeOf(call).Some? && OutcomeOf(call).value.Computed?
  }

  /**
   * Compute once. In every state of every run, at most one call is computing an entry, at most
   * one ever computes it successfully, nobody computes it again after that, and every call that
   * returns has the value of the one success.
   */
  lemma ComputeOnce(cfg: Config, labels: seq<Label>, c: CallId, d: CallId)
    requires ValidConfig(cfg) && Runs(cfg, Initial, labels)
    requires c in Run(cfg, Initial, labels).calls && d in Run(cfg, Initial, labels).calls
    ensures var calls := Run(cfg, Initial, labels).calls;
            SameEntry(calls[c], calls[d]) ==>
              && (InProgress(calls[c]) && InProgress(calls[d]) ==> c == d)
              && (Succeeded(calls[c]) && Succeeded(calls[d]) ==> c == d)
              && !(Succeeded(calls[c]) && InProgress(calls[d]))
              && (Returned(calls[c]).Some? && Returned(calls[d]).Some? ==> Returned(calls[c]) == Returned(calls[d]))
  {
    var s := Run(cfg, Initial, labels);
    RunKeepsInv(cfg, Initial, labels);
    assert CallInv(cfg, s, c, s.calls[c]) && CallInv(cfg, s, d, s.calls[d]);
  }

  /** A shared scope computes one entry at a time even across activations that follow each other. */
  lemma OneOwnerPerClaim(cfg: Config, labels: seq<Label>, c: CallId, d: CallId)
    requires ValidConfig(cfg) && Runs(cfg, Initial, labels)
    requires var calls := Run(cfg, Initial, labels).calls;
             c in calls && d in calls && Owns(calls[c]) && Owns(calls[d])
             && KeyOf(cfg, calls[c]) == KeyOf(cfg, calls[d])
    ensures c == d
  {
    RunKeepsInv(cfg, Initial, labels);
    OwnersDiffer(cfg, Run(cfg, Initial, labels), c, d);
  }

  /**
   * A shared scope's wrapper computes one entry of a key at a time, whatever the activations; another one
   * at a time for each activation and key.
   */
  lemma OneAtATime(cfg: Config, labels: seq<Label>, c: CallId, d: CallId)
    requires ValidConfig(cfg) && Runs(cfg, Initial, labels)
    requires var calls := Run(cfg, Initial, labels).calls;
             && c in calls && d in calls && Owns(calls[c]) && Owns(calls[d]) && calls[c].key == calls[d].key
             && (cfg.style.Locked? || calls[c].activation == calls[d].activation)
    ensures c == d
  {
    OneOwnerPerClaim(cfg, labels, c, d);
  }

  /** And it waits only for a call of the same key, which, unless the scope is shared, is of the same activation. */
  lemma WaitsForTheSame(cfg: Config, labels: seq<Label>, c: CallId)
    requires ValidConfig(cfg) && Runs(cfg, Initial, labels)
    requires c in Run(cfg, Initial, labels).calls && Run(cfg, Initial, labels).calls[c].pc.Waiting?
    ensures var s := Run(cfg, Initial, labels);
            || HasWoken(s.claims, s.calls[c])
            || exists d :: d in s.calls && Owns(s.calls[d]) && s.calls[d].agent != s.calls[c].agent
                 && s.calls[d].key == s.calls[c].key
                 && (!cfg.style.Locked? ==> s.calls[d].activation == s.calls[c].activation)
  {
    NoLostWakeUp(cfg, labels, c);
  }

  /** Every returned value was computed by a call for the same entry. */
  lemma ReturnsAreComputed(cfg: Config, labels: seq<Label>, c: CallId)
    requires ValidConfig(cfg) && Runs(cfg, Initial, labels)
    requires c in Run(cfg, Initial, labels).calls && Returned(Run(cfg, Initial, labels).calls[c]).Some?
    ensures var calls := Run(cfg, Initial, labels).calls;
            exists w :: w in calls && SameEntry(calls[c], calls[w]) && Succeeded(calls[w])
              && Returned(calls[w]) == Returned(calls[c])
  {
    var s := Run(cfg, Initial, labels);
    RunKeepsInv(cfg, Initial, labels);
    RunKeepsWins(cfg, Initial, labels);
    assert CallInv(cfg, s, c, s.calls[c]);
    var w := WinnerOf(s.calls, s.wins, c);
  }

  lemma WinnerOf(calls: map<CallId, Call>, wins: Wins, c: CallId) returns (w: CallId)
    requires WinInv(calls, wins) && c in calls && Justified(wins, c, calls[c]) && Returned(calls[c]).Some?
    ensures w in calls && SameEntry(calls[c], calls[w]) && Succeeded(calls[w])
    ensures Returned(calls[w]) == Returned(calls[c])
  {
    w := wins[(calls[c].activation, calls[c].key)].call;
  }

  // ----- what the labels say of the calls -----

  /** A call is the one that was started. */
  predicate WasStarted(done: seq<Label>, c: CallId, call: Call) {
    Start(c, call.agent, call.activation, call.key) in done
  }

  /** The value that a call's computation gave, if it is to be stored or was. */
  function Gave(call: Call): Option<Value> {
    match call.pc
    case Storing(_, v) => Some(v)
    case Releasing(Computed(v)) => Some(v)
    case Done(Computed(v)) => Some(v)
    case _ => None
  }

  predicate HasFailed(call: Call) {
    call.pc == Releasing(Failed) || call.pc == Done(Failed)
  }

  /** A call's value is what its computation gave, and it failed exactly if its computation did. */
  ghost predicate ResultOk(done: seq<Label>, c: CallId, call: Call) {
    && (forall v :: Finish(c, Some(v)) in done <==> Gave(call) == Some(v))
    && (Finish(c, None) in done <==> HasFailed(call))
    && (CancelWait(c) in done <==> call.pc == Done(WaitCancelled))
    && (call.pc.Releasing? ==> call.pc.outcome.Computed? || call.pc.outcome.Failed?)
  }

  ghost predicate HistoryInv(done: seq<Label>, calls: map<CallId, Call>) {
    && (forall c :: c in calls ==> WasStarted(done, c, calls[c]) && ResultOk(done, c, calls[c]))
    && (forall l <- done :: l.Finish? || l.CancelWait? ==> l.c in calls)
  }

  /** A step of another call, or of no call, leaves what the labels say of this one. */
  lemma OthersHistory(done: seq<Label>, l: Label, c: CallId, call: Call)
    requires WasStarted(done, c, call) && ResultOk(done, c, call)
    requires (l.Finish? || l.CancelWait?) ==> l.c != c
    ensures WasStarted(done + [l], c, call) && ResultOk(done + [l], c, call)
  {
  }

  lemma MovedHistory(done: seq<Label>, l: Label, calls: map<CallId, Call>, c: CallId, call: Call)
    requires HistoryInv(done, calls) && c in calls && call == calls[c].(pc := call.pc)
    requires (l.Finish? || l.CancelWait?) ==> l.c == c
    requires ResultOk(done + [l], c, call)
    ensures HistoryInv(done + [l], calls[c := call])
  {
    forall d | d in calls && d != c
      ensures WasStarted(done + [l], d, calls[d]) && ResultOk(done + [l], d, calls[d])
    {
      OthersHistory(done, l, d, calls[d]);
    }
  }

  lemma SameCallsHistory(done: seq<Label>, l: Label, calls: map<CallId, Call>)
    requires HistoryInv(done, calls) && !l.Finish? && !l.CancelWait?
    ensures HistoryInv(done + [l], calls)
  {
    forall d | d in calls ensures WasStarted(done + [l], d, calls[d]) && ResultOk(done + [l], d, calls[d]) {
      OthersHistory(done, l, d, calls[d]);
    }
  }

  lemma StartedHistory(done: seq<Label>, l: Label, calls: map<CallId, Call>, call: Call)
    requires HistoryInv(done, calls) && l.Start? && l.c !in calls
    requires l == Start(l.c, call.agent, call.activation, call.key)
    requires Gave(call).None? && !HasFailed(call) && call.pc != Done(WaitCancelled) && !call.pc.Releasing?
    ensures HistoryInv(done + [l], calls[l.c := call])
  {
    SameCallsHistory(done, l, calls);
    forall r ensures Finish(l.c, r) !in done + [l] {
      if Finish(l.c, r) in done {
        assert false;
      }
    }
    assert CancelWait(l.c) !in done + [l];
    assert ResultOk(done + [l], l.c, call);
    assert WasStarted(done + [l], l.c, call);
  }

  /** A step other than a start, an end of a computation or a cancellation has nothing to do with results. */
  predicate Unfinished(pc: PC) {
    match pc
    case Storing(_, _) => false
    case Releasing(_) => false
    case Done(o) => !o.Computed? && !o.Failed? && !o.WaitCancelled?
    case _ => true
  }

  lemma UnfinishedHistory(done: seq<Label>, l: Label, s: State, t: State, c: CallId)
    requires HistoryInv(done, s.calls) && !l.Finish? && !l.CancelWait? && c in s.calls && c in t.calls
    requires t.calls == s.calls[c := s.calls[c].(pc := t.calls[c].pc)]
    requires Unfinished(s.calls[c].pc) && Unfinished(t.calls[c].pc)
    ensures HistoryInv(done + [l], t.calls)
  {
    assert ResultOk(done, c, s.calls[c]);
    OthersHistory(done, l, c, s.calls[c]);
    MovedHistory(done, l, s.calls, c, t.calls[c]);
  }

  lemma FinishKeepsHistory(done: seq<Label>, cfg: Config, s: State, c: CallId, result: Option<Value>)
    requires HistoryInv(done, s.calls) && Enabled(cfg, s, Finish(c, result))
    ensures HistoryInv(done + [Finish(c, result)], Step(cfg, s, Finish(c, result)).calls)
  {
    assert ResultOk(done, c, s.calls[c]);
    MovedHistory(done, Finish(c, result), s.calls, c, Step(cfg, s, Finish(c, result)).calls[c]);
  }

  lemma CancelKeepsHistory(done: seq<Label>, cfg: Config, s: State, c: CallId)
    requires HistoryInv(done, s.calls) && Enabled(cfg, s, CancelWait(c))
    ensures HistoryInv(done + [CancelWait(c)], Step(cfg, s, CancelWait(c)).calls)
  {
    assert ResultOk(done, c, s.calls[c]);
    MovedHistory(done, CancelWait(c), s.calls, c, Step(cfg, s, CancelWait(c)).calls[c]);
  }

  lemma StoreKeepsHistory(done: seq<Label>, cfg: Config, s: State, l: Label)
    requires HistoryInv(done, s.calls) && Enabled(cfg, s, l) && (l.Store? || l.Release?)
    ensures HistoryInv(done + [l], Step(cfg, s, l).calls)
  {
    assert ResultOk(done, l.c, s.calls[l.c]);
    OthersHistory(done, l, l.c, s.calls[l.c]);
    MovedHistory(done, l, s.calls, l.c, Step(cfg, s, l).calls[l.c]);
  }

  lemma AttemptKeepsHistory(done: seq<Label>, cfg: Config, s: State, c: CallId, spare: nat)
    requires HistoryInv(done, s.calls) && Enabled(cfg, s, Attempt(c, spare))
    ensures HistoryInv(done + [Attempt(c, spare)], AttemptStep(cfg, s, c, spare).calls)
  {
    var t := AttemptStep(cfg, s, c, spare);
    AttemptMoves(cfg, s, c, spare);
    AttemptIsUnfinished(cfg, s, c, spare);
    UnfinishedHistory(done, Attempt(c, spare), s, t, c);
  }

  lemma AttemptIsUnfinished(cfg: Config, s: State, c: CallId, spare: nat)
    requires c in s.calls
    ensures c in AttemptStep(cfg, s, c, spare).calls && Unfinished(AttemptStep(cfg, s, c, spare).calls[c].pc)
  {
  }

  lemma StepKeepsHistory(done: seq<Label>, cfg: Config, s: State, l: Label)
    requires HistoryInv(done, s.calls) && Enabled(cfg, s, l)
    ensures HistoryInv(done + [l], Step(cfg, s, l).calls)
  {
    match l
    case Activate(a) => SameCallsHistory(done, l, s.calls);
    case End(a) => SameCallsHistory(done, l, s.calls);
    case Wake(w) => SameCallsHistory(done, l, s.calls);
    case Start(c, agent, a, k) => StartedHistory(done, l, s.calls, Step(cfg, s, l).calls[c]);
    case Attempt(c, spare) => AttemptKeepsHistory(done, cfg, s, c, spare);
    case Finish(c, result) => FinishKeepsHistory(done, cfg, s, c, result);
    case CancelWait(c) => CancelKeepsHistory(done, cfg, s, c);
    case Store(c) => StoreKeepsHistory(done, cfg, s, l);
    case Release(c) => StoreKeepsHistory(done, cfg, s, l);
    case LookUp(c) => UnfinishedHistory(done, l, s, Step(cfg, s, l), c);
    case Resume(c) => UnfinishedHistory(done, l, s, Step(cfg, s, l), c);
    case CheckEnded(c) => UnfinishedHistory(done, l, s, Step(cfg, s, l), c);
  }

  lemma {:induction false} RunKeepsHistory(done: seq<Label>, cfg: Config, s: State, labels: seq<Label>)
    requires HistoryInv(done, s.calls) && Runs(cfg, s, labels)
    ensures HistoryInv(done + labels, Run(cfg, s, labels).calls)
    decreases |labels|
  {
    if labels == [] {
      assert done + labels == done;
    } else {
      StepKeepsHistory(done, cfg, s, labels[0]);
      RunKeepsHistory(done + [labels[0]], cfg, Step(cfg, s, labels[0]), labels[1..]);
      assert done + [labels[0]] + labels[1..] == done + labels;
    }
  }

  /**
   * A call is for the entry it was started for. It succeeds with a value exactly if its own computation
   * gave that value, fails exactly if that failed, and is cancelled exactly if its wait was.
   */
  lemma ResultsAreTheirOwn(cfg: Config, labels: seq<Label>, c: CallId)
    requires Runs(cfg, Initial, labels) && c in Run(cfg, Initial, labels).calls
    ensures var call := Run(cfg, Initial, labels).calls[c];
            && Start(c, call.agent, call.activation, call.key) in labels
            && (forall v :: OutcomeOf(call) == Some(Computed(v)) ==> Finish(c, Some(v)) in labels)
            && (forall v ::
                  Finish(c, Some(v)) in labels && OutcomeOf(call).Some? ==> OutcomeOf(call) == Some(Computed(v)))
            && (OutcomeOf(call) == Some(Failed) <==> Finish(c, None) in labels)
            && (call.pc == Done(WaitCancelled) <==> CancelWait(c) in labels)
  {
    RunKeepsHistory([], cfg, Initial, labels);
    assert [] + labels == labels;
    assert ResultOk(labels, c, Run(cfg, Initial, labels).calls[c]);
  }

  /** So every value that any call returns is what a computation for the same entry gave. */
  lemma ReturnsWhatWasComputed(cfg: Config, labels: seq<Label>, c: CallId) returns (w: CallId, agent: Agent)
    requires ValidConfig(cfg) && Runs(cfg, Initial, labels)
    requires c in Run(cfg, Initial, labels).calls && Returned(Run(cfg, Initial, labels).calls[c]).Some?
    ensures var call := Run(cfg, Initial, labels).calls[c];
            Start(w, agent, call.activation, call.key) in labels && Finish(w, Returned(call)) in labels
  {
    var calls := Run(cfg, Initial, labels).calls;
    ReturnsAreComputed(cfg, labels, c);
    w :| w in calls && SameEntry(calls[c], calls[w]) && Succeeded(calls[w]) && Returned(calls[w]) == Returned(calls[c]);
    agent := calls[w].agent;
    ResultsAreTheirOwn(cfg, labels, w);
  }

  /** A waiter that has been woken is told if its activation has ended, and looks again if not. */
  lemma WaiterIsTold(cfg: Config, labels: seq<Label>, c: CallId)
    requires ValidConfig(cfg) && Runs(cfg, Initial, labels)
    requires c in Run(cfg, Initial, labels).calls && Run(cfg, Initial, labels).calls[c].pc.Woken?
    ensures var s := Run(cfg, Initial, labels);
            var pc := Step(cfg, s, CheckEnded(c)).calls[c].pc;
            if End(s.calls[c].activation) in labels then pc == Done(Ended) else pc == Missed
  {
    RunKeepsInv(cfg, Initial, labels);
    EndedAreEnded([], cfg, Initial, labels, Run(cfg, Initial, labels).calls[c].activation);
    assert [] + labels == labels;
    CheckTells(cfg, Run(cfg, Initial, labels), c);
  }

  lemma CheckTells(cfg: Config, s: State, c: CallId)
    requires Inv(cfg, s) && Enabled(cfg, s, CheckEnded(c))
    ensures var pc := Step(cfg, s, CheckEnded(c)).calls[c].pc;
            if s.calls[c].activation in s.storage.ended then pc == Done(Ended) else pc == Missed
  {
    assert CallInv(cfg, s, c, s.calls[c]);
  }

  lemma {:induction false} EndedAreEnded(done: seq<Label>, cfg: Config, s: State, labels: seq<Label>, a: Activation)
    requires Runs(cfg, s, labels) && (End(a) in done <==> a in s.storage.ended)
    ensures End(a) in done + labels <==> a in Run(cfg, s, labels).storage.ended
    decreases |labels|
  {
    if labels == [] {
      assert done + labels == done;
    } else {
      EndsOnly(cfg, s, labels[0], a);
      EndedAreEnded(done + [labels[0]], cfg, Step(cfg, s, labels[0]), labels[1..], a);
      assert done + [labels[0]] + labels[1..] == done + labels;
    }
  }

  lemma EndsOnly(cfg: Config, s: State, l: Label, a: Activation)
    requires Enabled(cfg, s, l)
    ensures a in Step(cfg, s, l).storage.ended <==> a in s.storage.ended || l == End(a)
  {
    if l.Attempt? { AttemptMoves(cfg, s, l.c, l.spare); }
  }

  /** Whether a waiting call's signal has been set, or its loop is about to set it. */
  predicate HasWoken(claims: Claims, call: Call) {
    call.pc.Waiting? && call.pc.signal in claims.signals
    && (claims.signals[call.pc.signal].Raised? || claims.signals[call.pc.signal].Scheduled?)
  }

  /**
   * No lost wake-up. Every waiting call has been woken, or watches the claim now on file under
   * its key, and that claim belongs to another agent's call that is still at work on it.
   */
  lemma NoLostWakeUp(cfg: Config, labels: seq<Label>, c: CallId)
    requires ValidConfig(cfg) && Runs(cfg, Initial, labels)
    requires c in Run(cfg, Initial, labels).calls && Run(cfg, Initial, labels).calls[c].pc.Waiting?
    ensures var s := Run(cfg, Initial, labels);
            || HasWoken(s.claims, s.calls[c])
            || exists d :: d in s.calls && Owns(s.calls[d]) && s.calls[d].agent != s.calls[c].agent
                 && KeyOf(cfg, s.calls[d]) == KeyOf(cfg, s.calls[c])
                 && KeyOf(cfg, s.calls[c]) in s.claims.inflight
                 && s.calls[c].pc.signal in Watched(s.claims.inflight[KeyOf(cfg, s.calls[c])])
  {
    var s := Run(cfg, Initial, labels);
    RunKeepsInv(cfg, Initial, labels);
    assert CallInv(cfg, s, c, s.calls[c]);
    if !HasWoken(s.claims, s.calls[c]) {
      var d := s.claims.holders[KeyOf(cfg, s.calls[c])];
      assert CallInv(cfg, s, d, s.calls[d]);
      assert d in s.calls && Owns(s.calls[d]);
    }
  }

  lemma DropWakes(cfg: Config, claims: Claims, call: Call)
    requires Attended(cfg, claims, call) && call.pc.Waiting? && KeyOf(cfg, call) in claims.inflight
    requires WellShaped(cfg, claims.signals, claims.inflight[KeyOf(cfg, call)])
    ensures HasWoken(DropClaim(claims, KeyOf(cfg, call)), call)
  {
  }

  /** Releasing a claim, after a success or a failure, wakes every call that waits on it. */
  lemma ReleaseWakesWaiters(cfg: Config, labels: seq<Label>, c: CallId, d: CallId)
    requires ValidConfig(cfg) && Runs(cfg, Initial, labels)
    requires var s := Run(cfg, Initial, labels);
             c in s.calls && s.calls[c].pc.Releasing? && d in s.calls && s.calls[d].pc.Waiting?
             && KeyOf(cfg, s.calls[d]) == KeyOf(cfg, s.calls[c])
    ensures var s := Run(cfg, Initial, labels);
            HasWoken(ReleaseStep(cfg, s, c).claims, s.calls[d])
  {
    var s := Run(cfg, Initial, labels);
    RunKeepsInv(cfg, Initial, labels);
    assert CallInv(cfg, s, c, s.calls[c]) && CallInv(cfg, s, d, s.calls[d]);
    DropWakes(cfg, s.claims, s.calls[d]);
  }

  lemma ReleaseFrees(cfg: Config, s: State, c: CallId)
    requires Enabled(cfg, s, Release(c)) && ClaimInv(cfg, s.claims, s.calls)
    ensures var t := ReleaseStep(cfg, s, c);
            && KeyOf(cfg, s.calls[c]) !in t.claims.inflight
            && t.claims.signals.Keys == s.claims.signals.Keys
            && t.storage == s.storage
            && forall d :: d in s.calls && d != c ==> d in t.calls && t.calls[d] == s.calls[d]
  {
  }

  lemma UnclaimedAttemptComputes(cfg: Config, s: State, d: CallId, spare: nat)
    requires StorageInv(cfg, s.storage) && Enabled(cfg, s, Attempt(d, spare))
    requires s.calls[d].activation in s.storage.live && (!cfg.keyed ==> s.calls[d].key == 0)
    requires Entry(cfg, s.storage, s.calls[d].activation, s.calls[d].key).None?
    requires KeyOf(cfg, s.calls[d]) !in s.claims.inflight
    ensures AttemptStep(cfg, s, d, spare).calls[d].pc.Computing?
  {
  }

  /** After a failed computation the next caller that misses claims the entry and computes. */
  lemma FailureIsRetried(cfg: Config, labels: seq<Label>, c: CallId, d: CallId, spare: nat)
    requires ValidConfig(cfg) && Runs(cfg, Initial, labels)
    requires var s := Run(cfg, Initial, labels);
             && c in s.calls && s.calls[c].pc == Releasing(Failed)
             && d in s.calls && s.calls[d].pc.Missed? && SameEntry(s.calls[c], s.calls[d])
             && s.calls[d].activation in s.storage.live
             && spare !in s.claims.signals && spare !in s.storage.dicts
    ensures Enabled(cfg, Run(cfg, Initial, labels), Release(c))
    ensures var released := ReleaseStep(cfg, Run(cfg, Initial, labels), c);
            d in released.calls && AttemptStep(cfg, released, d, spare).calls[d].pc.Computing?
  {
    var s := Run(cfg, Initial, labels);
    RunKeepsInv(cfg, Initial, labels);
    assert CallInv(cfg, s, c, s.calls[c]) && CallInv(cfg, s, d, s.calls[d]);
    assert Entry(cfg, s.storage, s.calls[d].activation, s.calls[d].key).None?;
    var released := ReleaseStep(cfg, s, c);
    ReleaseFrees(cfg, s, c);
    assert Enabled(cfg, released, Attempt(d, spare));
    UnclaimedAttemptComputes(cfg, released, d, spare);
  }

  /** What a step never undoes: ends, dictionaries, and which entry a call is for. */
  ghost predicate Grows(s: State, t: State) {
    && s.storage.ended <= t.storage.ended
    && s.storage.made.Keys <= t.storage.made.Keys
    && (forall a :: a in s.storage.made ==> t.storage.made[a] == s.storage.made[a])
    && (forall c :: c in s.calls ==> c in t.calls && SameEntry(s.calls[c], t.calls[c]))
    && (forall c :: c in t.calls && c !in s.calls ==> t.calls[c].activation !in s.storage.ended)
  }

  lemma AttemptGrows(cfg: Config, s: State, c: CallId, spare: nat)
    requires StorageInv(cfg, s.storage) && Enabled(cfg, s, Attempt(c, spare))
    ensures Grows(s, AttemptStep(cfg, s, c, spare))
  {
    AttemptMoves(cfg, s, c, spare);
  }

  lemma StepGrows(cfg: Config, s: State, l: Label)
    requires StorageInv(cfg, s.storage) && Enabled(cfg, s, l)
    ensures Grows(s, Step(cfg, s, l))
  {
    if l.Attempt? { AttemptGrows(cfg, s, l.c, l.spare); }
  }

  lemma {:induction false} RunGrows(cfg: Config, s: State, labels: seq<Label>)
    requires ValidConfig(cfg) && Inv(cfg, s) && Runs(cfg, s, labels)
    ensures Grows(s, Run(cfg, s, labels))
    decreases |labels|
  {
    if labels != [] {
      StepKeepsInv(cfg, s, labels[0]);
      StepGrows(cfg, s, labels[0]);
      RunGrows(cfg, Step(cfg, s, labels[0]), labels[1..]);
      GrowsOn(s, Step(cfg, s, labels[0]), Run(cfg, s, labels));
    }
  }

  lemma GrowsOn(s: State, t: State, u: State)
    requires Grows(s, t) && Grows(t, u)
    ensures Grows(s, u)
  {
  }

  /** An ended activation stays ended: no slot of it is ever filled again, and no call starts in it. */
  lemma EndedStaysEmpty(cfg: Config, labels: seq<Label>, more: seq<Label>, a: Activation)
    requires ValidConfig(cfg) && Runs(cfg, Initial, labels) && a in Run(cfg, Initial, labels).storage.ended
    requires Runs(cfg, Run(cfg, Initial, labels), more)
    ensures var s := Run(cfg, Initial, labels);
            var t := Run(cfg, s, more);
            && a in t.storage.ended && a !in t.storage.slots
            && forall c :: c in t.calls && t.calls[c].activation == a ==> c in s.calls
  {
    RunKeepsInv(cfg, Initial, labels);
    RunKeepsInv(cfg, Run(cfg, Initial, labels), more);
    RunGrows(cfg, Run(cfg, Initial, labels), more);
  }

  /** A keyed wrapper makes one dictionary for an activation, whoever misses first, and never another. */
  lemma OneDictionary(cfg: Config, labels: seq<Label>, more: seq<Label>, a: Activation)
    requires ValidConfig(cfg) && Runs(cfg, Initial, labels) && Runs(cfg, Run(cfg, Initial, labels), more)
    requires var s := Run(cfg, Initial, labels); a in s.storage.slots && s.storage.slots[a].Dict?
    ensures var s := Run(cfg, Initial, labels);
            var t := Run(cfg, s, more);
            a in t.storage.slots ==> t.storage.slots[a] == s.storage.slots[a]
  {
    RunKeepsInv(cfg, Initial, labels);
    RunKeepsInv(cfg, Run(cfg, Initial, labels), more);
    RunGrows(cfg, Run(cfg, Initial, labels), more);
  }
}
