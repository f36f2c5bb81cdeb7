/**
 * The lock-free miss path of a context scope's async wrappers, at the grain it really has:
 * on one event loop nothing else runs between two awaits.
 *
 * A task's steps are written from the emitted code, with its claims dictionary and
 * `wait_for_claim`, and shown to be sequences of the finer steps of `ClaimProtocol`, so
 * everything proved of those runs holds of these.
 */
module TaskClaims {
  import opened Options
  import opened ClaimProtocol

  datatype TaskLabel =
    | Scope(step: Label)
    | Begin(c: CallId, agent: Agent, a: Activation, k: Key, spare: nat)
    | Woke(c: CallId, spare: nat)
    | Cancelled(c: CallId)
    | Finished(c: CallId, result: Option<Value>)

  /** Wait for another task's claim: refuse its own task and other loops, else watch its event. */
  function WaitForClaim(s: State, c: CallId, ck: ClaimKey, claim: Claim, spare: nat, local: Option<DictId>): State
    requires c in s.calls
  {
    var agent := s.calls[c].agent;
    if claim.owner == agent then Goto(s, c, Done(CacheCycle))
    else if claim.owner.loop != agent.loop then Goto(s, c, Done(CrossLoop))
    else if claim.WatchedClaim? then Goto(s, c, Waiting(claim.event, local))
    else
      var watched := s.claims.(
        inflight := s.claims.inflight[ck := WatchedClaim(claim.owner, spare)],
        signals := s.claims.signals[spare := Clear]);
      Goto(s.(claims := watched), c, Waiting(spare, local))
  }

  /** One round of the claim loop: take the free claim, or wait on the one that is there. */
  function ClaimLoop(cfg: Config, s: State, c: CallId, spare: nat, local: Option<DictId>): State
    requires c in s.calls
  {
    var ck := KeyOf(cfg, s.calls[c]);
    if ck in s.claims.inflight then WaitForClaim(s, c, ck, s.claims.inflight[ck], spare, local)
    else
      var claimed := s.claims.(
        inflight := s.claims.inflight[ck := Bare(s.calls[c].agent)], holders := s.claims.holders[ck := c]);
      Goto(s.(claims := claimed), c, Computing(local))
  }

  /** A call up to its first await: read the slot, return a hit, or go round the claim loop. */
  function CallStep(cfg: Config, s: State, c: CallId, agent: Agent, a: Activation, k: Key, spare: nat): State
    requires a in s.storage.slots
  {
    var begun := s.(calls := s.calls[c := ClaimProtocol.Call(agent, a, k, Missed)]);
    match s.storage.slots[a]
    case Direct(v) => Goto(begun, c, Done(Hit(v)))
    case Dict(d) =>
      if d in s.storage.dicts && k in s.storage.dicts[d] then Goto(begun, c, Done(Hit(s.storage.dicts[d][k])))
      else ClaimLoop(cfg, begun, c, spare, Some(d))
    case Unset =>
      if cfg.keyed then
        var st := s.storage;
        var made := st.(slots := st.slots[a := Dict(spare)], dicts := st.dicts[spare := map[]],
                        made := st.made[a := spare]);
        ClaimLoop(cfg, begun.(storage := made), c, spare, Some(spare))
      else ClaimLoop(cfg, begun, c, spare, None)
  }

  /**
   * A waiter after its await: leave if the activation ended, re-check, and go round again.
   * A keyed wrapper re-checks the dictionary it already holds.
   */
  function WokeStep(cfg: Config, s: State, c: CallId, spare: nat): State
    requires c in s.calls && s.calls[c].pc.Waiting?
  {
    var call := s.calls[c];
    if call.activation !in s.storage.slots then Goto(s, c, Done(Ended))
    else if cfg.keyed then
      var d := call.pc.local;
      if d.Some? && d.value in s.storage.dicts && call.key in s.storage.dicts[d.value]
      then Goto(s, c, Done(Hit(s.storage.dicts[d.value][call.key])))
      else ClaimLoop(cfg, s, c, spare, d)
    else
      var slot := s.storage.slots[call.activation];
      if slot.Direct? then Goto(s, c, Done(Hit(slot.value))) else ClaimLoop(cfg, s, c, spare, None)
  }

  /** A computation's end: store a value, pop the claim, and set its event if anyone waits. */
  function FinishedStep(cfg: Config, s: State, c: CallId, result: Option<Value>): State
    requires c in s.calls && s.calls[c].pc.Computing?
  {
    var call, ck := s.calls[c], KeyOf(cfg, s.calls[c]);
    var watched := ck in s.claims.inflight && s.claims.inflight[ck].WatchedClaim?;
    var freed := s.claims.(
      inflight := s.claims.inflight - {ck},
      holders := s.claims.holders - {ck},
      signals := if watched then s.claims.signals[s.claims.inflight[ck].event := Raised] else s.claims.signals);
    if result.None? then Goto(s.(claims := freed), c, Done(Failed))
    else
      var v := result.value;
      Goto(s.(claims := freed,
              storage := Put(cfg, s.storage, call.activation, call.key, call.pc.local, v),
              wins := s.wins[(call.activation, call.key) := Win(c, v)]),
           c, Done(Computed(v)))
  }

  predicate TaskEnabled(cfg: Config, s: State, l: TaskLabel) {
    match l
    case Scope(step) => (step.Activate? || step.End?) && Enabled(cfg, s, step)
    case Begin(c, agent, a, k, spare) =>
      Enabled(cfg, s, Start(c, agent, a, k)) && spare !in s.claims.signals && spare !in s.storage.dicts
    case Woke(c, spare) =>
      Enabled(cfg, s, Resume(c)) && spare !in s.claims.signals && spare !in s.storage.dicts
    case Cancelled(c) => Enabled(cfg, s, CancelWait(c))
    case Finished(c, _) => Enabled(cfg, s, Finish(c, None))
  }

  function TaskStep(cfg: Config, s: State, l: TaskLabel): State
    requires TaskEnabled(cfg, s, l)
  {
    match l
    case Scope(step) => Step(cfg, s, step)
    case Begin(c, agent, a, k, spare) => CallStep(cfg, s, c, agent, a, k, spare)
    case Woke(c, spare) => WokeStep(cfg, s, c, spare)
    case Cancelled(c) => Goto(s, c, Done(WaitCancelled))
    case Finished(c, result) => FinishedStep(cfg, s, c, result)
  }

  predicate TaskRuns(cfg: Config, s: State, labels: seq<TaskLabel>)
    decreases |labels|
  {
    labels == []
    || (TaskEnabled(cfg, s, labels[0]) && TaskRuns(cfg, TaskStep(cfg, s, labels[0]), labels[1..]))
  }

  function TaskRun(cfg: Config, s: State, labels: seq<TaskLabel>): State
    requires TaskRuns(cfg, s, labels)
    decreases |labels|
  {
    if labels == [] then s else TaskRun(cfg, TaskStep(cfg, s, labels[0]), labels[1..])
  }

  // ----- refinement -----

  /** The finer steps a task's step stands for. */
  function Expand(cfg: Config, s: State, l: TaskLabel): seq<Label>
    requires TaskEnabled(cfg, s, l)
  {
    match l
    case Scope(step) => [step]
    case Begin(c, agent, a, k, spare) =>
      var first := StartStep(s, c, agent, a, k).calls[c].pc;
      if first.Done? then [Start(c, agent, a, k)]
      else if first.Checking? && LookUpStep(StartStep(s, c, agent, a, k), c).calls[c].pc.Done?
      then [Start(c, agent, a, k), LookUp(c)]
      else if first.Checking? then [Start(c, agent, a, k), LookUp(c), Attempt(c, spare)]
      else [Start(c, agent, a, k), Attempt(c, spare)]
    case Woke(c, spare) =>
      if s.calls[c].activation in s.storage.live then [Resume(c), CheckEnded(c), Attempt(c, spare)]
      else [Resume(c), CheckEnded(c)]
    case Cancelled(c) => [CancelWait(c)]
    case Finished(c, result) =>
      if result.Some? then [Finish(c, result), Store(c), Release(c)] else [Finish(c, result), Release(c)]
  }

  lemma RunTwo(cfg: Config, s: State, l: Label, t: State, m: Label, u: State)
    requires Enabled(cfg, s, l) && t == Step(cfg, s, l) && Enabled(cfg, t, m) && u == Step(cfg, t, m)
    ensures Runs(cfg, s, [l, m]) && Run(cfg, s, [l, m]) == u
  {
    assert [l, m][0] == l && [l, m][1..] == [m];
    RunOne(cfg, t, m);
  }

  lemma RunThree(cfg: Config, s: State, l: Label, t: State, m: Label, u: State, n: Label, v: State)
    requires Enabled(cfg, s, l) && t == Step(cfg, s, l) && Enabled(cfg, t, m) && u == Step(cfg, t, m)
    requires Enabled(cfg, u, n) && v == Step(cfg, u, n)
    ensures Runs(cfg, s, [l, m, n]) && Run(cfg, s, [l, m, n]) == v
  {
    RunTwo(cfg, t, m, u, n, v);
    assert [l, m, n][0] == l && [l, m, n][1..] == [m, n];
  }

  lemma RunOne(cfg: Config, s: State, l: Label)
    requires Enabled(cfg, s, l)
    ensures Runs(cfg, s, [l]) && Run(cfg, s, [l]) == Step(cfg, s, l)
  {
    assert [l][1..] == [];
  }

  /** Going round the claim loop is the guarded claim-or-watch of the finer protocol. */
  lemma ClaimLoopIsAttempt(cfg: Config, s: State, c: CallId, spare: nat, local: Option<DictId>)
    requires cfg.style.Task? && c in s.calls && spare !in s.claims.signals
    requires ClaimInv(cfg, s.claims, s.calls)
    ensures ClaimLoop(cfg, s, c, spare, local) == ClaimOrWatch(cfg, s, c, spare, local)
  {
    var ck := KeyOf(cfg, s.calls[c]);
    if ck in s.claims.inflight {
      var claim := s.claims.inflight[ck];
      assert WellShaped(cfg, s.claims.signals, claim);
      assert s.claims.inflight[ck := claim] == s.claims.inflight;
    }
  }

  /** A first read that finds an unset slot goes straight to the claims. */
  lemma MissRefines(cfg: Config, s: State, c: CallId, agent: Agent, a: Activation, k: Key, spare: nat)
    requires cfg.style.Task? && TaskEnabled(cfg, s, Begin(c, agent, a, k, spare))
    requires s.storage.slots[a].Unset?
    requires ClaimInv(cfg, s.claims, StartStep(s, c, agent, a, k).calls)
    ensures AttemptStep(cfg, StartStep(s, c, agent, a, k), c, spare) == CallStep(cfg, s, c, agent, a, k, spare)
  {
    var begun := StartStep(s, c, agent, a, k);
    if cfg.keyed {
      ClaimLoopIsAttempt(cfg, begun.(storage := MakeDict(begun.storage, a, spare)), c, spare, Some(spare));
    } else {
      ClaimLoopIsAttempt(cfg, begun, c, spare, None);
    }
  }

  /** A first read that finds a dictionary without the key goes to the claims holding it. */
  lemma LookedRefines(cfg: Config, s: State, c: CallId, agent: Agent, a: Activation, k: Key, spare: nat)
    requires cfg.style.Task? && TaskEnabled(cfg, s, Begin(c, agent, a, k, spare))
    requires s.storage.slots[a].Dict?
    requires ClaimInv(cfg, s.claims, StartStep(s, c, agent, a, k).calls)
    ensures var looked := LookUpStep(StartStep(s, c, agent, a, k), c);
            if looked.calls[c].pc.Done? then looked == CallStep(cfg, s, c, agent, a, k, spare)
            else
              && looked.calls[c].pc.Missed?
              && AttemptStep(cfg, looked, c, spare) == CallStep(cfg, s, c, agent, a, k, spare)
  {
    var started := StartStep(s, c, agent, a, k);
    var looked := LookUpStep(started, c);
    var begun := s.(calls := s.calls[c := ClaimProtocol.Call(agent, a, k, Missed)]);
    if looked.calls[c].pc.Missed? {
      assert looked == begun;
      assert KeyOf(cfg, begun.calls[c]) == KeyOf(cfg, started.calls[c]);
      MoveKeepsClaimsOnly(cfg, s.claims, started.calls, c);
      ClaimLoopIsAttempt(cfg, begun, c, spare, Some(s.storage.slots[a].dict));
    }
  }

  lemma MoveKeepsClaimsOnly(cfg: Config, claims: Claims, calls: map<CallId, ClaimProtocol.Call>, c: CallId)
    requires ClaimInv(cfg, claims, calls) && c in calls && calls[c].pc.Checking?
    ensures ClaimInv(cfg, claims, calls[c := calls[c].(pc := Missed)])
  {
  }

  lemma CallRefines(cfg: Config, s: State, c: CallId, agent: Agent, a: Activation, k: Key, spare: nat)
    requires cfg.style.Task? && Inv(cfg, s) && TaskEnabled(cfg, s, Begin(c, agent, a, k, spare))
    ensures var l := Begin(c, agent, a, k, spare);
            Runs(cfg, s, Expand(cfg, s, l)) && Run(cfg, s, Expand(cfg, s, l)) == TaskStep(cfg, s, l)
  {
    var started := StartStep(s, c, agent, a, k);
    var called := CallStep(cfg, s, c, agent, a, k, spare);
    StartKeepsInv(cfg, s, c, agent, a, k);
    match s.storage.slots[a]
    case Direct(v) => RunOne(cfg, s, Start(c, agent, a, k));
    case Dict(d) =>
      var looked := LookUpStep(started, c);
      LookedRefines(cfg, s, c, agent, a, k, spare);
      if looked.calls[c].pc.Done? {
        RunTwo(cfg, s, Start(c, agent, a, k), started, LookUp(c), looked);
      } else {
        RunThree(cfg, s, Start(c, agent, a, k), started, LookUp(c), looked, Attempt(c, spare), called);
      }
    case Unset =>
      MissRefines(cfg, s, c, agent, a, k, spare);
      RunTwo(cfg, s, Start(c, agent, a, k), started, Attempt(c, spare), called);
  }

  lemma GotoTwice(s: State, c: CallId, first: PC, second: PC)
    requires c in s.calls
    ensures Goto(Goto(s, c, first), c, second) == Goto(s, c, second)
  {
  }

  /** Where a caller comes from makes no difference to going round the claim loop. */
  lemma LoopForgets(cfg: Config, s: State, c: CallId, pc: PC, spare: nat, local: Option<DictId>)
    requires c in s.calls
    ensures ClaimLoop(cfg, Goto(s, c, pc), c, spare, local) == ClaimLoop(cfg, s, c, spare, local)
  {
  }

  /** Re-checking the dictionary a waiter still holds is re-reading the slot. */
  lemma RecheckIsAttempt(cfg: Config, s: State, c: CallId, spare: nat)
    requires cfg.style.Task? && ClaimInv(cfg, s.claims, s.calls) && StorageInv(cfg, s.storage)
    requires c in s.calls && s.calls[c].pc.Waiting? && Placed(cfg, s.storage, s.calls[c])
    requires s.calls[c].activation in s.storage.slots && spare !in s.claims.signals
    requires ClaimInv(cfg, s.claims, Goto(s, c, Missed).calls)
    ensures AttemptStep(cfg, Goto(s, c, Missed), c, spare) == WokeStep(cfg, s, c, spare)
  {
    var local, missed := s.calls[c].pc.local, Goto(s, c, Missed);
    var slot := s.storage.slots[s.calls[c].activation];
    LoopForgets(cfg, s, c, Missed, spare, local);
    ClaimLoopIsAttempt(cfg, missed, c, spare, local);
    match slot
    case Direct(v) => GotoTwice(s, c, Missed, Done(Hit(v)));
    case Dict(d) =>
      if s.calls[c].key in s.storage.dicts[d] {
        GotoTwice(s, c, Missed, Done(Hit(s.storage.dicts[d][s.calls[c].key])));
      }
    case Unset =>
  }

  lemma WokeLiveRefines(cfg: Config, s: State, c: CallId, spare: nat)
    requires cfg.style.Task? && ClaimInv(cfg, s.claims, s.calls) && SignalInv(cfg, s.claims.signals, s.calls)
    requires StorageInv(cfg, s.storage) && TaskEnabled(cfg, s, Woke(c, spare)) && Placed(cfg, s.storage, s.calls[c])
    requires s.calls[c].activation in s.storage.live
    ensures var steps := [Resume(c), CheckEnded(c), Attempt(c, spare)];
            Runs(cfg, s, steps) && Run(cfg, s, steps) == WokeStep(cfg, s, c, spare)
  {
    var resumed := Goto(s, c, Woken(s.calls[c].pc.local));
    var missed := Goto(resumed, c, Missed);
    GotoTwice(s, c, Woken(s.calls[c].pc.local), Missed);
    MoveKeepsClaims(cfg, s.claims, s.calls, c, Missed);
    RecheckIsAttempt(cfg, s, c, spare);
    RunThree(cfg, s, Resume(c), resumed, CheckEnded(c), missed, Attempt(c, spare), WokeStep(cfg, s, c, spare));
  }

  lemma WokeEndedRefines(cfg: Config, s: State, c: CallId, spare: nat)
    requires StorageInv(cfg, s.storage) && TaskEnabled(cfg, s, Woke(c, spare))
    requires s.calls[c].activation !in s.storage.live
    ensures var steps := [Resume(c), CheckEnded(c)];
            Runs(cfg, s, steps) && Run(cfg, s, steps) == WokeStep(cfg, s, c, spare)
  {
    var resumed := Goto(s, c, Woken(s.calls[c].pc.local));
    GotoTwice(s, c, Woken(s.calls[c].pc.local), Done(Ended));
    RunTwo(cfg, s, Resume(c), resumed, CheckEnded(c), WokeStep(cfg, s, c, spare));
  }

  lemma WokeRefines(cfg: Config, s: State, c: CallId, spare: nat)
    requires cfg.style.Task? && Inv(cfg, s) && TaskEnabled(cfg, s, Woke(c, spare))
    ensures var l := Woke(c, spare);
            Runs(cfg, s, Expand(cfg, s, l)) && Run(cfg, s, Expand(cfg, s, l)) == TaskStep(cfg, s, l)
  {
    assert CallInv(cfg, s, c, s.calls[c]);
    if s.calls[c].activation in s.storage.live {
      WokeLiveRefines(cfg, s, c, spare);
    } else {
      WokeEndedRefines(cfg, s, c, spare);
    }
  }

  /** Popping a claim and setting its event is releasing it. */
  lemma FreeIsRelease(cfg: Config, s: State, t: State, c: CallId)
    requires cfg.style.Task? && c in s.calls && KeyOf(cfg, s.calls[c]) in s.claims.inflight
    requires WellShaped(cfg, s.claims.signals, s.claims.inflight[KeyOf(cfg, s.calls[c])])
    requires c in t.calls && t.claims == s.claims && t.calls == s.calls[c := t.calls[c]] && t.calls[c].pc.Releasing?
    requires t.calls[c] == s.calls[c].(pc := t.calls[c].pc) && s.calls[c].pc.Computing?
    ensures ReleaseStep(cfg, t, c).claims == FinishedStep(cfg, s, c, None).claims
    ensures ReleaseStep(cfg, t, c).calls == s.calls[c := s.calls[c].(pc := Done(t.calls[c].pc.outcome))]
  {
  }

  lemma FinishedRefines(cfg: Config, s: State, c: CallId, result: Option<Value>)
    requires cfg.style.Task? && ClaimInv(cfg, s.claims, s.calls) && TaskEnabled(cfg, s, Finished(c, result))
    requires Filed(cfg, s.claims, c, s.calls[c])
    ensures var l := Finished(c, result);
            Runs(cfg, s, Expand(cfg, s, l)) && Run(cfg, s, Expand(cfg, s, l)) == TaskStep(cfg, s, l)
  {
    assert WellShaped(cfg, s.claims.signals, s.claims.inflight[KeyOf(cfg, s.calls[c])]);
    var finished := Step(cfg, s, Finish(c, result));
    if result.Some? {
      var stored := StoreStep(cfg, finished, c);
      FreeIsRelease(cfg, s, stored, c);
      RunThree(cfg, s, Finish(c, result), finished, Store(c), stored, Release(c), FinishedStep(cfg, s, c, result));
    } else {
      FreeIsRelease(cfg, s, finished, c);
      RunTwo(cfg, s, Finish(c, result), finished, Release(c), FinishedStep(cfg, s, c, result));
    }
  }

  lemma TaskStepRefines(cfg: Config, s: State, l: TaskLabel)
    requires cfg.style.Task? && ValidConfig(cfg) && Inv(cfg, s) && TaskEnabled(cfg, s, l)
    ensures Runs(cfg, s, Expand(cfg, s, l)) && Run(cfg, s, Expand(cfg, s, l)) == TaskStep(cfg, s, l)
  {
    match l
    case Scope(step) => RunOne(cfg, s, step);
    case Begin(c, agent, a, k, spare) => CallRefines(cfg, s, c, agent, a, k, spare);
    case Woke(c, spare) => WokeRefines(cfg, s, c, spare);
    case Cancelled(c) => RunOne(cfg, s, CancelWait(c));
    case Finished(c, result) =>
      assert CallInv(cfg, s, c, s.calls[c]);
      FinishedRefines(cfg, s, c, result);
  }

  /** The finer steps a whole run of tasks stands for. */
  function ExpandRun(cfg: Config, s: State, labels: seq<TaskLabel>): seq<Label>
    requires TaskRuns(cfg, s, labels)
    decreases |labels|
  {
    if labels == [] then []
    else Expand(cfg, s, labels[0]) + ExpandRun(cfg, TaskStep(cfg, s, labels[0]), labels[1..])
  }

  lemma {:induction false} RunAppend(cfg: Config, s: State, first: seq<Label>, rest: seq<Label>)
    requires Runs(cfg, s, first) && Runs(cfg, Run(cfg, s, first), rest)
    ensures Runs(cfg, s, first + rest) && Run(cfg, s, first + rest) == Run(cfg, Run(cfg, s, first), rest)
    decreases |first|
  {
    if first == [] {
      assert first + rest == rest;
    } else {
      RunAppend(cfg, Step(cfg, s, first[0]), first[1..], rest);
      assert (first + rest)[1..] == first[1..] + rest;
    }
  }

  /**
   * Every run of tasks is a run of the finer protocol with the same states, so compute-once and
   * no lost wake-up hold of the lock-free path too.
   */
  lemma {:induction false} TaskRunRefines(cfg: Config, s: State, labels: seq<TaskLabel>)
    requires cfg.style.Task? && ValidConfig(cfg) && Inv(cfg, s) && TaskRuns(cfg, s, labels)
    ensures Runs(cfg, s, ExpandRun(cfg, s, labels))
    ensures Run(cfg, s, ExpandRun(cfg, s, labels)) == TaskRun(cfg, s, labels)
    decreases |labels|
  {
    if labels != [] {
      var t := TaskStep(cfg, s, labels[0]);
      TaskStepRefines(cfg, s, labels[0]);
      RunKeepsInv(cfg, s, Expand(cfg, s, labels[0]));
      TaskRunRefines(cfg, t, labels[1..]);
      RunAppend(cfg, s, Expand(cfg, s, labels[0]), ExpandRun(cfg, t, labels[1..]));
    }
  }

  lemma InitialInv(cfg: Config)
    ensures Inv(cfg, Initial)
  {
  }

  /** Compute once, for the lock-free path. */
  lemma TasksComputeOnce(cfg: Config, labels: seq<TaskLabel>, c: CallId, d: CallId)
    requires cfg.style.Task? && ValidConfig(cfg) && TaskRuns(cfg, Initial, labels)
    requires c in TaskRun(cfg, Initial, labels).calls && d in TaskRun(cfg, Initial, labels).calls
    ensures var calls := TaskRun(cfg, Initial, labels).calls;
            SameEntry(calls[c], calls[d]) ==>
              && (calls[c].pc.Computing? && calls[d].pc.Computing? ==> c == d)
              && (Succeeded(calls[c]) && Succeeded(calls[d]) ==> c == d)
              && !(Succeeded(calls[c]) && calls[d].pc.Computing?)
              && (Returned(calls[c]).Some? && Returned(calls[d]).Some? ==> Returned(calls[c]) == Returned(calls[d]))
  {
    InitialInv(cfg);
    TaskRunRefines(cfg, Initial, labels);
    ComputeOnce(cfg, ExpandRun(cfg, Initial, labels), c, d);
  }

  /** No lost wake-up, for the lock-free path: a waiter's event is set, or a computing task will set it. */
  lemma TasksWakeUp(cfg: Config, labels: seq<TaskLabel>, c: CallId)
    requires cfg.style.Task? && ValidConfig(cfg) && TaskRuns(cfg, Initial, labels)
    requires c in TaskRun(cfg, Initial, labels).calls && TaskRun(cfg, Initial, labels).calls[c].pc.Waiting?
    ensures var s := TaskRun(cfg, Initial, labels);
            || HasWoken(s.claims, s.calls[c])
            || exists d :: d in s.calls && Owns(s.calls[d]) && s.calls[d].agent != s.calls[c].agent
                 && KeyOf(cfg, s.calls[d]) == KeyOf(cfg, s.calls[c])
                 && KeyOf(cfg, s.calls[c]) in s.claims.inflight
                 && s.calls[c].pc.signal in Watched(s.claims.inflight[KeyOf(cfg, s.calls[c])])
  {
    InitialInv(cfg);
    TaskRunRefines(cfg, Initial, labels);
    NoLostWakeUp(cfg, ExpandRun(cfg, Initial, labels), c);
  }

  // ----- what tasks return -----

  /** A task's step stands for ending a computation, or for starting a call, exactly if it does that. */
  lemma ExpandMeans(cfg: Config, s: State, l: TaskLabel, m: Label)
    requires TaskEnabled(cfg, s, l) && m in Expand(cfg, s, l)
    ensures m.Finish? ==> l == Finished(m.c, m.result)
    ensures m.Start? ==> l.Begin? && l == Begin(m.c, m.agent, m.a, m.k, l.spare)
  {
  }

  lemma {:induction false} ExpandedFrom(cfg: Config, s: State, labels: seq<TaskLabel>, m: Label) returns (l: TaskLabel)
    requires TaskRuns(cfg, s, labels) && m in ExpandRun(cfg, s, labels)
    ensures l in labels
    ensures m.Finish? ==> l == Finished(m.c, m.result)
    ensures m.Start? ==> l.Begin? && l == Begin(m.c, m.agent, m.a, m.k, l.spare)
    decreases |labels|
  {
    if m in Expand(cfg, s, labels[0]) {
      l := labels[0];
      ExpandMeans(cfg, s, l, m);
    } else {
      l := ExpandedFrom(cfg, TaskStep(cfg, s, labels[0]), labels[1..], m);
    }
  }

  /** Every value that a task's call returns is what a task's computation for the same entry gave. */
  lemma TasksReturnWhatWasComputed(cfg: Config, labels: seq<TaskLabel>, c: CallId)
    returns (w: CallId, agent: Agent, spare: nat)
    requires cfg.style.Task? && ValidConfig(cfg) && TaskRuns(cfg, Initial, labels)
    requires c in TaskRun(cfg, Initial, labels).calls && Returned(TaskRun(cfg, Initial, labels).calls[c]).Some?
    ensures var call := TaskRun(cfg, Initial, labels).calls[c];
            && Begin(w, agent, call.activation, call.key, spare) in labels
            && Finished(w, Returned(call)) in labels
  {
    InitialInv(cfg);
    TaskRunRefines(cfg, Initial, labels);
    var finer := ExpandRun(cfg, Initial, labels);
    var call := Run(cfg, Initial, finer).calls[c];
    w, agent := ReturnsWhatWasComputed(cfg, finer, c);
    var begun := ExpandedFrom(cfg, Initial, labels, Start(w, agent, call.activation, call.key));
    spare := begun.spare;
    var ended := ExpandedFrom(cfg, Initial, labels, Finish(w, Returned(call)));
  }

  /** And a task's call fails only if its own computation did. */
  lemma TasksFailAlone(cfg: Config, labels: seq<TaskLabel>, c: CallId)
    requires cfg.style.Task? && ValidConfig(cfg) && TaskRuns(cfg, Initial, labels)
    requires c in TaskRun(cfg, Initial, labels).calls
    requires OutcomeOf(TaskRun(cfg, Initial, labels).calls[c]) == Some(Failed)
    ensures Finished(c, None) in labels
  {
    InitialInv(cfg);
    TaskRunRefines(cfg, Initial, labels);
    var finer := ExpandRun(cfg, Initial, labels);
    ResultsAreTheirOwn(cfg, finer, c);
    var ended := ExpandedFrom(cfg, Initial, labels, Finish(c, None));
  }
}
