/**
 * Middleware and hooks around one call. `run_middleware` enters context managers in a loop and
 * exits them by a loop and a recursion over one shared list; here it is proved to be a nest of
 * `with` statements (section 8.5 of the Python Language Reference) in which an exit that returns
 * true raises instead of suppressing.
 */
module Middleware {
  import opened Options

  type Reply = nat

  /**
   * An exception: an ordinary `Exception`, a cancellation, or another that is meant to stop the
   * program. The rest are ordinary ones this code makes, `at` the layer or hook that caused them.
   */
  datatype Exc =
    | Ordinary(id: nat)
    | Cancelled(id: nat)
    | Stopping(id: nat)
    | NotAManager(at: nat)
    | CoroutineRefused(at: nat)
    | AwaitableRefused(at: nat)
    | SwallowRefused(error: Exc, at: nat)

  predicate IsException(e: Exc) {
    !e.Cancelled? && !e.Stopping?
  }

  datatype Outcome = Returned(reply: Reply) | Raised(error: Exc) {
    function Error(): Option<Exc> {
      if Raised? then Some(error) else None
    }

    function Reply(): Option<Reply> {
      if Returned? then Some(reply) else None
    }
  }

  /** What a method of a context manager returned, as far as it matters. */
  datatype Value = Falsy | Truthy | Coroutine

  datatype Enter = EnterReturns(value: Value) | EnterRaises(error: Exc)

  /** What an exit did, and whether its asyncio task was being cancelled just after it. */
  datatype Leave = LeaveReturns(value: Value, cancelling: bool) | LeaveRaises(error: Exc)

  /**
   * One middleware and the context manager it makes, if it does not raise: which protocols its
   * type has, and what entering and leaving do. Leaving is given the error, or none, and what
   * `call.reply` holds.
   */
  datatype Layer = Layer(
    makes: Option<Exc>,
    isSync: bool,
    isAsync: bool,
    enter: Enter,
    leave: (Option<Exc>, Option<Reply>) -> Leave
  )

  datatype Slot = Before | Success | Failure | Complete

  datatype Event =
    | Entered(layer: nat)
    | Called
    | Exited(layer: nat, error: Option<Exc>, reply: Option<Reply>)
    | HookRan(slot: Slot, hook: nat)

  datatype Ran = Ran(log: seq<Event>, outcome: Outcome)

  // ----- one layer -----

  /** How a bus enters a manager: asynchronously, synchronously, or not at all. */
  function EntryOf(asynchronous: bool, layer: Layer): Option<bool> {
    if asynchronous && layer.isAsync then Some(true)
    else if layer.isSync then Some(false)
    else None
  }

  /** Whether a coroutine from a manager's method is an `async def` mistake. */
  predicate Refuses(asynchronous: bool, layer: Layer, value: Value) {
    EntryOf(asynchronous, layer) != Some(true) && value == Coroutine
  }

  /** The error that stops a layer being entered, if any. */
  function EnterError(asynchronous: bool, layer: Layer, at: nat): Option<Exc> {
    if layer.makes.Some? then layer.makes
    else if EntryOf(asynchronous, layer).None? then Some(NotAManager(at))
    else if layer.enter.EnterRaises? then Some(layer.enter.error)
    else if Refuses(asynchronous, layer, layer.enter.value) then Some(CoroutineRefused(at))
    else None
  }

  /** The error raised in place of `error` when an exit tries to swallow it. */
  function Refusal(error: Exc, at: nat, cancelling: bool): Exc {
    if IsException(error) || (error.Cancelled? && !cancelling) then SwallowRefused(error, at) else error
  }

  /** What leaving one layer makes of its body's outcome. */
  function Left(asynchronous: bool, layer: Layer, at: nat, body: Outcome): Outcome {
    match layer.leave(body.Error(), body.Reply())
    case LeaveRaises(e) => Raised(e)
    case LeaveReturns(value, cancelling) =>
      if Refuses(asynchronous, layer, value) then Raised(CoroutineRefused(at))
      else if body.Raised? && value != Falsy then Raised(Refusal(body.error, at, !asynchronous || cancelling))
      else body
  }

  // ----- the specification: nested `with` statements -----

  /** Run `inner` nested in the layers from `at` on. */
  function With(asynchronous: bool, layers: seq<Layer>, at: nat, inner: Ran): Ran
    requires at <= |layers|
    decreases |layers| - at
  {
    if at == |layers| then inner
    else
      var failed := EnterError(asynchronous, layers[at], at);
      if failed.Some? then Ran([], Raised(failed.value))
      else
        var body := With(asynchronous, layers, at + 1, inner);
        Ran([Entered(at)] + body.log + [Exited(at, body.outcome.Error(), body.outcome.Reply())],
            Left(asynchronous, layers[at], at, body.outcome))
  }

  predicate Known(layers: seq<Layer>, entered: seq<nat>) {
    forall i :: 0 <= i < |entered| ==> entered[i] < |layers|
  }

  /** Leave the layers listed, last first. */
  function Exits(asynchronous: bool, layers: seq<Layer>, entered: seq<nat>, body: Outcome): Ran
    requires Known(layers, entered)
  {
    if entered == [] then Ran([], body)
    else
      var n := |entered| - 1;
      var at := entered[n];
      var rest := Exits(asynchronous, layers, entered[..n], Left(asynchronous, layers[at], at, body));
      Ran([Exited(at, body.Error(), body.Reply())] + rest.log, rest.outcome)
  }

  // ----- hooks -----

  datatype HookResult = HookReturns | HookReturnsAwaitable | HookRaises(error: Exc)

  /** Hooks around one call. An observing hook's result may depend on the call's outcome. */
  datatype Hooks = Hooks(
    before: seq<HookResult>,
    success: seq<Outcome -> HookResult>,
    failure: seq<Outcome -> HookResult>,
    complete: seq<Outcome -> HookResult>
  )

  function HookError(result: HookResult, at: nat): Option<Exc> {
    match result
    case HookReturns => None
    case HookReturnsAwaitable => Some(AwaitableRefused(at))
    case HookRaises(e) => Some(e)
  }

  /** The hooks that ran from `at` on, up to the first stopped by, and what stopped them. */
  datatype Observed = Observed(log: seq<Event>, stopped: Option<Exc>)

  /** Run `before` hooks from `at` on: the first that raises anything stops the call. */
  function RunBefore(before: seq<HookResult>, at: nat): Observed
    requires at <= |before|
    decreases |before| - at
  {
    if at == |before| then Observed([], None)
    else if HookError(before[at], at).Some? then Observed([HookRan(Before, at)], HookError(before[at], at))
    else
      var rest := RunBefore(before, at + 1);
      Observed([HookRan(Before, at)] + rest.log, rest.stopped)
  }

  /** Run observing hooks from `at` on: an `Exception` is logged, and anything else gets out. */
  function Observe(slot: Slot, hooks: seq<Outcome -> HookResult>, at: nat, o: Outcome): Observed
    requires at <= |hooks|
    decreases |hooks| - at
  {
    if at == |hooks| then Observed([], None)
    else
      var error := HookError(hooks[at](o), at);
      if error.Some? && !IsException(error.value) then Observed([HookRan(slot, at)], error)
      else
        var rest := Observe(slot, hooks, at + 1, o);
        Observed([HookRan(slot, at)] + rest.log, rest.stopped)
  }

  /** The slot of hooks that runs between the call and `complete`. */
  function MiddleSlot(h: Hooks, o: Outcome): Observed {
    if o.Returned? then Observe(Success, h.success, 0, o)
    else if IsException(o.error) then Observe(Failure, h.failure, 0, o)
    else Observed([], None)
  }

  function AfterCall(h: Hooks, o: Outcome): Ran {
    var middle := MiddleSlot(h, o);
    if middle.stopped.Some? then Ran(middle.log, Raised(middle.stopped.value))
    else
      var last := Observe(Complete, h.complete, 0, o);
      Ran(middle.log + last.log, if last.stopped.Some? then Raised(last.stopped.value) else o)
  }

  /** A call, inside its hooks if it has any. */
  function Hooked(hooks: Option<Hooks>, call: Outcome): Ran {
    if hooks.None? then Ran([Called], call)
    else
      var before := RunBefore(hooks.value.before, 0);
      if before.stopped.Some? then Ran(before.log, Raised(before.stopped.value))
      else
        var after := AfterCall(hooks.value, call);
        Ran(before.log + [Called] + after.log, after.outcome)
  }

  // ----- the code -----

  /** One run of middleware: the managers entered so far, `call.reply`, and what has happened. */
  class Run {
    const asynchronous: bool
    const layers: seq<Layer>
    var entered: seq<nat>
    var reply: Option<Reply>
    var log: seq<Event>

    constructor (asynchronous: bool, layers: seq<Layer>)
      ensures this.asynchronous == asynchronous && this.layers == layers
      ensures entered == [] && reply == None && log == []
    {
      this.asynchronous, this.layers := asynchronous, layers;
      entered, reply, log := [], None, [];
    }

    ghost predicate Valid()
      reads this
    {
      Known(layers, entered)
    }

    /** Pop the innermost manager and exit it; a result of none means it returned quietly. */
    method PopAndExit(error: Option<Exc>) returns (at: nat, raised: Option<Exc>)
      requires Valid() && entered != [] && (error.None? <==> reply.Some?)
      modifies this`entered, this`log
      ensures entered == old(entered[..|entered| - 1]) && at == old(entered[|entered| - 1])
      ensures at < |layers| && log == old(log) + [Exited(at, error, reply)]
      ensures var body := if error.None? then Returned(reply.value) else Raised(error.value);
              Left(asynchronous, layers[at], at, body) == if raised.Some? then Raised(raised.value) else body
    {
      at := entered[|entered| - 1];
      entered := entered[..|entered| - 1];
      log := log + [Exited(at, error, reply)];
      var result := layers[at].leave(error, reply);
      if result.LeaveRaises? {
        return at, Some(result.error);
      }
      if Refuses(asynchronous, layers[at], result.value) {
        return at, Some(CoroutineRefused(at));
      }
      if error.Some? && result.value != Falsy {
        return at, Some(Refusal(error.value, at, if asynchronous then result.cancelling else true));
      }
      return at, None;
    }

    /** Exit with `error` what is still entered, and return the error that ends up raised. */
    method Unwind(error: Exc) returns (raised: Exc)
      requires Valid() && reply == None
      modifies this`entered, this`log
      ensures entered == []
      ensures Ran(log, Raised(raised)) ==
              var exits := Exits(asynchronous, layers, old(entered), Raised(error));
              Ran(old(log) + exits.log, exits.outcome)
      decreases |entered|
    {
      ghost var exits := Exits(asynchronous, layers, entered, Raised(error));
      while entered != []
        invariant Valid() && |entered| <= |old(entered)|
        invariant var left := Exits(asynchronous, layers, entered, Raised(error));
                  log + left.log == old(log) + exits.log && left.outcome == exits.outcome
        decreases |entered|
      {
        ghost var left := Exits(asynchronous, layers, entered, Raised(error));
        ghost var before, was := log, entered;
        var at, result := PopAndExit(Some(error));
        ghost var rest := Exits(asynchronous, layers, entered, Left(asynchronous, layers[at], at, Raised(error)));
        assert left == Ran([Exited(at, Some(error), None)] + rest.log, rest.outcome);
        assert before + left.log == log + rest.log;
        if result.Some? && result.value != error {
          raised := Unwind(result.value);
          return;
        }
      }
      return error;
    }

    /** Exit with no error what is entered; an exit that raises makes the rest exit with its error. */
    method ExitAll() returns (failed: Option<Exc>)
      requires Valid() && reply.Some?
      modifies this
      ensures entered == []
      ensures reply == if failed.Some? then None else old(reply)
      ensures Ran(log, if failed.Some? then Raised(failed.value) else Returned(old(reply.value))) ==
              var exits := Exits(asynchronous, layers, old(entered), Returned(old(reply.value)));
              Ran(old(log) + exits.log, exits.outcome)
    {
      ghost var body := Returned(reply.value);
      ghost var exits := Exits(asynchronous, layers, entered, body);
      while entered != []
        invariant Valid() && reply == old(reply)
        invariant var left := Exits(asynchronous, layers, entered, body);
                  log + left.log == old(log) + exits.log && left.outcome == exits.outcome
        decreases |entered|
      {
        ghost var left := Exits(asynchronous, layers, entered, body);
        ghost var before := log;
        var at, result := PopAndExit(None);
        ghost var rest := Exits(asynchronous, layers, entered, Left(asynchronous, layers[at], at, body));
        assert left == Ran([Exited(at, None, reply)] + rest.log, rest.outcome);
        assert before + left.log == log + rest.log;
        if result.Some? {
          reply := None;
          var raised := Unwind(result.value);
          return Some(raised);
        }
      }
      return None;
    }

    /** Run observing hooks in turn; the result is what stopped them, if not an `Exception`. */
    method ObserveAll(slot: Slot, hooks: seq<Outcome -> HookResult>, o: Outcome) returns (stopped: Option<Exc>)
      modifies this`log
      ensures Observed(log, stopped) ==
              var all := Observe(slot, hooks, 0, o);
              Observed(old(log) + all.log, all.stopped)
    {
      ghost var all := Observe(slot, hooks, 0, o);
      for at := 0 to |hooks|
        invariant var left := Observe(slot, hooks, at, o);
                  log + left.log == old(log) + all.log && left.stopped == all.stopped
      {
        ghost var before := log;
        log := log + [HookRan(slot, at)];
        assert forall rest :: before + ([HookRan(slot, at)] + rest) == log + rest;
        var error := HookError(hooks[at](o), at);
        if error.Some? && !IsException(error.value) {
          return error;
        }
      }
      return None;
    }

    /** Run the call inside its hooks. */
    method RunHooks(hooks: Hooks, call: Outcome) returns (o: Outcome)
      modifies this`log
      ensures Ran(log, o) ==
              var all := Hooked(Some(hooks), call);
              Ran(old(log) + all.log, all.outcome)
    {
      ghost var all := RunBefore(hooks.before, 0);
      for at := 0 to |hooks.before|
        invariant var left := RunBefore(hooks.before, at);
                  log + left.log == old(log) + all.log && left.stopped == all.stopped
      {
        ghost var before := log;
        log := log + [HookRan(Before, at)];
        assert forall rest :: before + ([HookRan(Before, at)] + rest) == log + rest;
        var error := HookError(hooks.before[at], at);
        if error.Some? {
          return Raised(error.value);
        }
      }
      assert log == old(log) + all.log;
      log := log + [Called];
      o := AfterHooks(hooks, call);
      ghost var after := AfterCall(hooks, call).log;
      assert log == old(log) + all.log + [Called] + after == old(log) + (all.log + [Called] + after);
    }

    /** The hooks after the call, which only observe, unless one raises no mere `Exception`. */
    method AfterHooks(hooks: Hooks, call: Outcome) returns (o: Outcome)
      modifies this`log
      ensures Ran(log, o) ==
              var after := AfterCall(hooks, call);
              Ran(old(log) + after.log, after.outcome)
    {
      var stopped: Option<Exc> := None;
      if call.Returned? {
        stopped := ObserveAll(Success, hooks.success, call);
      } else if IsException(call.error) {
        stopped := ObserveAll(Failure, hooks.failure, call);
      }
      if stopped.Some? {
        return Raised(stopped.value);
      }
      stopped := ObserveAll(Complete, hooks.complete, call);
      return if stopped.Some? then Raised(stopped.value) else call;
    }

    /** Run the call, inside its hooks if it has any. */
    method RunCall(hooks: Option<Hooks>, call: Outcome) returns (o: Outcome)
      modifies this`log
      ensures Ran(log, o) ==
              var all := Hooked(hooks, call);
              Ran(old(log) + all.log, all.outcome)
    {
      if hooks.Some? {
        o := RunHooks(hooks.value, call);
      } else {
        log := log + [Called];
        o := call;
      }
    }

    /** Enter the layers, outermost first, until one fails to be entered. */
    method EnterAll(ghost inner: Ran) returns (failed: Option<Exc>)
      requires entered == [] && reply == None && log == []
      modifies this`entered, this`log
      ensures Valid()
      ensures Nested(asynchronous, layers, entered, log,
                     if failed.Some? then Ran([], Raised(failed.value)) else inner,
                     With(asynchronous, layers, 0, inner))
    {
      ghost var whole := With(asynchronous, layers, 0, inner);
      for at := 0 to |layers|
        invariant entered == seq(at, i => i)
        invariant Nested(asynchronous, layers, entered, log, With(asynchronous, layers, at, inner), whole)
      {
        var error := EnterError(asynchronous, layers[at], at);
        if error.Some? {
          return error;
        }
        NestedStep(asynchronous, layers, entered, log, inner, whole);
        log := log + [Entered(at)];
        entered := entered + [at];
      }
      return None;
    }

    /** An emit or a handler call: middleware around hooks around the call itself. */
    method RunMiddleware(hooks: Option<Hooks>, call: Outcome) returns (o: Outcome)
      requires entered == [] && reply == None && log == []
      modifies this
      ensures Ran(log, o) == With(asynchronous, layers, 0, Hooked(hooks, call))
      ensures reply == o.Reply() && entered == []
    {
      var failed := EnterAll(Hooked(hooks, call));
      if failed.None? {
        o := RunCall(hooks, call);
        if o.Returned? {
          reply := Some(o.reply);
          failed := ExitAll();
          return if failed.Some? then Raised(failed.value) else o;
        }
        failed := Some(o.error);
      }
      var raised := Unwind(failed.value);
      return Raised(raised);
    }
  }

  /** The whole nest, when `log` has happened, `entered` is entered and `left` is left to run in it. */
  ghost predicate Nested(
    asynchronous: bool, layers: seq<Layer>, entered: seq<nat>, log: seq<Event>, left: Ran, whole: Ran
  )
    requires Known(layers, entered)
  {
    var exits := Exits(asynchronous, layers, entered, left.outcome);
    whole == Ran(log + left.log + exits.log, exits.outcome)
  }

  lemma NestedStep(
    asynchronous: bool, layers: seq<Layer>, entered: seq<nat>, log: seq<Event>, inner: Ran, whole: Ran
  )
    requires entered == seq(|entered|, i => i) && |entered| < |layers|
    requires EnterError(asynchronous, layers[|entered|], |entered|).None?
    requires Nested(asynchronous, layers, entered, log, With(asynchronous, layers, |entered|, inner), whole)
    ensures Nested(asynchronous, layers, entered + [|entered|], log + [Entered(|entered|)],
                   With(asynchronous, layers, |entered| + 1, inner), whole)
  {
    var at := |entered|;
    var body := With(asynchronous, layers, at + 1, inner);
    assert (entered + [at])[..at] == entered;
    var exited := [Exited(at, body.outcome.Error(), body.outcome.Reply())];
    var rest := Exits(asynchronous, layers, entered, Left(asynchronous, layers[at], at, body.outcome));
    assert log + ([Entered(at)] + body.log + exited) + rest.log == log + [Entered(at)] + body.log + (exited + rest.log);
  }

  // ----- what the nest guarantees, for every stack of layers and every call -----

  /** How many layers are entered: all of them, or those before the first that cannot be. */
  function Reached(asynchronous: bool, layers: seq<Layer>, at: nat): nat
    requires at <= |layers|
    decreases |layers| - at
  {
    if at == |layers| || EnterError(asynchronous, layers[at], at).Some? then at
    else Reached(asynchronous, layers, at + 1)
  }

  /** `from`..`to` are each entered and exited once, as brackets nest, around `middle`. */
  predicate EachOnce(log: seq<Event>, from: nat, to: nat, middle: seq<Event>)
    requires from <= to
    decreases |log|
  {
    if from == to then log == middle
    else
      && |log| >= 2 && log[0] == Entered(from) && log[|log| - 1].Exited? && log[|log| - 1].layer == from
      && EachOnce(log[1..|log| - 1], from + 1, to, middle)
  }

  /**
   * Every layer that is entered is exited exactly once, innermost first, whatever exits raise. The
   * call runs once if every layer is entered, and not at all otherwise.
   */
  lemma {:induction false} EnteredExitedOnce(asynchronous: bool, layers: seq<Layer>, at: nat, inner: Ran)
    requires at <= |layers|
    ensures var n := Reached(asynchronous, layers, at);
            && at <= n
            && EachOnce(With(asynchronous, layers, at, inner).log, at, n, if n == |layers| then inner.log else [])
    decreases |layers| - at
  {
    if at < |layers| && EnterError(asynchronous, layers[at], at).None? {
      EnteredExitedOnce(asynchronous, layers, at + 1, inner);
      var n := Reached(asynchronous, layers, at);
      var body := With(asynchronous, layers, at + 1, inner);
      var log := With(asynchronous, layers, at, inner).log;
      assert log[1..|log| - 1] == body.log;
    }
  }

  /** Whether leaving a layer with this reply and no error ends quietly. */
  predicate LeavesQuietly(asynchronous: bool, layer: Layer, reply: Reply) {
    var left := layer.leave(None, Some(reply));
    left.LeaveReturns? && !Refuses(asynchronous, layer, left.value)
  }

  /**
   * An error is never swallowed: a reply comes back exactly when the call returned it, every layer
   * was entered, and every exit ended quietly.
   */
  lemma {:induction false} NeverSwallows(asynchronous: bool, layers: seq<Layer>, at: nat, inner: Ran, reply: Reply)
    requires at <= |layers|
    ensures With(asynchronous, layers, at, inner).outcome == Returned(reply) <==>
            && Reached(asynchronous, layers, at) == |layers|
            && inner.outcome == Returned(reply)
            && forall i :: at <= i < |layers| ==> LeavesQuietly(asynchronous, layers[i], reply)
    decreases |layers| - at
  {
    if at < |layers| && EnterError(asynchronous, layers[at], at).None? {
      NeverSwallows(asynchronous, layers, at + 1, inner, reply);
    } else if at < |layers| {
      assert Reached(asynchronous, layers, at) == at;
    }
  }

  /** An exit sees a reply exactly when it sees no error, and then the call's own. */
  predicate SeesReplyOrError(e: Event, call: Outcome) {
    e.Exited? ==> (e.error.None? <==> e.reply.Some?) && (e.reply.Some? ==> call == Returned(e.reply.value))
  }

  lemma {:induction false} ExitsSeeReplyOrError(asynchronous: bool, layers: seq<Layer>, at: nat, inner: Ran)
    requires at <= |layers|
    requires forall i :: 0 <= i < |inner.log| ==> SeesReplyOrError(inner.log[i], inner.outcome)
    ensures var log := With(asynchronous, layers, at, inner).log;
            forall i :: 0 <= i < |log| ==> SeesReplyOrError(log[i], inner.outcome)
    decreases |layers| - at
  {
    if at < |layers| && EnterError(asynchronous, layers[at], at).None? {
      ExitsSeeReplyOrError(asynchronous, layers, at + 1, inner);
      var body := With(asynchronous, layers, at + 1, inner);
      if body.outcome.Returned? {
        NeverSwallows(asynchronous, layers, at + 1, inner, body.outcome.reply);
      }
      var exited := Exited(at, body.outcome.Error(), body.outcome.Reply());
      assert SeesReplyOrError(exited, inner.outcome);
      var log := With(asynchronous, layers, at, inner).log;
      assert log == [Entered(at)] + body.log + [exited];
      forall i | 0 <= i < |log| ensures SeesReplyOrError(log[i], inner.outcome) {
        assert 0 < i < |log| - 1 ==> log[i] == body.log[i - 1];
      }
    }
  }

  // ----- which error comes out -----

  /** Whether a bus enters a layer: it can, nothing raises, and no coroutine is left unawaited. */
  predicate Enters(asynchronous: bool, layer: Layer) {
    && layer.makes.None? && ((asynchronous && layer.isAsync) || layer.isSync)
    && layer.enter.EnterReturns? && (layer.enter.value == Coroutine ==> asynchronous && layer.isAsync)
  }

  /** The error of a layer that is not entered: its own, or what is wrong with it. */
  predicate NotEnteredFor(asynchronous: bool, layer: Layer, at: nat, e: Exc) {
    if layer.makes.Some? then e == layer.makes.value
    else if !(asynchronous && layer.isAsync) && !layer.isSync then e == NotAManager(at)
    else if layer.enter.EnterRaises? then e == layer.enter.error
    else e == CoroutineRefused(at)
  }

  /** An error that an exit may not swallow quietly: any but one that is to stop the program. */
  predicate MustNotVanish(asynchronous: bool, error: Exc, cancelling: bool) {
    !error.Stopping? && (error.Cancelled? ==> asynchronous && !cancelling)
  }

  /**
   * The error that leaving a layer raises of its own: what its exit raised, a refusal of the coroutine
   * that it returned, or a refusal to swallow the very error it was handed.
   */
  function OwnError(asynchronous: bool, layer: Layer, at: nat, body: Outcome): Option<Exc> {
    var error := if body.Raised? then Some(body.error) else None;
    match layer.leave(error, if body.Raised? then None else Some(body.reply))
    case LeaveRaises(raised) => Some(raised)
    case LeaveReturns(Coroutine, cancelling) =>
      if !(asynchronous && layer.isAsync) then Some(CoroutineRefused(at))
      else if error.Some? && MustNotVanish(asynchronous, error.value, cancelling)
      then Some(SwallowRefused(error.value, at))
      else None
    case LeaveReturns(Truthy, cancelling) =>
      if error.Some? && MustNotVanish(asynchronous, error.value, cancelling) then Some(SwallowRefused(error.value, at))
      else None
    case LeaveReturns(Falsy, _) => None
  }

  /** A layer that is entered is left with what its body came to, and its own error, if any, replaces that. */
  lemma EachLeavesForTheNext(asynchronous: bool, layers: seq<Layer>, at: nat, inner: Ran)
    requires at < |layers| && Enters(asynchronous, layers[at])
    ensures var body := With(asynchronous, layers, at + 1, inner);
            var own := OwnError(asynchronous, layers[at], at, body.outcome);
            var error := if body.outcome.Raised? then Some(body.outcome.error) else None;
            var reply := if body.outcome.Raised? then None else Some(body.outcome.reply);
            && With(asynchronous, layers, at, inner).log == [Entered(at)] + body.log + [Exited(at, error, reply)]
            && With(asynchronous, layers, at, inner).outcome == if own.Some? then Raised(own.value) else body.outcome
  {
  }

  /** One that is not stops the call: nothing inside it runs, and what goes out is why it was not entered. */
  lemma NotEnteredGetsOut(asynchronous: bool, layers: seq<Layer>, at: nat, inner: Ran)
    requires at < |layers| && !Enters(asynchronous, layers[at])
    ensures var ran := With(asynchronous, layers, at, inner);
            ran.log == [] && ran.outcome.Raised? && NotEnteredFor(asynchronous, layers[at], at, ran.outcome.error)
  {
  }

  /** Whether a layer is entered, and leaving it raises no error of its own. */
  predicate QuietAt(asynchronous: bool, layers: seq<Layer>, k: nat, inner: Ran) {
    && k < |layers| && Enters(asynchronous, layers[k])
    && OwnError(asynchronous, layers[k], k, With(asynchronous, layers, k + 1, inner).outcome).None?
  }

  /** Whether the layers from `at` up to `n` are all so. */
  predicate AllQuiet(asynchronous: bool, layers: seq<Layer>, at: nat, n: nat, inner: Ran) {
    forall k {:trigger QuietAt(asynchronous, layers, k, inner)} :: at <= k < n ==>
      QuietAt(asynchronous, layers, k, inner)
  }

  /** Layers whose exits raise nothing of their own pass on what comes out of those inside them. */
  lemma {:induction false} QuietPassesOn(asynchronous: bool, layers: seq<Layer>, at: nat, n: nat, inner: Ran)
    requires at <= n <= |layers| && AllQuiet(asynchronous, layers, at, n, inner)
    ensures With(asynchronous, layers, at, inner).outcome == With(asynchronous, layers, n, inner).outcome
    decreases n - at
  {
    if at < n {
      assert QuietAt(asynchronous, layers, at, inner);
      EachLeavesForTheNext(asynchronous, layers, at, inner);
      QuietPassesOn(asynchronous, layers, at + 1, n, inner);
    }
  }

  /**
   * What comes out of layers from `at` on, if the exit of layer `k` raises or refuses and none around it
   * does, is the error of that exit.
   */
  lemma OutermostComesOut(asynchronous: bool, layers: seq<Layer>, at: nat, k: nat, inner: Ran)
    requires at <= k < |layers| && AllQuiet(asynchronous, layers, at, k, inner) && Enters(asynchronous, layers[k])
    requires OwnError(asynchronous, layers[k], k, With(asynchronous, layers, k + 1, inner).outcome).Some?
    ensures var body := With(asynchronous, layers, k + 1, inner).outcome;
            With(asynchronous, layers, at, inner).outcome == Raised(OwnError(asynchronous, layers[k], k, body).value)
  {
    QuietPassesOn(asynchronous, layers, at, k, inner);
    EachLeavesForTheNext(asynchronous, layers, k, inner);
  }

  /** So an error that an exit raises in place of another is what the exits around it see, and what gets out. */
  lemma TranslatedErrorGetsOut(asynchronous: bool, layers: seq<Layer>, inner: Ran, k: nat, e: Exc)
    requires k < |layers| && forall j :: 0 <= j < |layers| ==> Enters(asynchronous, layers[j])
    requires var body := With(asynchronous, layers, k + 1, inner).outcome;
             body.Raised? && layers[k].leave(Some(body.error), None) == LeaveRaises(e)
    requires forall j :: 0 <= j < k ==> layers[j].leave(Some(e), None) == LeaveReturns(Falsy, false)
    ensures With(asynchronous, layers, 0, inner).outcome == Raised(e)
    ensures forall j :: 0 <= j < k ==> Exited(j, Some(e), None) in With(asynchronous, layers, 0, inner).log
  {
    EachLeavesForTheNext(asynchronous, layers, k, inner);
    SeenAround(asynchronous, layers, 0, k, inner, e);
  }

  lemma {:induction false} SeenAround(asynchronous: bool, layers: seq<Layer>, at: nat, k: nat, inner: Ran, e: Exc)
    requires at <= k <= |layers| && forall j :: at <= j < k ==> Enters(asynchronous, layers[j])
    requires With(asynchronous, layers, k, inner).outcome == Raised(e)
    requires forall j :: at <= j < k ==> layers[j].leave(Some(e), None) == LeaveReturns(Falsy, false)
    ensures With(asynchronous, layers, at, inner).outcome == Raised(e)
    ensures forall j :: at <= j < k ==> Exited(j, Some(e), None) in With(asynchronous, layers, at, inner).log
    decreases k - at
  {
    if at < k {
      SeenAround(asynchronous, layers, at + 1, k, inner, e);
      EachLeavesForTheNext(asynchronous, layers, at, inner);
      var body := With(asynchronous, layers, at + 1, inner);
      assert Exited(at, Some(e), None) in [Exited(at, Some(e), None)];
      forall j | at <= j < k ensures Exited(j, Some(e), None) in With(asynchronous, layers, at, inner).log {
        assert j > at ==> Exited(j, Some(e), None) in body.log;
      }
    }
  }

  /** Whether leaving a layer with this error raises no error of the layer's own. */
  predicate RaisesNothingNew(asynchronous: bool, layer: Layer, error: Exc) {
    var left := layer.leave(Some(error), None);
    && left.LeaveReturns? && !Refuses(asynchronous, layer, left.value)
    && (error.Cancelled? && asynchronous ==> left.cancelling)
  }

  /**
   * What stops a program keeps stopping it: an error that is no `Exception` comes out as it went
   * in, whatever the exits return, unless one of them raises or a cancellation was the exit's own.
   */
  lemma {:induction false} StopsStandAsTheyAre(asynchronous: bool, layers: seq<Layer>, at: nat, inner: Ran)
    requires at <= |layers| == Reached(asynchronous, layers, at)
    requires inner.outcome.Raised? && !IsException(inner.outcome.error)
    requires forall i :: at <= i < |layers| ==> RaisesNothingNew(asynchronous, layers[i], inner.outcome.error)
    ensures With(asynchronous, layers, at, inner).outcome == inner.outcome
    decreases |layers| - at
  {
    if at < |layers| && EnterError(asynchronous, layers[at], at).None? {
      StopsStandAsTheyAre(asynchronous, layers, at + 1, inner);
    }
  }

  /** The layers see nothing of what they wrap but its outcome. */
  lemma {:induction false} OutcomeDependsOnOutcome(asynchronous: bool, layers: seq<Layer>, at: nat, a: Ran, b: Ran)
    requires at <= |layers| && a.outcome == b.outcome
    ensures With(asynchronous, layers, at, a).outcome == With(asynchronous, layers, at, b).outcome
    decreases |layers| - at
  {
    if at < |layers| && EnterError(asynchronous, layers[at], at).None? {
      OutcomeDependsOnOutcome(asynchronous, layers, at + 1, a, b);
    }
  }

  // ----- what hooks guarantee -----

  predicate BeforePasses(h: Hooks) {
    forall i :: 0 <= i < |h.before| ==> h.before[i] == HookReturns
  }

  lemma {:induction false} BeforeStops(before: seq<HookResult>, at: nat)
    requires at <= |before|
    ensures RunBefore(before, at).stopped.None? <==> forall i :: at <= i < |before| ==> before[i] == HookReturns
    ensures RunBefore(before, at).stopped.None? ==>
              RunBefore(before, at).log == seq(|before| - at, i requires 0 <= i => HookRan(Before, at + i))
    decreases |before| - at
  {
    if at < |before| {
      BeforeStops(before, at + 1);
    }
  }

  function Results(hooks: seq<Outcome -> HookResult>, o: Outcome): seq<HookResult> {
    seq(|hooks|, i requires 0 <= i < |hooks| => hooks[i](o))
  }

  /** The observing hooks that apply to an outcome, in order: `success` or `failure`, then `complete`. */
  function Observers(h: Hooks, o: Outcome): seq<HookResult> {
    (if o.Returned? then Results(h.success, o) else if IsException(o.error) then Results(h.failure, o) else [])
    + Results(h.complete, o)
  }

  /** The first error that is no `Exception`. */
  function FirstStop(results: seq<HookResult>): Option<Exc> {
    if results == [] then None
    else if results[0].HookRaises? && !IsException(results[0].error) then Some(results[0].error)
    else FirstStop(results[1..])
  }

  lemma FirstStopAppend(a: seq<HookResult>, b: seq<HookResult>)
    ensures FirstStop(a + b) == if FirstStop(a).Some? then FirstStop(a) else FirstStop(b)
  {
    if a == [] {
      assert a + b == b;
    } else {
      assert (a + b)[1..] == a[1..] + b;
      FirstStopAppend(a[1..], b);
    }
  }

  lemma {:induction false} ObserveStops(slot: Slot, hooks: seq<Outcome -> HookResult>, at: nat, o: Outcome)
    requires at <= |hooks|
    ensures Observe(slot, hooks, at, o).stopped == FirstStop(Results(hooks, o)[at..])
    ensures Observe(slot, hooks, at, o).stopped.None? ==>
              Observe(slot, hooks, at, o).log == seq(|hooks| - at, i requires 0 <= i => HookRan(slot, at + i))
    decreases |hooks| - at
  {
    if at < |hooks| {
      ObserveStops(slot, hooks, at + 1, o);
      assert Results(hooks, o)[at..][1..] == Results(hooks, o)[at + 1..];
    }
  }

  /**
   * Once the `before` hooks pass, hooks only observe: the call's outcome stands exactly when no
   * observing hook raises anything but an `Exception`, or the first to do so raises the call's own
   * error. Otherwise what that hook raised gets out.
   */
  lemma HooksOnlyObserve(h: Hooks, call: Outcome)
    requires BeforePasses(h)
    ensures var stop := FirstStop(Observers(h, call));
            && Hooked(Some(h), call).outcome == (if stop.None? then call else Raised(stop.value))
            && (Hooked(Some(h), call).outcome == call <==> stop.None? || call == Raised(stop.value))
  {
    BeforeStops(h.before, 0);
    AfterCallStops(h, call);
  }

  /** Such a hook: one that raises what stops a program, after a call that returned. */
  lemma StopGetsOut(reply: Reply, id: nat)
    ensures var h := Hooks([], [(o: Outcome) => HookRaises(Stopping(id))], [], []);
            BeforePasses(h) && Hooked(Some(h), Returned(reply)).outcome == Raised(Stopping(id))
  {
    var h := Hooks([], [(o: Outcome) => HookRaises(Stopping(id))], [], []);
    assert RunBefore(h.before, 0) == Observed([], None);
    assert Observe(Success, h.success, 0, Returned(reply)).stopped == Some(Stopping(id));
  }

  lemma AfterCallStops(h: Hooks, call: Outcome)
    ensures var stop := FirstStop(Observers(h, call));
            AfterCall(h, call).outcome == if stop.None? then call else Raised(stop.value)
  {
    var middle := if call.Returned? then Results(h.success, call)
    else if IsException(call.error) then Results(h.failure, call) else [];
    if call.Returned? {
      ObserveStops(Success, h.success, 0, call);
    } else if IsException(call.error) {
      ObserveStops(Failure, h.failure, 0, call);
    }
    ObserveStops(Complete, h.complete, 0, call);
    FirstStopAppend(middle, Results(h.complete, call));
    assert middle[0..] == middle && Results(h.complete, call)[0..] == Results(h.complete, call);
  }

  /** A `before` hook that fails stops the call: it is not made, and the hook's error gets out. */
  lemma FailedBeforeStopsCall(h: Hooks, call: Outcome)
    requires !BeforePasses(h)
    ensures Hooked(Some(h), call).outcome.Raised? && Called !in Hooked(Some(h), call).log
    ensures exists i :: 0 <= i < |h.before| && FailsWith(h.before[i], i, Hooked(Some(h), call).outcome.error)
                     && forall j :: 0 <= j < i ==> h.before[j] == HookReturns
  {
    BeforeStops(h.before, 0);
    BeforeFails(h.before, 0);
    var i :| 0 <= i < |h.before| && h.before[i] != HookReturns
             && RunBefore(h.before, 0).stopped == HookError(h.before[i], i)
             && forall j :: 0 <= j < i ==> h.before[j] == HookReturns;
    assert FailsWith(h.before[i], i, Hooked(Some(h), call).outcome.error);
  }

  /** A hook fails with the error it raises, or, if it returns an awaitable that nobody awaits, with a refusal. */
  predicate FailsWith(result: HookResult, at: nat, e: Exc) {
    match result
    case HookReturns => false
    case HookReturnsAwaitable => e == AwaitableRefused(at)
    case HookRaises(raised) => e == raised
  }

  lemma {:induction false} BeforeFails(before: seq<HookResult>, at: nat)
    requires at <= |before| && RunBefore(before, at).stopped.Some?
    ensures Called !in RunBefore(before, at).log
    ensures exists i :: at <= i < |before| && before[i] != HookReturns
                     && RunBefore(before, at).stopped == HookError(before[i], i)
                     && forall j :: at <= j < i ==> before[j] == HookReturns
    decreases |before| - at
  {
    if HookError(before[at], at).None? {
      BeforeFails(before, at + 1);
      var i :| at + 1 <= i < |before| && before[i] != HookReturns
               && RunBefore(before, at + 1).stopped == HookError(before[i], i)
               && forall j :: at + 1 <= j < i ==> before[j] == HookReturns;
      assert before[i] != HookReturns && forall j :: at <= j < i ==> before[j] == HookReturns;
    }
  }

  function AllRan(slot: Slot, n: nat): seq<Event> {
    seq(n, i requires 0 <= i => HookRan(slot, i))
  }

  /** If hooks raise only `Exception`s, every hook of every slot that applies runs, once and in order. */
  lemma EveryHookRuns(h: Hooks, call: Outcome)
    requires BeforePasses(h) && FirstStop(Observers(h, call)).None?
    ensures Hooked(Some(h), call).log ==
            AllRan(Before, |h.before|) + [Called]
            + ((if call.Returned? then AllRan(Success, |h.success|)
                else if IsException(call.error) then AllRan(Failure, |h.failure|)
                else [])
               + AllRan(Complete, |h.complete|))
  {
    BeforeStops(h.before, 0);
    var middle := if call.Returned? then Results(h.success, call)
    else if IsException(call.error) then Results(h.failure, call) else [];
    FirstStopAppend(middle, Results(h.complete, call));
    assert middle[0..] == middle && Results(h.complete, call)[0..] == Results(h.complete, call);
    if call.Returned? {
      ObserveStops(Success, h.success, 0, call);
      assert Observe(Success, h.success, 0, call).log == AllRan(Success, |h.success|);
    } else if IsException(call.error) {
      ObserveStops(Failure, h.failure, 0, call);
      assert Observe(Failure, h.failure, 0, call).log == AllRan(Failure, |h.failure|);
    }
    ObserveStops(Complete, h.complete, 0, call);
    assert Observe(Complete, h.complete, 0, call).log == AllRan(Complete, |h.complete|);
    assert RunBefore(h.before, 0).log == AllRan(Before, |h.before|);
  }

  /**
   * Middleware around hooks around a call ends as the same middleware around the bare call, once
   * the `before` hooks pass and the observing hooks raise only `Exception`s.
   */
  lemma HooksLeaveOutcome(asynchronous: bool, layers: seq<Layer>, h: Hooks, call: Outcome)
    requires BeforePasses(h) && FirstStop(Observers(h, call)).None?
    ensures With(asynchronous, layers, 0, Hooked(Some(h), call)).outcome ==
            With(asynchronous, layers, 0, Hooked(None, call)).outcome
  {
    HooksOnlyObserve(h, call);
    OutcomeDependsOnOutcome(asynchronous, layers, 0, Hooked(Some(h), call), Hooked(None, call));
  }
}
