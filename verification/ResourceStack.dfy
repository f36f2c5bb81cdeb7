/**
 * Closing the resources entered in an activation, last entered first, against nested `with`
 * statements (section 8.5 of the Python Language Reference).
 */
module ResourceStack {
  import opened Options
  import opened Sequences

  /** An exception, known by its identity; `ordinary` is whether it is an `Exception`. */
  datatype Exc = Exc(id: nat, ordinary: bool)

  /** What an exit does with the exception it is handed, if any. */
  datatype ExitResult = Suppresses | Declines | Raises(exc: Exc)

  type Exit = Option<Exc> -> ExitResult

  /** An entered resource, and whether its exit is awaited. */
  datatype Resource = Resource(id: nat, asynchronous: bool, exit: Exit)

  /** One exit that was made: of which resource, the exception it was handed, and if it was awaited. */
  datatype ExitCall = ExitCall(id: nat, handed: Option<Exc>, awaited: bool)

  /** How a close ends: it returns whether it suppressed, re-raises one exception, or raises a group. */
  datatype Closing =
    | Returned(suppressed: bool)
    | RaisedOne(exc: Exc)
    | RaisedGroup(excs: seq<Exc>, base: bool)

  /** The exception in flight after an exit. */
  function Outcome(exit: Exit, exc: Option<Exc>): Option<Exc> {
    match exit(exc)
    case Suppresses => None
    case Declines => exc
    case Raises(new_) => Some(new_)
  }

  // ----- nested with, the reference -----

  /**
   * What nested `with` statements, the last resource innermost, leave in flight when `exc` leaves
   * the body.
   */
  function NestedWith(resources: seq<Resource>, exc: Option<Exc>): Option<Exc> {
    if resources == [] then exc
    else NestedWith(resources[..|resources| - 1], Outcome(resources[|resources| - 1].exit, exc))
  }

  /** Every exception in flight on the way out, from what leaves the body to what leaves the outermost. */
  function InFlight(resources: seq<Resource>, exc: Option<Exc>): seq<Option<Exc>> {
    if resources == [] then [exc]
    else [exc] + InFlight(resources[..|resources| - 1], Outcome(resources[|resources| - 1].exit, exc))
  }

  /** The exits nested `with`, or `async with` where it can be awaited, makes, in order. */
  function Exits(resources: seq<Resource>, exc: Option<Exc>, awaiting: bool): seq<ExitCall> {
    if resources == [] then []
    else
      var last := resources[|resources| - 1];
      [ExitCall(last.id, exc, awaiting && last.asynchronous)]
      + Exits(resources[..|resources| - 1], Outcome(last.exit, exc), awaiting)
  }

  // ----- what close reports, stated over what was in flight -----

  /** The exceptions in flight since the last suppression. */
  function SinceSuppression(seen: seq<Option<Exc>>): seq<Exc> {
    if seen == [] then []
    else
      var last := seen[|seen| - 1];
      if last.None? then [] else SinceSuppression(seen[..|seen| - 1]) + [last.value]
  }

  /** The first appearance of each element. */
  function Distinct(s: seq<Exc>): seq<Exc> {
    if s == [] then []
    else
      var before := Distinct(s[..|s| - 1]);
      if s[|s| - 1] in before then before else before + [s[|s| - 1]]
  }

  predicate AllOrdinary(s: seq<Exc>) {
    forall e :: e in s ==> e.ordinary
  }

  /** Whether some exit changed the exception in flight. */
  predicate Changed(seen: seq<Option<Exc>>) {
    exists i :: 0 <= i < |seen| - 1 && seen[i] != seen[i + 1]
  }

  /** How a close must end, given all that was in flight. */
  function Report(seen: seq<Option<Exc>>): Closing
    requires seen != []
  {
    if !Changed(seen) then Returned(false)
    else
      var pending := Distinct(SinceSuppression(seen));
      if pending == [] then Returned(seen[0].Some?)
      else if |pending| == 1 then RaisedOne(pending[0])
      else RaisedGroup(Reversed(pending), !AllOrdinary(pending))
  }

  // ----- the code -----

  /** Record an outcome that differs from what the exit was handed; a suppression clears the list. */
  function Record(pending: Option<seq<Exc>>, current: Option<Exc>, outcome: Option<Exc>): seq<Exc> {
    if outcome.None? then []
    else if pending.None? then if current.None? then [outcome.value] else [current.value, outcome.value]
    else if outcome.value in pending.value then pending.value
    else pending.value + [outcome.value]
  }

  method Reverse(s: seq<Exc>) returns (r: seq<Exc>)
    ensures r == Reversed(s)
  {
    r := [];
    for i := 0 to |s|
      invariant r == Reversed(s[..i])
    {
      assert s[..i + 1][..i] == s[..i];
      r := [s[i]] + r;
    }
    assert s[..|s|] == s;
  }

  /** The exceptions that are `Exception`s, in order. */
  function Ordinary(s: seq<Exc>): seq<Exc> {
    if s == [] then []
    else Ordinary(s[..|s| - 1]) + if s[|s| - 1].ordinary then [s[|s| - 1]] else []
  }

  lemma {:induction false} OrdinaryCounts(s: seq<Exc>)
    ensures |Ordinary(s)| <= |s|
    ensures |Ordinary(s)| == |s| <==> AllOrdinary(s)
    ensures AllOrdinary(s) ==> Ordinary(s) == s
  {
    if s != [] {
      OrdinaryCounts(s[..|s| - 1]);
      assert s == s[..|s| - 1] + [s[|s| - 1]];
      assert AllOrdinary(s) <==> AllOrdinary(s[..|s| - 1]) && s[|s| - 1].ordinary;
    }
  }

  lemma {:induction false} ReversedKeeps(s: seq<Exc>)
    ensures |Reversed(s)| == |s| && multiset(Reversed(s)) == multiset(s)
    ensures forall e :: e in Reversed(s) <==> e in s
    ensures AllOrdinary(Reversed(s)) == AllOrdinary(s)
  {
    if s != [] {
      ReversedKeeps(s[..|s| - 1]);
      assert s == s[..|s| - 1] + [s[|s| - 1]];
    }
  }

  /** Finish a close in which some exit raised or suppressed. */
  method Settle(pending: seq<Exc>, received: Option<Exc>) returns (r: Closing)
    ensures pending == [] ==> r == Returned(received.Some?)
    ensures |pending| == 1 ==> r == RaisedOne(pending[0])
    ensures |pending| > 1 ==> r == RaisedGroup(Reversed(pending), !AllOrdinary(pending))
  {
    if pending == [] {
      return Returned(received.Some?);
    }
    if |pending| == 1 {
      return RaisedOne(pending[0]);
    }
    var failures := Reverse(pending);
    var errors: seq<Exc> := [];
    for i := 0 to |failures|
      invariant errors == Ordinary(failures[..i])
    {
      assert failures[..i + 1][..i] == failures[..i];
      if failures[i].ordinary {
        errors := errors + [failures[i]];
      }
    }
    assert failures[..|failures|] == failures;
    OrdinaryCounts(failures);
    ReversedKeeps(pending);
    if |errors| < |failures| {
      return RaisedGroup(failures, true);
    }
    return RaisedGroup(errors, false);
  }

  lemma {:induction false} DistinctMeans(s: seq<Exc>)
    ensures forall e :: e in Distinct(s) <==> e in s
    ensures forall i, j :: 0 <= i < j < |Distinct(s)| ==> Distinct(s)[i] != Distinct(s)[j]
    ensures |Distinct(s)| <= |s| && (s != [] ==> Distinct(s) != [])
  {
    if s != [] {
      DistinctMeans(s[..|s| - 1]);
      assert s == s[..|s| - 1] + [s[|s| - 1]];
    }
  }

  /** Distinct elements come in the order in which they first appear. */
  lemma {:induction false} DistinctGrows(s: seq<Exc>, k: nat)
    requires k <= |s|
    ensures Distinct(s[..k]) <= Distinct(s)
    decreases |s|
  {
    if k == |s| {
      assert s[..k] == s;
    } else {
      DistinctGrows(s[..|s| - 1], k);
      assert s[..|s| - 1][..k] == s[..k];
    }
  }

  lemma {:induction false} ChangedAppend(seen: seq<Option<Exc>>, outcome: Option<Exc>)
    requires seen != []
    ensures Changed(seen + [outcome]) <==> Changed(seen) || seen[|seen| - 1] != outcome
  {
    var next, n := seen + [outcome], |seen|;
    if Changed(seen) {
      var i :| 0 <= i < n - 1 && seen[i] != seen[i + 1];
      assert next[i] != next[i + 1];
    }
    assert next[n - 1] == seen[n - 1] && next[n] == outcome;
  }

  /** While nothing has changed, one exception has been in flight all along. */
  lemma {:induction false} UnchangedReport(seen: seq<Option<Exc>>)
    requires seen != [] && !Changed(seen)
    ensures var last := seen[|seen| - 1];
            Distinct(SinceSuppression(seen)) == if last.None? then [] else [last.value]
  {
    var n := |seen| - 1;
    if n > 0 {
      var before := seen[..n];
      assert seen == before + [seen[n]];
      ChangedAppend(before, seen[n]);
      UnchangedReport(before);
      if seen[n].Some? {
        var older := SinceSuppression(before);
        assert (older + [seen[n].value])[..|older|] == older;
      }
    } else {
      assert SinceSuppression(seen[..0]) == [];
      if seen[0].Some? {
        assert ([seen[0].value])[..0] == [];
        assert Distinct([seen[0].value]) == [seen[0].value];
      }
    }
  }

  lemma {:induction false} SinceMore(seen: seq<Option<Exc>>, e: Exc)
    ensures SinceSuppression(seen + [Some(e)]) == SinceSuppression(seen) + [e]
  {
    assert (seen + [Some(e)])[..|seen|] == seen;
  }

  lemma {:induction false} SinceCleared(seen: seq<Option<Exc>>)
    ensures SinceSuppression(seen + [None]) == []
  {
  }

  lemma {:induction false} DistinctMore(s: seq<Exc>, e: Exc)
    ensures Distinct(s + [e]) == Distinct(s) + if e in s then [] else [e]
  {
    assert (s + [e])[..|s|] == s;
    DistinctMeans(s);
  }

  lemma {:induction false} SinceAppend(seen: seq<Option<Exc>>, outcome: Option<Exc>)
    ensures Distinct(SinceSuppression(seen + [outcome])) ==
            if outcome.None? then []
            else
              Distinct(SinceSuppression(seen))
              + if outcome.value in SinceSuppression(seen) then [] else [outcome.value]
  {
    if outcome.Some? {
      SinceMore(seen, outcome.value);
      DistinctMore(SinceSuppression(seen), outcome.value);
    } else {
      SinceCleared(seen);
    }
  }

  /** What is in flight last is in the list since the last suppression, which is empty if nothing is. */
  lemma {:induction false} LastIsSince(seen: seq<Option<Exc>>)
    requires seen != []
    ensures var last := seen[|seen| - 1];
            if last.Some? then last.value in SinceSuppression(seen) else SinceSuppression(seen) == []
  {
  }

  lemma {:induction false} FirstChange(seen: seq<Option<Exc>>, exc: Option<Exc>, outcome: Option<Exc>)
    requires Distinct(SinceSuppression(seen)) == (if exc.None? then [] else [exc.value]) && outcome != exc
    ensures Record(None, exc, outcome) == Distinct(SinceSuppression(seen + [outcome]))
  {
    SinceAppend(seen, outcome);
    if outcome.Some? {
      var since := SinceSuppression(seen);
      DistinctMeans(since);
      assert outcome.value in since <==> outcome.value in Distinct(since);
      if exc.None? {
        assert Record(None, exc, outcome) == [outcome.value];
      } else {
        assert Record(None, exc, outcome) == [exc.value, outcome.value];
      }
    }
  }

  lemma {:induction false} LaterOutcome(seen: seq<Option<Exc>>, outcome: Option<Exc>)
    requires seen != []
    ensures var pending := Distinct(SinceSuppression(seen));
            Distinct(SinceSuppression(seen + [outcome])) ==
              if outcome == seen[|seen| - 1] then pending else Record(Some(pending), seen[|seen| - 1], outcome)
  {
    SinceAppend(seen, outcome);
    DistinctMeans(SinceSuppression(seen));
    LastIsSince(seen);
  }

  /** A pending list as the code keeps it: none until something changes, then what a close would report. */
  predicate Recorded(seen: seq<Option<Exc>>, pending: Option<seq<Exc>>) {
    && (pending.None? <==> !Changed(seen))
    && (pending.Some? ==> pending.value == Distinct(SinceSuppression(seen)))
  }

  /** The pending list after an outcome. */
  function Recording(pending: Option<seq<Exc>>, exc: Option<Exc>, outcome: Option<Exc>): Option<seq<Exc>> {
    if outcome != exc then Some(Record(pending, exc, outcome)) else pending
  }

  /** One more outcome keeps the pending list the distinct exceptions since the last suppression. */
  lemma {:induction false} RecordIsReport(
    seen: seq<Option<Exc>>, pending: Option<seq<Exc>>, exc: Option<Exc>, outcome: Option<Exc>
  )
    requires seen != [] && seen[|seen| - 1] == exc && Recorded(seen, pending)
    ensures Recorded(seen + [outcome], Recording(pending, exc, outcome))
  {
    ChangedAppend(seen, outcome);
    if pending.Some? {
      LaterOutcome(seen, outcome);
    } else if outcome != exc {
      UnchangedReport(seen);
      FirstChange(seen, exc, outcome);
    }
  }

  /** Exiting the last resource moves one exception from what is to come to what was seen. */
  lemma {:induction false} SeenStep(seen: seq<Option<Exc>>, items: seq<Resource>, exc: Option<Exc>, awaiting: bool)
    requires seen != [] && seen[|seen| - 1] == exc && items != []
    ensures var n := |items| - 1;
            var outcome := Outcome(items[n].exit, exc);
            var next := seen + [outcome];
            && next[..|next| - 1] + InFlight(items[..n], outcome) == seen[..|seen| - 1] + InFlight(items, exc)
            && Exits(items, exc, awaiting) ==
                 [ExitCall(items[n].id, exc, awaiting && items[n].asynchronous)] + Exits(items[..n], outcome, awaiting)
  {
    var n := |items| - 1;
    var outcome := Outcome(items[n].exit, exc);
    var next, rest := seen + [outcome], InFlight(items[..n], outcome);
    assert next[..|next| - 1] == seen == seen[..|seen| - 1] + [exc];
    assert InFlight(items, exc) == [exc] + rest;
    assert seen[..|seen| - 1] + ([exc] + rest) == seen + rest;
  }

  /** A close of `all` part-way through: the exits made so far, and the exceptions seen so far. */
  datatype Progress = Progress(
    all: seq<Resource>,
    received: Option<Exc>,
    awaiting: bool,
    made: seq<ExitCall>,
    seen: seq<Option<Exc>>
  )

  /** `items` are left to exit, and `exc` is in flight. */
  predicate Tracked(p: Progress, items: seq<Resource>, exc: Option<Exc>) {
    && p.seen != [] && p.seen[0] == p.received && p.seen[|p.seen| - 1] == exc
    && p.seen[..|p.seen| - 1] + InFlight(items, exc) == InFlight(p.all, p.received)
    && p.made + Exits(items, exc, p.awaiting) == Exits(p.all, p.received, p.awaiting)
  }

  /** And `pending` is what a close would report. */
  predicate Underway(p: Progress, items: seq<Resource>, exc: Option<Exc>, pending: Option<seq<Exc>>) {
    Tracked(p, items, exc) && Recorded(p.seen, pending)
  }

  function After(p: Progress, items: seq<Resource>, exc: Option<Exc>): Progress
    requires items != []
  {
    var last := items[|items| - 1];
    p.(made := p.made + [ExitCall(last.id, exc, p.awaiting && last.asynchronous)],
       seen := p.seen + [Outcome(last.exit, exc)])
  }

  lemma {:induction false} StartsUnderway(p: Progress, items: seq<Resource>)
    requires p.all == items && p.made == [] && p.seen == [p.received]
    ensures Underway(p, items, p.received, None)
  {
    assert [p.received][..0] == [];
  }

  lemma {:induction false} ExitKeepsTracked(p: Progress, items: seq<Resource>, exc: Option<Exc>)
    requires Tracked(p, items, exc) && items != []
    ensures Tracked(After(p, items, exc), items[..|items| - 1], Outcome(items[|items| - 1].exit, exc))
  {
    var last := items[|items| - 1];
    var outcome := Outcome(last.exit, exc);
    var call := ExitCall(last.id, exc, p.awaiting && last.asynchronous);
    SeenStep(p.seen, items, exc, p.awaiting);
    var rest := Exits(items[..|items| - 1], outcome, p.awaiting);
    assert (p.made + [call]) + rest == p.made + ([call] + rest);
  }

  lemma {:induction false} ExitKeepsUnderway(
    p: Progress, items: seq<Resource>, exc: Option<Exc>, pending: Option<seq<Exc>>
  )
    requires Underway(p, items, exc, pending) && items != []
    ensures var outcome := Outcome(items[|items| - 1].exit, exc);
            Underway(After(p, items, exc), items[..|items| - 1], outcome, Recording(pending, exc, outcome))
  {
    ExitKeepsTracked(p, items, exc);
    RecordIsReport(p.seen, pending, exc, Outcome(items[|items| - 1].exit, exc));
  }

  lemma {:induction false} UnderwayEnds(p: Progress, exc: Option<Exc>, pending: Option<seq<Exc>>)
    requires Underway(p, [], exc, pending)
    ensures p.made == Exits(p.all, p.received, p.awaiting)
    ensures var seen := InFlight(p.all, p.received);
            seen != [] && seen[0] == p.received && Recorded(seen, pending)
  {
    assert p.made + [] == p.made;
    assert p.seen == p.seen[..|p.seen| - 1] + [exc];
  }

  /** The entered resources of one activation, closed in place, and the exits made so far. */
  class Contexts {
    var items: seq<Resource>
    var exits: seq<ExitCall>

    constructor ()
      ensures items == [] && exits == []
    {
      items, exits := [], [];
    }

    /** Exit the last resource with the exception in flight, giving what is in flight after it. */
    method ExitLast(exc: Option<Exc>, awaiting: bool) returns (outcome: Option<Exc>)
      requires items != []
      modifies this
      ensures var last := old(items)[|old(items)| - 1];
              && items == old(items)[..|old(items)| - 1]
              && exits == old(exits) + [ExitCall(last.id, exc, awaiting && last.asynchronous)]
              && outcome == Outcome(last.exit, exc)
    {
      var ctx := items[|items| - 1];
      items := items[..|items| - 1];
      exits := exits + [ExitCall(ctx.id, exc, awaiting && ctx.asynchronous)];
      match ctx.exit(exc)
      case Raises(raised) => outcome := Some(raised);
      case Suppresses => outcome := None;
      case Declines => outcome := exc;
    }

    /** Exit the last resource and record its outcome, if it changed what is in flight. */
    method ExitAndRecord(exc: Option<Exc>, pending: Option<seq<Exc>>, awaiting: bool, ghost p: Progress)
      returns (outcome: Option<Exc>, recorded: Option<seq<Exc>>, ghost q: Progress)
      requires items != [] && Underway(p, items, exc, pending) && p.awaiting == awaiting
      modifies this
      ensures items == old(items)[..|old(items)| - 1] && Underway(q, items, outcome, recorded)
      ensures q.all == p.all && q.received == p.received && q.awaiting == p.awaiting
      ensures exists call :: q.made == p.made + [call] && exits == old(exits) + [call]
    {
      ExitKeepsUnderway(p, items, exc, pending);
      q := After(p, items, exc);
      outcome := ExitLast(exc, awaiting);
      recorded := pending;
      if outcome != exc {
        recorded := Some(Record(pending, exc, outcome));
      }
    }

    /**
     * Exit every resource, last entered first, starting from the caller's exception. It makes the
     * exits nested `with` makes, each once, even when exits raise, and reports what was in flight.
     * `awaiting` tells the async close, which awaits async exits, from the sync one.
     */
    method Close(received: Option<Exc>, awaiting: bool) returns (r: Closing)
      modifies this
      ensures items == []
      ensures exits == old(exits) + Exits(old(items), received, awaiting)
      ensures r == Report(InFlight(old(items), received))
    {
      var exc := received;
      var pending: Option<seq<Exc>> := None;
      ghost var p := Progress(items, received, awaiting, [], [received]);
      StartsUnderway(p, items);
      while items != []
        invariant Underway(p, items, exc, pending)
        invariant p.all == old(items) && p.received == received && p.awaiting == awaiting
        invariant exits == old(exits) + p.made
        decreases |items|
      {
        exc, pending, p := ExitAndRecord(exc, pending, awaiting, p);
      }
      UnderwayEnds(p, exc, pending);
      if pending.None? {
        return Returned(false);
      }
      r := Settle(pending.value, received);
    }
  }

  // ----- what the exits' own answers make of the exception -----

  /** What is in flight after an exit that was handed one exception, or none, and answered so. */
  predicate Follows(answer: ExitResult, handed: Option<Exc>, after: Option<Exc>) {
    match answer
    case Suppresses => after.None?
    case Declines => after == handed
    case Raises(e) => after == Some(e)
  }

  /** The answer of the `i`-th exit, which is that of the `i`-th last resource, to what it is handed. */
  function Answer(resources: seq<Resource>, seen: seq<Option<Exc>>, i: nat): ExitResult
    requires i < |resources| && |seen| == |resources| + 1
  {
    resources[|resources| - 1 - i].exit(seen[i])
  }

  /**
   * The first exit is handed what leaves the body, and each other what the one before it left: none
   * after one that suppressed, the same after one that declined, and its own error after one that raised.
   */
  lemma {:induction false} EachLeavesForTheNext(resources: seq<Resource>, received: Option<Exc>)
    ensures var seen := InFlight(resources, received);
            && |seen| == |resources| + 1 && seen[0] == received
            && (forall i :: 0 <= i < |resources| ==> Follows(Answer(resources, seen, i), seen[i], seen[i + 1]))
            && NestedWith(resources, received) == seen[|resources|]
  {
    LastInFlight(resources, received);
    if resources != [] {
      var n := |resources| - 1;
      var outcome := Outcome(resources[n].exit, received);
      EachLeavesForTheNext(resources[..n], outcome);
      var seen, rest := InFlight(resources, received), InFlight(resources[..n], outcome);
      forall i | 0 <= i < |resources| ensures Follows(Answer(resources, seen, i), seen[i], seen[i + 1]) {
        if i > 0 {
          assert Follows(Answer(resources[..n], rest, i - 1), rest[i - 1], rest[i]);
        }
      }
    }
  }

  /** An exit suppressed what it was handed, and none after it raised. */
  ghost predicate SuppressedFrom(resources: seq<Resource>, seen: seq<Option<Exc>>, i: nat)
    requires |seen| == |resources| + 1
  {
    && i < |resources| && seen[i].Some? && Answer(resources, seen, i).Suppresses?
    && forall j :: i < j < |resources| ==> !Answer(resources, seen, j).Raises?
  }

  lemma {:induction false} StaysNone(resources: seq<Resource>, seen: seq<Option<Exc>>, i: nat, k: nat)
    requires |seen| == |resources| + 1 && SuppressedFrom(resources, seen, i) && i < k <= |resources|
    requires forall j :: 0 <= j < |resources| ==> Follows(Answer(resources, seen, j), seen[j], seen[j + 1])
    ensures seen[k].None?
  {
    assert Follows(Answer(resources, seen, k - 1), seen[k - 1], seen[k - 1 + 1]);
    if k > i + 1 {
      StaysNone(resources, seen, i, k - 1);
    }
  }

  /** If none is in flight at last although one was, some exit suppressed it, and none after that raised. */
  lemma {:induction false} SomeSuppressed(resources: seq<Resource>, seen: seq<Option<Exc>>, k: nat) returns (i: nat)
    requires |seen| == |resources| + 1 && k <= |resources| && seen[0].Some? && seen[k].None?
    requires forall j :: 0 <= j < |resources| ==> Follows(Answer(resources, seen, j), seen[j], seen[j + 1])
    ensures i < k && seen[i].Some? && Answer(resources, seen, i).Suppresses?
    ensures forall j :: i < j < k ==> !Answer(resources, seen, j).Raises?
  {
    assert Follows(Answer(resources, seen, k - 1), seen[k - 1], seen[k - 1 + 1]);
    if seen[k - 1].Some? {
      i := k - 1;
    } else {
      i := SomeSuppressed(resources, seen, k - 1);
    }
  }

  /**
   * A close returns true exactly if an exception was received, some exit suppressed what it was handed,
   * and none after it raised.
   */
  lemma ReturnsTrueExactly(resources: seq<Resource>, received: Option<Exc>)
    ensures var seen := InFlight(resources, received);
            && |seen| == |resources| + 1
            && (Report(seen) == Returned(true) <==> received.Some? && exists i :: SuppressedFrom(resources, seen, i))
  {
    var seen := InFlight(resources, received);
    EachLeavesForTheNext(resources, received);
    CloseReturns(resources, received);
    if received.Some? && seen[|resources|].None? {
      var i := SomeSuppressed(resources, seen, |resources|);
      assert SuppressedFrom(resources, seen, i);
    }
    if i :| SuppressedFrom(resources, seen, i) {
      StaysNone(resources, seen, i, |resources|);
    }
  }

  // ----- close against nested with -----

  lemma {:induction false} LastInFlight(resources: seq<Resource>, exc: Option<Exc>)
    ensures var seen := InFlight(resources, exc);
            && |seen| == |resources| + 1 && seen[0] == exc
            && seen[|seen| - 1] == NestedWith(resources, exc)
  {
    if resources != [] {
      LastInFlight(resources[..|resources| - 1], Outcome(resources[|resources| - 1].exit, exc));
    }
  }

  /** The exceptions a close raises, in the order it raises them. */
  function Raised(r: Closing): seq<Exc> {
    match r
    case Returned(_) => []
    case RaisedOne(e) => [e]
    case RaisedGroup(es, _) => es
  }

  /**
   * A close returns exactly when no exit changed the exception, or nested `with` would end with
   * none; it returns true exactly when a received exception ends suppressed.
   */
  lemma CloseReturns(resources: seq<Resource>, received: Option<Exc>)
    ensures var r := Report(InFlight(resources, received));
            && (r.Returned? <==> !Changed(InFlight(resources, received)) || NestedWith(resources, received).None?)
            && (r == Returned(true) <==> received.Some? && NestedWith(resources, received).None?)
  {
    var seen := InFlight(resources, received);
    LastInFlight(resources, received);
    LastIsSince(seen);
    DistinctMeans(SinceSuppression(seen));
    if !Changed(seen) {
      SameThroughout(seen, |seen| - 1);
    }
  }

  lemma {:induction false} SameThroughout(seen: seq<Option<Exc>>, i: nat)
    requires i < |seen| && !Changed(seen)
    ensures seen[i] == seen[0]
  {
    if i > 0 {
      SameThroughout(seen, i - 1);
      assert seen[i - 1] == seen[i];
    }
  }

  lemma ReportRaises(seen: seq<Option<Exc>>)
    requires seen != [] && !Report(seen).Returned?
    ensures var r := Report(seen);
            var pending := Distinct(SinceSuppression(seen));
            && pending != [] && Raised(r) == Reversed(pending)
            && (r.RaisedGroup? ==> |r.excs| > 1 && (r.base <==> !AllOrdinary(r.excs)))
  {
    var pending := Distinct(SinceSuppression(seen));
    ReversedKeeps(pending);
    if |pending| == 1 {
      assert Reversed(pending[..0]) == [];
    }
  }

  /**
   * When a close raises, it raises each exception in flight since the last suppression once, in
   * reverse order of first appearance, and always the one nested `with` would end with. A group
   * is a base group exactly when some member is not an ordinary exception.
   */
  lemma CloseRaises(resources: seq<Resource>, received: Option<Exc>)
    requires !Report(InFlight(resources, received)).Returned?
    ensures var seen := InFlight(resources, received);
            var r := Report(seen);
            && NestedWith(resources, received).Some?
            && NestedWith(resources, received).value in Raised(r)
            && Raised(r) == Reversed(Distinct(SinceSuppression(seen)))
            && (forall e :: e in Raised(r) <==> e in SinceSuppression(seen))
            && (r.RaisedGroup? ==> |r.excs| > 1 && (r.base <==> !AllOrdinary(r.excs)))
  {
    var seen := InFlight(resources, received);
    var since := SinceSuppression(seen);
    ReportRaises(seen);
    LastInFlight(resources, received);
    LastIsSince(seen);
    RaisesAll(since);
    assert since != [] by {
      DistinctMeans(since);
    }
  }

  lemma RaisesAll(since: seq<Exc>)
    ensures forall e :: e in Reversed(Distinct(since)) <==> e in since
  {
    DistinctMeans(since);
    ReversedKeeps(Distinct(since));
  }

  /** Not quite nested `with`: an original raised again after a replacement still makes a group. */
  lemma {:induction false} OriginalRaisedAgain(e: Exc, f: Exc, outer: Resource, inner: Resource)
    requires e != f && inner.exit(Some(e)) == Raises(f) && outer.exit(Some(f)) == Raises(e)
    ensures NestedWith([outer, inner], Some(e)) == Some(e)
    ensures Report(InFlight([outer, inner], Some(e))) == RaisedGroup([f, e], !(e.ordinary && f.ordinary))
  {
    TwoInFlight(e, f, outer, inner);
    LastInFlight([outer, inner], Some(e));
    var seen := [Some(e), Some(f), Some(e)];
    assert seen[0] != seen[1] && Changed(seen);
    SinceThree(e, f);
    assert Reversed([e]) == [e] && Reversed([e, f]) == [f, e];
  }

  lemma {:induction false} TwoInFlight(e: Exc, f: Exc, outer: Resource, inner: Resource)
    requires inner.exit(Some(e)) == Raises(f) && outer.exit(Some(f)) == Raises(e)
    ensures InFlight([outer, inner], Some(e)) == [Some(e), Some(f), Some(e)]
  {
    assert [outer, inner][..1] == [outer] && [outer][..0] == [];
    assert InFlight([outer], Some(f)) == [Some(f)] + [Some(e)];
  }

  lemma {:induction false} SinceThree(e: Exc, f: Exc)
    requires e != f
    ensures Distinct(SinceSuppression([Some(e), Some(f), Some(e)])) == [e, f]
  {
    SinceOne(e);
    SinceMore([Some(e)], f);
    SinceMore([Some(e)] + [Some(f)], e);
    DistinctMore([], e);
    DistinctMore([e], f);
    DistinctMore([e] + [f], e);
    assert [] + [e] == [e];
    assert [Some(e)] + [Some(f)] + [Some(e)] == [Some(e), Some(f), Some(e)];
  }

  lemma {:induction false} SinceOne(e: Exc)
    ensures SinceSuppression([Some(e)]) == [e]
  {
    SinceMore([], e);
    assert [] + [Some(e)] == [Some(e)];
  }

  /**
   * A close raises what nested `with` would, alone, exactly when that is the only exception to
   * have been in flight since the last suppression.
   */
  lemma CloseIsNestedWith(resources: seq<Resource>, received: Option<Exc>)
    ensures var seen := InFlight(resources, received);
            var r := Report(seen);
            var final := NestedWith(resources, received);
            (r.RaisedOne? <==>
               Changed(seen) && final.Some? && forall e :: e in SinceSuppression(seen) ==> e == final.value)
            && (r.RaisedOne? ==> r.exc == final.value)
  {
    var seen := InFlight(resources, received);
    var pending := Distinct(SinceSuppression(seen));
    LastInFlight(resources, received);
    LastIsSince(seen);
    if NestedWith(resources, received).Some? {
      OneDistinct(SinceSuppression(seen), NestedWith(resources, received).value);
    } else {
      assert pending == [];
    }
  }

  /** One exception is left of a list exactly if every one in it is the same. */
  lemma OneDistinct(since: seq<Exc>, e: Exc)
    requires e in since
    ensures Distinct(since) != []
    ensures |Distinct(since)| == 1 <==> forall x :: x in since ==> x == e
    ensures |Distinct(since)| == 1 ==> Distinct(since)[0] == e
  {
    var pending := Distinct(since);
    DistinctMeans(since);
    assert e in pending;
    if |pending| > 1 {
      assert pending[0] != pending[1] && pending[0] in since && pending[1] in since;
    }
  }

  function IdsOf(resources: seq<Resource>): seq<nat> {
    if resources == [] then [] else IdsOf(resources[..|resources| - 1]) + [resources[|resources| - 1].id]
  }

  function ExitedIds(exits: seq<ExitCall>): seq<nat> {
    if exits == [] then [] else [exits[0].id] + ExitedIds(exits[1..])
  }

  /** The order of exits is the order of entries, reversed. */
  lemma {:induction false} ExitsReverse(resources: seq<Resource>, received: Option<Exc>, awaiting: bool)
    ensures ExitedIds(Exits(resources, received, awaiting)) == Reversed(IdsOf(resources))
  {
    if resources != [] {
      var n := |resources| - 1;
      var rest := Exits(resources[..n], Outcome(resources[n].exit, received), awaiting);
      ExitsReverse(resources[..n], Outcome(resources[n].exit, received), awaiting);
      assert Exits(resources, received, awaiting)[1..] == rest;
      assert IdsOf(resources)[..|IdsOf(resources)| - 1] == IdsOf(resources[..n]);
    }
  }

  /** Each resource is exited exactly once, last entered first. */
  lemma {:induction false} EachExitedOnce(resources: seq<Resource>, received: Option<Exc>, awaiting: bool)
    ensures var exits := Exits(resources, received, awaiting);
            var seen := InFlight(resources, received);
            && |exits| == |resources| == |seen| - 1
            && forall i :: 0 <= i < |resources| ==>
                 && exits[i].id == resources[|resources| - 1 - i].id && exits[i].handed == seen[i]
                 && exits[i].awaited == (awaiting && resources[|resources| - 1 - i].asynchronous)
  {
    LastInFlight(resources, received);
    if resources != [] {
      var n := |resources| - 1;
      var outcome := Outcome(resources[n].exit, received);
      EachExitedOnce(resources[..n], outcome, awaiting);
      LastInFlight(resources[..n], outcome);
    }
  }
}
