/**
 * When relays share an outbox: how long a claim is leased, and how long a batch may stay open, decide
 * whether attempts count every failure and what is settled stays so.
 */
module OutboxTiming {
  import opened Options
  import opened OutboxRelay
  import opened OutboxStore

  /** Who takes batches, one at a time each; how long the store leases them, and how long one stays open at most. */
  datatype Timing = Timing(relays: set<RelayId>, lease: int, longest: nat)

  /** Taken as the store's own claim takes records, up to some limit. */
  ghost predicate StoreTakes(store: Store, taken: seq<Record>, now: int) {
    store.records.Keys == store.status.Keys && exists limit: nat :: Claims(store, taken, now, limit)
  }

  /** Time does not go back, no batch is open for longer than the longest, and claims are the store's. */
  ghost predicate Timely(t: Timing, s: State, last: int, x: Timed) {
    && last <= x.now
    && (forall relay <- s.batches :: x.now <= s.batches[relay].until - t.lease + t.longest)
    && (!x.step.Add? ==> x.step.relay in t.relays)
    && (x.step.Claim? ==> StoreTakes(s.store, x.step.taken, x.now) && x.step.until == x.now + t.lease)
  }

  ghost predicate TimedRuns(max: Option<int>, t: Timing, s: State, last: int, steps: seq<Timed>)
    decreases |steps|
  {
    steps == [] ||
    (&& Enabled(s, steps[0].step) && Timely(t, s, last, steps[0])
     && TimedRuns(max, t, Step(max, s, steps[0].step), steps[0].now, steps[1..]))
  }

  lemma {:induction false} TimedIsRun(max: Option<int>, t: Timing, s: State, last: int, steps: seq<Timed>)
    requires TimedRuns(max, t, s, last, steps)
    ensures Runs(max, s, Untimed(steps))
    decreases |steps|
  {
    if steps != [] {
      TimedIsRun(max, t, Step(max, s, steps[0].step), steps[0].now, steps[1..]);
      assert Untimed(steps)[1..] == Untimed(steps[1..]);
    }
  }

  lemma StepThenTimed(max: Option<int>, t: Timing, s: State, last: int, x: Timed, rest: seq<Timed>)
    requires Enabled(s, x.step) && Timely(t, s, last, x) && TimedRuns(max, t, Step(max, s, x.step), x.now, rest)
    ensures TimedRuns(max, t, s, last, [x] + rest) && Runs(max, Step(max, s, x.step), Untimed(rest))
    ensures Runs(max, s, Untimed([x] + rest))
    ensures Run(max, s, Untimed([x] + rest)) == Run(max, Step(max, s, x.step), Untimed(rest))
  {
    assert ([x] + rest)[1..] == rest;
    TimedIsRun(max, t, Step(max, s, x.step), x.now, rest);
    StepThenRun(max, s, x.step, Untimed(rest));
  }

  // ----- where the promises hold -----

  /** If leases are longer than batches, none is open past its own. */
  lemma {:induction false} TimedIsLeased(max: Option<int>, t: Timing, s: State, last: int, steps: seq<Timed>)
    requires TimedRuns(max, t, s, last, steps) && t.longest < t.lease
    ensures LeasedRuns(max, s, steps)
    decreases |steps|
  {
    if steps != [] {
      var l := steps[0].step;
      if l.Claim? {
        var limit: nat :| Claims(s.store, l.taken, steps[0].now, limit);
        ClaimsTakeUnleased(s.store, l.taken, steps[0].now, limit);
      }
      TimedIsLeased(max, t, Step(max, s, l), steps[0].now, steps[1..]);
    }
  }

  lemma {:induction false} TimedIsByOne(
    max: Option<int>, t: Timing, s: State, last: int, steps: seq<Timed>, relay: RelayId
  )
    requires TimedRuns(max, t, s, last, steps) && t.relays <= {relay}
    ensures ByOne(relay, Untimed(steps))
    decreases |steps|
  {
    if steps != [] {
      var l := steps[0].step;
      assert !l.Add? ==> l.relay in t.relays;
      TimedIsByOne(max, t, Step(max, s, l), steps[0].now, steps[1..], relay);
      var labels := Untimed(steps);
      forall i | 0 <= i < |labels| && !labels[i].Add?
        ensures labels[i].relay == relay && (labels[i].Claim? ==> DistinctIds(labels[i].taken))
      {
        assert i > 0 ==> labels[i] == Untimed(steps[1..])[i - 1];
      }
    }
  }

  predicate TwoRelays(t: Timing) {
    exists a, b :: a in t.relays && b in t.relays && a != b
  }

  lemma AtMostOne(t: Timing) returns (relay: RelayId)
    requires !TwoRelays(t)
    ensures t.relays <= {relay}
  {
    relay := 0;
    if r :| r in t.relays {
      relay := r;
    }
  }

  // ----- a race for one record -----

  /** Two relays that race for one record, whose lease is no longer than a batch may take. */
  datatype Race = Race(max: Option<int>, t: Timing, a: RelayId, b: RelayId) {
    predicate Valid() {
      a in t.relays && b in t.relays && a != b && t.lease <= t.longest
    }

    /** When the first claim's lease has run out. */
    function Later(): nat {
      if t.lease < 0 then 0 else t.lease
    }

    function Item(): Record {
      Record(0, 0, 0, 0, 0, None)
    }

    function Added(): State {
      State(Store([0], map[0 := Item()], map[0 := Pending], map[]), map[], map[0 := Item()], {}, map[0 := 0])
    }

    function First(): Batch {
      Batch([Item()], t.lease, 0, {}, Publishing)
    }

    function Second(): Batch {
      Batch([Item()], Later() + t.lease, 0, {}, Publishing)
    }

    function ClaimedOnce(): State {
      Added().(store := Added().store.(leased := map[0 := t.lease]), batches := map[a := First()])
    }

    function ClaimedTwice(): State {
      Added().(store := Added().store.(leased := map[0 := Later() + t.lease]),
               batches := map[a := First(), b := Second()])
    }

    /** The record is added and claimed, and claimed again as soon as its lease has run out. */
    function Claiming(): seq<Timed> {
      [Timed(0, Add(Item())), Timed(0, Claim(a, [Item()], t.lease)),
       Timed(Later(), Claim(b, [Item()], Later() + t.lease))]
    }

    /** Both publish, and both fail. */
    function Failing(): seq<Timed> {
      [Timed(Later(), FailPublish(a, "", Later())), Timed(Later(), FailPublish(b, "", Later()))]
    }

    /** The first publishes and marks what it sent. */
    function Sending(): seq<Timed> {
      [Timed(Later(), Publish(a)), Timed(Later(), Stop(a)), Timed(Later(), Mark(a, 0))]
    }

    function AfterSending(n: nat): State {
      var b := Batch([Item()], t.lease, 1, if n < 3 then {0} else {}, if n < 2 then Publishing else Marking);
      var s := ClaimedTwice().(batches := map[this.a := b, this.b := Second()], published := {0});
      if n < 3 then s else s.(store := Store([0], map[0 := Item()], map[0 := Sent], map[]))
    }

    /** The second fails to. */
    function FailingLate(): seq<Timed> {
      [Timed(Later(), FailPublish(b, "", Later()))]
    }
  }

  lemma TakesOnly(y: Race, store: Store, now: int)
    requires store.records == map[0 := y.Item()] && store.status == map[0 := Pending] && now >= 0
    requires 0 in store.leased ==> store.leased[0] <= now
    ensures StoreTakes(store, [y.Item()], now)
  {
    assert Claims(store, [y.Item()], now, 1);
  }

  lemma FirstClaims(y: Race)
    requires y.Valid()
    ensures var x := y.Claiming()[1];
            && Enabled(y.Added(), x.step) && Timely(y.t, y.Added(), 0, x)
            && Step(y.max, y.Added(), x.step) == y.ClaimedOnce()
  {
    TakesOnly(y, y.Added().store, 0);
    LeasedOne(y.Added().store, y.Item(), y.t.lease);
  }

  lemma SecondClaims(y: Race)
    requires y.Valid()
    ensures var x := y.Claiming()[2];
            && Enabled(y.ClaimedOnce(), x.step) && Timely(y.t, y.ClaimedOnce(), 0, x)
            && Step(y.max, y.ClaimedOnce(), x.step) == y.ClaimedTwice()
  {
    TakesOnly(y, y.ClaimedOnce().store, y.Later());
    LeasedOne(y.ClaimedOnce().store, y.Item(), y.Later() + y.t.lease);
    assert map[y.a := y.First()][y.b := y.Second()] == map[y.a := y.First(), y.b := y.Second()];
  }

  lemma LeasedOne(store: Store, record: Record, until: int)
    ensures Leased(store, [record], until) == store.(leased := store.leased[record.id := until])
  {
    assert [record][..0] == [];
  }

  /** What two relays that have both claimed the record may do, they may do from the start. */
  lemma AfterClaiming(y: Race, tail: seq<Timed>)
    requires y.Valid() && TimedRuns(y.max, y.t, y.ClaimedTwice(), y.Later(), tail)
    ensures TimedRuns(y.max, y.t, Initial, 0, y.Claiming() + tail)
    ensures Runs(y.max, y.ClaimedTwice(), Untimed(tail)) && Runs(y.max, Initial, Untimed(y.Claiming() + tail))
    ensures Run(y.max, Initial, Untimed(y.Claiming() + tail)) == Run(y.max, y.ClaimedTwice(), Untimed(tail))
  {
    var x := y.Claiming();
    assert Step(y.max, Initial, x[0].step) == y.Added();
    FirstClaims(y);
    SecondClaims(y);
    StepThenTimed(y.max, y.t, y.ClaimedOnce(), 0, x[2], tail);
    StepThenTimed(y.max, y.t, y.Added(), 0, x[1], [x[2]] + tail);
    StepThenTimed(y.max, y.t, Initial, 0, x[0], [x[1]] + ([x[2]] + tail));
    assert x + tail == [x[0]] + ([x[1]] + ([x[2]] + tail));
  }

  lemma BothFail(y: Race)
    requires y.Valid()
    ensures TimedRuns(y.max, y.t, y.ClaimedTwice(), y.Later(), y.Failing())
    ensures Runs(y.max, y.ClaimedTwice(), Untimed(y.Failing()))
    ensures var u := Run(y.max, y.ClaimedTwice(), Untimed(y.Failing()));
            && 0 in u.store.records && u.store.records[0].attempts == 1
            && 0 in u.failures && u.failures[0] == 2
  {
    var x, s := y.Failing(), y.ClaimedTwice();
    var s1 := Step(y.max, s, x[0].step);
    var s2 := Step(y.max, s1, x[1].step);
    assert s1.batches[y.b] == y.Second() && s1.failures[0] == 1;
    StepThenTimed(y.max, y.t, s1, y.Later(), x[1], []);
    StepThenTimed(y.max, y.t, s, y.Later(), x[0], [x[1]] + []);
    assert x == [x[0]] + ([x[1]] + []);
  }

  /**
   * A lease that runs out under its batch can lose a failure: another relay claims the record too, and
   * of their two failures one attempt is left.
   */
  lemma ExpiryLosesFailure(y: Race) returns (steps: seq<Timed>)
    requires y.Valid()
    ensures TimedRuns(y.max, y.t, Initial, 0, steps) && Runs(y.max, Initial, Untimed(steps))
    ensures var s := Run(y.max, Initial, Untimed(steps));
            0 in s.store.records && 0 in s.failures && s.store.records[0].attempts == 1 && s.failures[0] == 2
  {
    BothFail(y);
    AfterClaiming(y, y.Failing());
    steps := y.Claiming() + y.Failing();
  }

  lemma FirstPublishes(y: Race)
    requires y.Valid()
    ensures var x := y.Sending()[0];
            && Enabled(y.ClaimedTwice(), x.step) && Timely(y.t, y.ClaimedTwice(), y.Later(), x)
            && Step(y.max, y.ClaimedTwice(), x.step) == y.AfterSending(1)
  {
    var t := Step(y.max, y.ClaimedTwice(), y.Sending()[0].step);
    assert t.batches[y.a].sent == {0};
    assert t.batches == y.AfterSending(1).batches;
  }

  lemma FirstStops(y: Race)
    requires y.Valid()
    ensures var x := y.Sending()[1];
            && Enabled(y.AfterSending(1), x.step) && Timely(y.t, y.AfterSending(1), y.Later(), x)
            && Step(y.max, y.AfterSending(1), x.step) == y.AfterSending(2)
  {
    var t := Step(y.max, y.AfterSending(1), y.Sending()[1].step);
    assert t.batches == y.AfterSending(2).batches;
  }

  lemma FirstMarks(y: Race)
    requires y.Valid()
    ensures var x := y.Sending()[2];
            && Enabled(y.AfterSending(2), x.step) && Timely(y.t, y.AfterSending(2), y.Later(), x)
            && Step(y.max, y.AfterSending(2), x.step) == y.AfterSending(3)
  {
    var t := Step(y.max, y.AfterSending(2), y.Sending()[2].step);
    assert t.batches[y.a].sent == {} && t.store.leased == map[];
    assert t.batches == y.AfterSending(3).batches;
  }

  lemma AfterSent(y: Race, tail: seq<Timed>)
    requires y.Valid() && TimedRuns(y.max, y.t, y.AfterSending(3), y.Later(), tail)
    ensures TimedRuns(y.max, y.t, Initial, 0, y.Claiming() + (y.Sending() + tail))
    ensures Runs(y.max, y.AfterSending(3), Untimed(tail))
    ensures Runs(y.max, Initial, Untimed(y.Claiming() + (y.Sending() + tail)))
    ensures Run(y.max, Initial, Untimed(y.Claiming() + (y.Sending() + tail)))
         == Run(y.max, y.AfterSending(3), Untimed(tail))
  {
    var x := y.Sending();
    FirstPublishes(y);
    FirstStops(y);
    FirstMarks(y);
    StepThenTimed(y.max, y.t, y.AfterSending(2), y.Later(), x[2], tail);
    StepThenTimed(y.max, y.t, y.AfterSending(1), y.Later(), x[1], [x[2]] + tail);
    StepThenTimed(y.max, y.t, y.ClaimedTwice(), y.Later(), x[0], [x[1]] + ([x[2]] + tail));
    assert x + tail == [x[0]] + ([x[1]] + ([x[2]] + tail));
    AfterClaiming(y, x + tail);
  }

  lemma SecondFailsLate(y: Race)
    requires y.Valid()
    ensures TimedRuns(y.max, y.t, y.AfterSending(3), y.Later(), y.FailingLate())
    ensures Runs(y.max, y.AfterSending(3), Untimed(y.FailingLate()))
    ensures !StaysSettled(y.AfterSending(3), Run(y.max, y.AfterSending(3), Untimed(y.FailingLate())), 0)
  {
    var x := y.FailingLate()[0];
    StepThenTimed(y.max, y.t, y.AfterSending(3), y.Later(), x, []);
    assert [x] + [] == y.FailingLate();
    assert Step(y.max, y.AfterSending(3), x.step).store.status[0] != Sent;
  }

  /** And it can undo a settlement: a record that was marked sent is pending again, or parked. */
  lemma ExpiryUnsettles(y: Race)
    requires y.Valid()
    ensures var before, rest := y.Claiming() + y.Sending(), y.FailingLate();
            && TimedRuns(y.max, y.t, Initial, 0, before + rest)
            && Runs(y.max, Initial, Untimed(before)) && Runs(y.max, Initial, Untimed(before + rest))
            && !StaysSettled(Run(y.max, Initial, Untimed(before)), Run(y.max, Initial, Untimed(before + rest)), 0)
  {
    var before, rest := y.Claiming() + y.Sending(), y.FailingLate();
    AfterSent(y, []);
    assert y.Claiming() + (y.Sending() + []) == before;
    SecondFailsLate(y);
    AfterSent(y, rest);
    assert y.Claiming() + (y.Sending() + rest) == before + rest;
  }

  // ----- exactly when -----

  ghost predicate CountsAfter(max: Option<int>, steps: seq<Timed>, id: Id) {
    Runs(max, Initial, Untimed(steps)) && AttemptsCount(Run(max, Initial, Untimed(steps)), id)
  }

  ghost predicate AlwaysCounts(max: Option<int>, t: Timing) {
    forall steps, id | TimedRuns(max, t, Initial, 0, steps) :: CountsAfter(max, steps, id)
  }

  /**
   * Attempts are the publish failures, over every run, exactly if a lease is longer than any batch, or
   * there is only one to take batches.
   */
  lemma CountsExactlyWhen(max: Option<int>, t: Timing)
    ensures AlwaysCounts(max, t) <==> t.longest < t.lease || !TwoRelays(t)
  {
    if t.longest < t.lease || !TwoRelays(t) {
      forall steps, id | TimedRuns(max, t, Initial, 0, steps) ensures CountsAfter(max, steps, id) {
        CountsWhen(max, t, steps, id);
      }
    } else {
      var a, b :| a in t.relays && b in t.relays && a != b;
      var steps := ExpiryLosesFailure(Race(max, t, a, b));
      assert !CountsAfter(max, steps, 0);
    }
  }

  lemma CountsWhen(max: Option<int>, t: Timing, steps: seq<Timed>, id: Id)
    requires TimedRuns(max, t, Initial, 0, steps) && (t.longest < t.lease || !TwoRelays(t))
    ensures CountsAfter(max, steps, id)
  {
    if t.longest < t.lease {
      TimedIsLeased(max, t, Initial, 0, steps);
      AttemptsAreFailures(max, steps, id);
    } else {
      var relay := AtMostOne(t);
      TimedIsByOne(max, t, Initial, 0, steps, relay);
      TimedIsRun(max, t, Initial, 0, steps);
      OneRelayCountsFailures(max, relay, Untimed(steps), id);
    }
  }

  ghost predicate SettledAfter(max: Option<int>, before: seq<Timed>, rest: seq<Timed>, id: Id) {
    && Runs(max, Initial, Untimed(before)) && Runs(max, Initial, Untimed(before + rest))
    && StaysSettled(Run(max, Initial, Untimed(before)), Run(max, Initial, Untimed(before + rest)), id)
  }

  ghost predicate AlwaysSettles(max: Option<int>, t: Timing) {
    forall before, rest, id | TimedRuns(max, t, Initial, 0, before + rest) :: SettledAfter(max, before, rest, id)
  }

  /** And what is sent or parked stays so, over every run, exactly then. */
  lemma SettlesExactlyWhen(max: Option<int>, t: Timing)
    ensures AlwaysSettles(max, t) <==> t.longest < t.lease || !TwoRelays(t)
  {
    if t.longest < t.lease || !TwoRelays(t) {
      forall before, rest, id | TimedRuns(max, t, Initial, 0, before + rest)
        ensures SettledAfter(max, before, rest, id)
      {
        SettlesWhen(max, t, before, rest, id);
      }
    } else {
      var a, b :| a in t.relays && b in t.relays && a != b;
      var y := Race(max, t, a, b);
      ExpiryUnsettles(y);
      assert !SettledAfter(max, y.Claiming() + y.Sending(), y.FailingLate(), 0);
    }
  }

  lemma SettlesWhen(max: Option<int>, t: Timing, before: seq<Timed>, rest: seq<Timed>, id: Id)
    requires TimedRuns(max, t, Initial, 0, before + rest) && (t.longest < t.lease || !TwoRelays(t))
    ensures SettledAfter(max, before, rest, id)
  {
    if t.longest < t.lease {
      TimedIsLeased(max, t, Initial, 0, before + rest);
      SettledIsFinal(max, before, rest, id);
    } else {
      var relay := AtMostOne(t);
      TimedIsByOne(max, t, Initial, 0, before + rest, relay);
      TimedIsRun(max, t, Initial, 0, before + rest);
      UntimedSplits(before, rest);
      OneRelaySettles(max, relay, Untimed(before), Untimed(rest), id);
    }
  }
}
