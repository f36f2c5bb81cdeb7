/**
 * The retry protocol of a RabbitMQ consumer under a failure policy: a failed message is published
 * to its next queue before it is acked. Proved over every run, with crashes, cancellations and
 * redeliveries at any point: no message is lost, and failures are counted up to a bound.
 *
 * The broker and every consumer of one queue are one machine over copies of messages. A confirmed
 * publish to a declared queue is on that queue; one to no queue is gone.
 */
module RetryProtocol {
  import opened FailureQueues
  import opened Options

  /** A header's value: a text, a number, a truth value, which Python also counts as a number, or other. */
  datatype Header = Text(text: string) | Number(n: int) | Flag(b: bool) | Null | Other(id: nat)

  /** A message's properties but its headers, which are never looked at here. */
  datatype Properties = Properties(
    messageId: Option<string>,
    correlationId: Option<string>,
    timestamp: Option<nat>,
    rest: nat
  )

  type Headers = map<string, Header>

  datatype Mail = Mail(body: nat, properties: Properties, headers: Headers)

  const ATTEMPTS := "x-attempts"
  const FAILURE := "x-failure"

  /** How many times a delivered message has already failed. */
  function Attempts(m: Mail): nat {
    if ATTEMPTS !in m.headers then 0
    else match m.headers[ATTEMPTS]
      case Number(n) => if n > 0 then n else 0
      case Flag(b) => if b then 1 else 0
      case _ => 0
  }

  /** A failed message's copy, stamped with its attempts and failure. */
  function Stamped(m: Mail, attempts: nat, error: string): Mail {
    m.(headers := m.headers[ATTEMPTS := Number(attempts)][FAILURE := Text(error)])
  }

  /**
   * Where a copy is. Unacked ones are with a consumer: being handled, handled but not acked, failed
   * but not yet published on, or published on (or to be dropped) but not acked. The last four are
   * acked or nacked.
   */
  datatype Place =
    | In(queue: string)
    | Handling
    | Succeeded
    | Failed(error: string, retry: bool)
    | Settled(next: Option<nat>)
    | Handled
    | Superseded(heir: nat)
    | Dropped
    | Discarded

  predicate Unacked(p: Place) {
    p.Handling? || p.Succeeded? || p.Failed? || p.Settled?
  }

  /** How a copy came about, which no step looks at: it arrived, or a failed copy was published on, and to where. */
  datatype Origin = Arrived | PublishedOn(from: nat, error: string, retry: bool, queue: string)

  /** A copy, with the index of the first copy of its message and how many failures it counts. */
  datatype Copy = Copy(mail: Mail, place: Place, first: nat, failures: nat, origin: Origin)

  datatype Config = Config(queue: string, policy: Option<Policy>, queues: Queues)

  type Copies = seq<Copy>

  datatype Label =
    | Arrive(mail: Mail)
    | Deliver(id: nat)
    | Finish(id: nat)
    | Fail(id: nat, error: string, retry: bool)
    | Settle(id: nat)
    | Ack(id: nat)
    | Redeliver(id: nat)
    | Expire(id: nat)

  predicate Enabled(c: Config, s: Copies, l: Label) {
    match l
    case Arrive(_) => true
    case Deliver(id) => id < |s| && s[id].place == In(c.queue)
    case Finish(id) => id < |s| && s[id].place == Handling
    case Fail(id, _, _) => id < |s| && s[id].place == Handling
    case Settle(id) => id < |s| && s[id].place.Failed?
    case Ack(id) => id < |s| && (s[id].place.Succeeded? || s[id].place.Settled?)
    case Redeliver(id) => id < |s| && Unacked(s[id].place)
    case Expire(id) =>
      id < |s| && s[id].place.In? && s[id].place.queue in c.queues && c.queues[s[id].place.queue].Expiring?
  }

  /** The queue a failed message goes to next, or none to drop it. */
  function Target(p: Policy, queue: string, attempts: nat, retry: bool): Option<string>
    requires attempts >= 1
  {
    var next := if retry then RetryQueue(p, queue, attempts) else None;
    if next.Some? then next else DeadLetterTarget(p, queue)
  }

  function Moved(s: Copies, id: nat, place: Place): Copies
    requires id < |s|
  {
    s[id := s[id].(place := place)]
  }

  /** What a failed copy is published on as, if it reaches a queue. */
  function NextCopy(c: Config, copy: Copy, id: nat): Option<Copy>
    requires c.policy.Some? && copy.place.Failed?
  {
    var attempts := Attempts(copy.mail) + 1;
    var target := Target(c.policy.value, c.queue, attempts, copy.place.retry);
    if target.None? || target.value !in c.queues then None
    else
      Some(Copy(Stamped(copy.mail, attempts, copy.place.error), In(target.value), copy.first, copy.failures + 1,
                PublishedOn(id, copy.place.error, copy.place.retry, target.value)))
  }

  /** Publish a failed copy on, to a queue that exists or to nowhere; without a policy, nack it. */
  function SettleStep(c: Config, s: Copies, id: nat): Copies
    requires id < |s| && s[id].place.Failed?
  {
    if c.policy.None? then Moved(s, id, Discarded)
    else
      var next := NextCopy(c, s[id], id);
      if next.None? then Moved(s, id, Settled(None)) else Moved(s, id, Settled(Some(|s|))) + [next.value]
  }

  function AckPlace(p: Place): Place
    requires p.Succeeded? || p.Settled?
  {
    if p.Succeeded? then Handled else if p.next.None? then Dropped else Superseded(p.next.value)
  }

  function Step(c: Config, s: Copies, l: Label): Copies
    requires Enabled(c, s, l)
  {
    match l
    case Arrive(mail) => s + [Copy(mail, In(c.queue), |s|, 0, Arrived)]
    case Deliver(id) => Moved(s, id, Handling)
    case Finish(id) => Moved(s, id, Succeeded)
    case Fail(id, error, retry) => Moved(s, id, Failed(error, retry))
    case Settle(id) => SettleStep(c, s, id)
    case Ack(id) => Moved(s, id, AckPlace(s[id].place))
    case Redeliver(id) => Moved(s, id, In(c.queue))
    case Expire(id) => Moved(s, id, In(c.queues[s[id].place.queue].into))
  }

  predicate Runs(c: Config, s: Copies, labels: seq<Label>)
    decreases |labels|
  {
    labels == [] || (Enabled(c, s, labels[0]) && Runs(c, Step(c, s, labels[0]), labels[1..]))
  }

  function Run(c: Config, s: Copies, labels: seq<Label>): Copies
    requires Runs(c, s, labels)
    decreases |labels|
  {
    if labels == [] then s else Run(c, Step(c, s, labels[0]), labels[1..])
  }

  /** A consumer's queues are declared before it consumes. */
  ghost predicate Declared(c: Config, kind: Kind) {
    && !kind.Expiring?
    && (c.policy.Some? ==>
          && ValidPolicy(c.policy.value)
          && Compatible(c.policy.value, c.queue, kind)
          && AllDeclared(c.policy.value, c.queue, kind, c.queues))
    && (c.policy.None? ==> c.queues == map[c.queue := kind])
  }

  // ----- what every step keeps -----

  /** A failed message's target exists: publishing it loses nothing. */
  lemma TargetIsDeclared(c: Config, kind: Kind, attempts: nat, retry: bool)
    requires Declared(c, kind) && c.policy.Some? && attempts >= 1
    ensures var target := Target(c.policy.value, c.queue, attempts, retry);
            && (target.Some? ==> target.value in c.queues)
            && (target.None? ==> !c.policy.value.deadLetter)
  {
    var p := c.policy.value;
    if retry && attempts <= |p.delays| {
      assert RetryQueueFor(c.queue, p.delays[attempts - 1]) in c.queues;
    }
  }

  predicate Drops(c: Config) {
    c.policy.Some? && !c.policy.value.deadLetter
  }

  predicate SameLetter(a: Mail, b: Mail) {
    && a.body == b.body && a.properties == b.properties
    && a.headers - {ATTEMPTS, FAILURE} == b.headers - {ATTEMPTS, FAILURE}
  }

  /** A place is one the policy allows, and a copy published on has a later copy of its message. */
  predicate PlaceOk(c: Config, s: Copies, id: nat)
    requires id < |s|
  {
    match s[id].place
    case In(queue) => queue in c.queues
    case Settled(next) =>
      if next.None? then Drops(c) else id < next.value < |s| && s[next.value].first == s[id].first
    case Superseded(heir) => id < heir < |s| && s[heir].first == s[id].first
    case Dropped => Drops(c)
    case Discarded => c.policy.None?
    case _ => true
  }

  /** A copy is of a message that arrived, and differs from it only in what failing stamps. */
  predicate LetterOk(s: Copies, id: nat)
    requires id < |s|
  {
    var first := s[id].first;
    && first <= id && s[first].first == first
    && SameLetter(s[id].mail, s[first].mail)
    && Attempts(s[id].mail) == Attempts(s[first].mail) + s[id].failures
  }

  ghost predicate Inv(c: Config, s: Copies) {
    && (forall id :: 0 <= id < |s| ==> PlaceOk(c, s, id))
    && (forall id :: 0 <= id < |s| ==> LetterOk(s, id))
  }

  lemma MovedKeepsInv(c: Config, s: Copies, id: nat, place: Place)
    requires Inv(c, s) && id < |s| && PlaceOk(c, Moved(s, id, place), id)
    ensures Inv(c, Moved(s, id, place))
  {
    var t := Moved(s, id, place);
    forall i | 0 <= i < |t| ensures PlaceOk(c, t, i) && LetterOk(t, i) {
      assert PlaceOk(c, s, i) && LetterOk(s, i);
    }
  }

  lemma AddedKeepsInv(c: Config, s: Copies, copy: Copy)
    requires Inv(c, s)
    requires PlaceOk(c, s + [copy], |s|) && LetterOk(s + [copy], |s|)
    ensures Inv(c, s + [copy])
  {
    var t := s + [copy];
    forall i | 0 <= i < |t| ensures PlaceOk(c, t, i) && LetterOk(t, i) {
      if i < |s| {
        assert PlaceOk(c, s, i) && LetterOk(s, i);
      }
    }
  }

  lemma StampedIsSameLetter(m: Mail, attempts: nat, error: string)
    ensures SameLetter(Stamped(m, attempts, error), m) && Attempts(Stamped(m, attempts, error)) == attempts
  {
    assert Stamped(m, attempts, error).headers - {ATTEMPTS, FAILURE} == m.headers - {ATTEMPTS, FAILURE};
  }

  lemma SettleKeepsInv(c: Config, kind: Kind, s: Copies, id: nat)
    requires Declared(c, kind) && Inv(c, s) && id < |s| && s[id].place.Failed?
    ensures Inv(c, SettleStep(c, s, id))
  {
    if c.policy.None? {
      MovedKeepsInv(c, s, id, Discarded);
      return;
    }
    var copy := s[id];
    var next := NextCopy(c, copy, id);
    TargetIsDeclared(c, kind, Attempts(copy.mail) + 1, copy.place.retry);
    if next.None? {
      MovedKeepsInv(c, s, id, Settled(None));
      return;
    }
    StampedIsSameLetter(copy.mail, Attempts(copy.mail) + 1, copy.place.error);
    assert LetterOk(s, id);
    AddedKeepsInv(c, s, next.value);
    MovedKeepsInv(c, s + [next.value], id, Settled(Some(|s|)));
    assert Moved(s + [next.value], id, Settled(Some(|s|))) == Moved(s, id, Settled(Some(|s|))) + [next.value];
  }

  lemma StepKeepsInv(c: Config, kind: Kind, s: Copies, l: Label)
    requires Declared(c, kind) && Inv(c, s) && Enabled(c, s, l)
    ensures Inv(c, Step(c, s, l))
  {
    assert c.queue in c.queues;
    match l
    case Arrive(mail) => AddedKeepsInv(c, s, Copy(mail, In(c.queue), |s|, 0, Arrived));
    case Settle(id) => SettleKeepsInv(c, kind, s, id);
    case Deliver(id) => MovedKeepsInv(c, s, id, Handling);
    case Finish(id) => MovedKeepsInv(c, s, id, Succeeded);
    case Fail(id, error, retry) => MovedKeepsInv(c, s, id, Failed(error, retry));
    case Ack(id) =>
      assert PlaceOk(c, s, id);
      MovedKeepsInv(c, s, id, AckPlace(s[id].place));
    case Redeliver(id) => MovedKeepsInv(c, s, id, In(c.queue));
    case Expire(id) =>
      ExpiresBack(c, kind, s[id].place.queue);
      MovedKeepsInv(c, s, id, In(c.queues[s[id].place.queue].into));
  }

  /** A queue that expires its messages expires them into the consumed queue. */
  lemma ExpiresBack(c: Config, kind: Kind, name: string)
    requires Declared(c, kind) && name in c.queues && c.queues[name].Expiring?
    ensures c.policy.Some? && IsRetry(c.queue, c.policy.value.delays, name)
    ensures c.queues[name].into == c.queue
  {
    if c.policy.Some? {
      var p := c.policy.value;
      var i :| 0 <= i < |p.delays| && name == RetryQueueFor(c.queue, p.delays[i]);
    }
  }

  lemma {:induction false} RunKeepsInv(c: Config, kind: Kind, s: Copies, labels: seq<Label>)
    requires Declared(c, kind) && Inv(c, s) && Runs(c, s, labels)
    ensures Inv(c, Run(c, s, labels))
    decreases |labels|
  {
    if labels != [] {
      StepKeepsInv(c, kind, s, labels[0]);
      RunKeepsInv(c, kind, Step(c, s, labels[0]), labels[1..]);
    }
  }

  // ----- no message is lost -----

  /** A copy that still stands for its message: queued, waiting, unacked, dead-lettered or handled. */
  predicate Safe(c: Config, copy: Copy) {
    (copy.place.In? && copy.place.queue in c.queues) || Unacked(copy.place) || copy.place.Handled?
  }

  /** The copy that a chain of published-on copies ends with. */
  function Last(c: Config, s: Copies, id: nat): (r: nat)
    requires Inv(c, s) && id < |s|
    ensures id <= r < |s| && s[r].first == s[id].first && !s[r].place.Superseded?
    decreases |s| - id
  {
    assert PlaceOk(c, s, id);
    if s[id].place.Superseded? then Last(c, s, s[id].place.heir) else id
  }

  /**
   * Over every run, every copy that ever was, and so every message that ever arrived, has a copy of
   * its message that is queued, waiting, unacked, dead-lettered, or acked after it was handled; if
   * the policy is to drop, or there is none, it may instead have been dropped or discarded.
   */
  lemma NeverLost(c: Config, kind: Kind, labels: seq<Label>, id: nat)
    requires Declared(c, kind) && Runs(c, [], labels) && id < |Run(c, [], labels)|
    ensures var s := Run(c, [], labels);
            exists last :: id <= last < |s| && s[last].first == s[id].first
                        && (Safe(c, s[last])
                            || (s[last].place.Dropped? && Drops(c))
                            || (s[last].place.Discarded? && c.policy.None?))
  {
    RunKeepsInv(c, kind, [], labels);
    var s := Run(c, [], labels);
    var last := Last(c, s, id);
    assert PlaceOk(c, s, last);
  }

  /** Under a dead-lettering policy nothing is ever dropped, so the copy is always a safe one. */
  lemma DeadLetteringLosesNothing(c: Config, kind: Kind, labels: seq<Label>, id: nat)
    requires Declared(c, kind) && c.policy.Some? && c.policy.value.deadLetter
    requires Runs(c, [], labels) && id < |Run(c, [], labels)|
    ensures var s := Run(c, [], labels);
            && !s[id].place.Dropped? && !s[id].place.Discarded?
            && exists last :: id <= last < |s| && s[last].first == s[id].first && Safe(c, s[last])
  {
    NeverLost(c, kind, labels, id);
    RunKeepsInv(c, kind, [], labels);
    assert PlaceOk(c, Run(c, [], labels), id);
  }

  /** Every copy keeps its message's body, properties and other headers, and counts its failures. */
  lemma CopiesKeepTheLetter(c: Config, kind: Kind, labels: seq<Label>, id: nat)
    requires Declared(c, kind) && Runs(c, [], labels) && id < |Run(c, [], labels)|
    ensures var s := Run(c, [], labels);
            var first := s[id].first;
            && first <= id && s[first].first == first && SameLetter(s[id].mail, s[first].mail)
            && Attempts(s[id].mail) == Attempts(s[first].mail) + s[id].failures
  {
    RunKeepsInv(c, kind, [], labels);
    assert LetterOk(Run(c, [], labels), id);
  }

  // ----- failures are bounded -----

  function Max(a: nat, b: nat): nat {
    if a < b then b else a
  }

  /** The most failures a message with this first copy may count in the consumed queue. */
  function Bound(c: Config, first: Mail): nat
    requires c.policy.Some?
  {
    Max(Attempts(first), |c.policy.value.delays|)
  }

  predicate InDeadLetters(c: Config, copy: Copy)
    requires c.policy.Some?
  {
    copy.place.In? && DeadLetterTarget(c.policy.value, c.queue) == Some(copy.place.queue)
  }

  /**
   * A copy outside the dead-letter queue counts at most as many failures as there are delays, unless
   * it arrived with more, and a dead letter one more; a waiting copy waits for its failure's delay.
   */
  predicate CopyBound(c: Config, copy: Copy, first: Mail)
    requires c.policy.Some?
  {
    && Attempts(copy.mail) <= Bound(c, first) + (if InDeadLetters(c, copy) then 1 else 0)
    && (copy.place.In? && copy.place.queue != c.queue && !InDeadLetters(c, copy) ==>
          WaitsFor(c.policy.value, c.queue, copy.place.queue, Attempts(copy.mail)))
  }

  /** Whether a queue is the one for a message's `attempt`-th failure. */
  predicate WaitsFor(p: Policy, queue: string, name: string, attempt: nat) {
    1 <= attempt <= |p.delays| && name == RetryQueueFor(queue, p.delays[attempt - 1])
  }

  predicate WithinBound(c: Config, s: Copies, id: nat)
    requires c.policy.Some? && id < |s| && s[id].first < |s|
  {
    CopyBound(c, s[id], s[s[id].first].mail)
  }

  ghost predicate Bounded(c: Config, s: Copies)
    requires c.policy.Some?
  {
    forall id :: 0 <= id < |s| ==> s[id].first < |s| && WithinBound(c, s, id)
  }

  predicate DeadLettersApart(c: Config) {
    c.policy.Some? ==> DeadLetterTarget(c.policy.value, c.queue) != Some(c.queue)
  }

  lemma MovedCopyBound(c: Config, copy: Copy, place: Place, first: Mail)
    requires c.policy.Some? && DeadLettersApart(c) && CopyBound(c, copy, first)
    requires !InDeadLetters(c, copy) && (place.In? ==> place.queue == c.queue)
    ensures CopyBound(c, copy.(place := place), first)
  {
  }

  lemma MovedKeepsBounded(c: Config, s: Copies, id: nat, place: Place)
    requires c.policy.Some? && Bounded(c, s) && DeadLettersApart(c) && id < |s|
    requires !InDeadLetters(c, s[id]) && (place.In? ==> place.queue == c.queue)
    ensures Bounded(c, Moved(s, id, place))
  {
    var t := Moved(s, id, place);
    forall i | 0 <= i < |t| ensures t[i].first < |t| && WithinBound(c, t, i) {
      assert WithinBound(c, s, i) && t[i].first == s[i].first && t[t[i].first].mail == s[s[i].first].mail;
      if i == id {
        MovedCopyBound(c, s[id], place, s[s[id].first].mail);
      }
    }
  }

  lemma AddedKeepsBounded(c: Config, s: Copies, copy: Copy)
    requires c.policy.Some? && Bounded(c, s)
    requires copy.first <= |s|
    requires CopyBound(c, copy, if copy.first == |s| then copy.mail else s[copy.first].mail)
    ensures Bounded(c, s + [copy])
  {
    var t := s + [copy];
    forall i | 0 <= i < |t| ensures t[i].first < |t| && WithinBound(c, t, i) {
      if i < |s| {
        assert WithinBound(c, s, i) && t[i] == s[i] && t[s[i].first] == s[s[i].first];
      }
    }
  }

  lemma RetriesAreNotDeadLetters(c: Config, kind: Kind, i: nat)
    requires Declared(c, kind) && c.policy.Some? && i < |c.policy.value.delays|
    ensures DeadLetterTarget(c.policy.value, c.queue) != Some(RetryQueueFor(c.queue, c.policy.value.delays[i]))
    ensures RetryQueueFor(c.queue, c.policy.value.delays[i]) != c.queue
  {
    RetryIsNotConsumed(c.queue, Milliseconds(c.policy.value.delays[i]));
    assert IsRetry(c.queue, c.policy.value.delays, RetryQueueFor(c.queue, c.policy.value.delays[i]));
  }

  /** What a failed copy is published on as is within the bound wherever it goes. */
  lemma NextCopyBound(c: Config, kind: Kind, copy: Copy, id: nat, first: Mail)
    requires Declared(c, kind) && c.policy.Some? && DeadLettersApart(c)
    requires copy.place.Failed? && CopyBound(c, copy, first) && NextCopy(c, copy, id).Some?
    ensures CopyBound(c, NextCopy(c, copy, id).value, first)
  {
    var attempts := Attempts(copy.mail) + 1;
    StampedIsSameLetter(copy.mail, attempts, copy.place.error);
    if copy.place.retry && attempts <= |c.policy.value.delays| {
      RetriesAreNotDeadLetters(c, kind, attempts - 1);
      assert WaitsFor(c.policy.value, c.queue, RetryQueue(c.policy.value, c.queue, attempts).value, attempts);
    }
  }

  lemma PublishedKeepsBounded(c: Config, s: Copies, id: nat, next: Copy)
    requires c.policy.Some? && DeadLettersApart(c) && Bounded(c, s)
    requires id < |s| && s[id].place.Failed? && next.first == s[id].first
    requires CopyBound(c, next, s[next.first].mail)
    ensures Bounded(c, Moved(s, id, Settled(Some(|s|))) + [next])
  {
    AddedKeepsBounded(c, s, next);
    MovedKeepsBounded(c, s + [next], id, Settled(Some(|s|)));
    assert Moved(s + [next], id, Settled(Some(|s|))) == Moved(s, id, Settled(Some(|s|))) + [next];
  }

  lemma SettleKeepsBounded(c: Config, kind: Kind, s: Copies, id: nat)
    requires Declared(c, kind) && c.policy.Some? && DeadLettersApart(c)
    requires Bounded(c, s) && id < |s| && s[id].place.Failed?
    ensures Bounded(c, SettleStep(c, s, id))
  {
    var next := NextCopy(c, s[id], id);
    assert WithinBound(c, s, id);
    if next.None? {
      MovedKeepsBounded(c, s, id, Settled(None));
    } else {
      NextCopyBound(c, kind, s[id], id, s[s[id].first].mail);
      PublishedKeepsBounded(c, s, id, next.value);
    }
  }

  lemma StepKeepsBounded(c: Config, kind: Kind, s: Copies, l: Label)
    requires Declared(c, kind) && c.policy.Some? && DeadLettersApart(c)
    requires Bounded(c, s) && Enabled(c, s, l)
    ensures Bounded(c, Step(c, s, l))
  {
    if l.Settle? {
      SettleKeepsBounded(c, kind, s, l.id);
    } else if l.Expire? {
      ExpireKeepsBounded(c, kind, s, l.id);
    } else {
      ConsumerKeepsBounded(c, s, l);
    }
  }

  lemma ConsumerKeepsBounded(c: Config, s: Copies, l: Label)
    requires c.policy.Some? && DeadLettersApart(c) && Bounded(c, s) && Enabled(c, s, l) && !l.Settle? && !l.Expire?
    ensures Bounded(c, Step(c, s, l))
  {
    if l.Arrive? {
      AddedKeepsBounded(c, s, Copy(l.mail, In(c.queue), |s|, 0, Arrived));
    } else {
      ConsumedKeepsBounded(c, s, l.id, Step(c, s, l)[l.id].place);
    }
  }

  /** A copy that is queued or with a consumer may move anywhere but to another queue. */
  lemma ConsumedKeepsBounded(c: Config, s: Copies, id: nat, place: Place)
    requires c.policy.Some? && Bounded(c, s) && DeadLettersApart(c) && id < |s|
    requires s[id].place.In? ==> s[id].place.queue == c.queue
    requires place.In? ==> place.queue == c.queue
    ensures Bounded(c, Moved(s, id, place))
  {
    MovedKeepsBounded(c, s, id, place);
  }

  lemma ExpireKeepsBounded(c: Config, kind: Kind, s: Copies, id: nat)
    requires Declared(c, kind) && c.policy.Some? && DeadLettersApart(c)
    requires Bounded(c, s) && Enabled(c, s, Expire(id))
    ensures Bounded(c, Step(c, s, Expire(id)))
  {
    var name := s[id].place.queue;
    ExpiresBack(c, kind, name);
    var i :| 0 <= i < |c.policy.value.delays| && name == RetryQueueFor(c.queue, c.policy.value.delays[i]);
    RetriesAreNotDeadLetters(c, kind, i);
    MovedKeepsBounded(c, s, id, In(c.queue));
  }

  lemma {:induction false} RunKeepsBounded(c: Config, kind: Kind, s: Copies, labels: seq<Label>)
    requires Declared(c, kind) && c.policy.Some? && DeadLettersApart(c)
    requires Bounded(c, s) && Runs(c, s, labels)
    ensures Bounded(c, Run(c, s, labels))
    decreases |labels|
  {
    if labels != [] {
      StepKeepsBounded(c, kind, s, labels[0]);
      RunKeepsBounded(c, kind, Step(c, s, labels[0]), labels[1..]);
    }
  }

  // ----- and exactly when -----

  lemma {:induction false} RunAppend(c: Config, s: Copies, a: seq<Label>, b: seq<Label>)
    requires Runs(c, s, a) && Runs(c, Run(c, s, a), b)
    ensures Runs(c, s, a + b) && Run(c, s, a + b) == Run(c, Run(c, s, a), b)
    decreases |a|
  {
    if a == [] {
      assert a + b == b;
    } else {
      RunAppend(c, Step(c, s, a[0]), a[1..], b);
      assert (a + b)[0] == a[0] && (a + b)[1..] == a[1..] + b;
    }
  }

  const FRESH := Mail(0, Properties(None, None, None, 0), map[])

  /** If dead letters go back to the consumed queue, an undecodable message counts failures for ever. */
  lemma {:induction false} Circles(c: Config, kind: Kind, times: nat) returns (labels: seq<Label>)
    requires Declared(c, kind) && !DeadLettersApart(c)
    ensures Runs(c, [], labels)
    ensures var s := Run(c, [], labels);
            |s| == times + 1 && s[times].place == In(c.queue) && s[times].first == 0
            && Attempts(s[times].mail) == times && s[0].mail == FRESH
  {
    if times == 0 {
      labels := [Arrive(FRESH)];
      assert labels[1..] == [];
      return;
    }
    var before := Circles(c, kind, times - 1);
    var s := Run(c, [], before);
    var id := times - 1;
    var copy := s[id];
    TargetIsDeclared(c, kind, times, false);
    StampedIsSameLetter(copy.mail, times, "");
    RunThree(c, s, Deliver(id), Fail(id, "", false), Settle(id));
    var more := [Deliver(id), Fail(id, "", false), Settle(id)];
    RunAppend(c, [], before, more);
    labels := before + more;
  }

  ghost predicate AlwaysBounded(c: Config)
    requires c.policy.Some?
  {
    forall labels :: Runs(c, [], labels) ==> Bounded(c, Run(c, [], labels))
  }

  /**
   * Failures stay within the bound, over every run, exactly when dead letters do not go to the
   * consumed queue itself.
   */
  lemma BoundedExactlyWhenApart(c: Config, kind: Kind)
    requires Declared(c, kind) && c.policy.Some?
    ensures AlwaysBounded(c) <==> DeadLettersApart(c)
  {
    if DeadLettersApart(c) {
      forall labels | Runs(c, [], labels) ensures Bounded(c, Run(c, [], labels)) {
        RunKeepsBounded(c, kind, [], labels);
      }
    } else {
      var times := |c.policy.value.delays| + 2;
      var labels := Circles(c, kind, times);
      var s := Run(c, [], labels);
      assert !WithinBound(c, s, times);
      assert !Bounded(c, s);
    }
  }

  /** So a message that arrives unmarked is counted as failing at most once more than it has delays. */
  lemma FailuresAreBounded(c: Config, kind: Kind, labels: seq<Label>, id: nat)
    requires Declared(c, kind) && c.policy.Some? && DeadLettersApart(c)
    requires Runs(c, [], labels) && id < |Run(c, [], labels)|
    requires var s := Run(c, [], labels); s[id].first < |s| ==> Attempts(s[s[id].first].mail) == 0
    ensures var s := Run(c, [], labels);
            && s[id].failures <= |c.policy.value.delays| + 1
            && (!InDeadLetters(c, s[id]) ==> s[id].failures <= |c.policy.value.delays|)
  {
    RunKeepsInv(c, kind, [], labels);
    RunKeepsBounded(c, kind, [], labels);
    var s := Run(c, [], labels);
    assert LetterOk(s, id) && WithinBound(c, s, id);
  }

  // ----- the code -----

  /** What decoding and handling a delivery came to. A cancellation leaves the message unacked. */
  datatype Handling = Decodes(handled: Result) | DoesNotDecode(error: string)
  datatype Result = Returns | Raises(error: string) | Cancelled

  /** The broker, with what a consumer does to it. */
  class Broker {
    const config: Config
    var copies: Copies

    constructor (config: Config)
      ensures this.config == config && copies == []
    {
      this.config, copies := config, [];
    }

    method BasicAck(id: nat)
      requires id < |copies| && (copies[id].place.Succeeded? || copies[id].place.Settled?)
      modifies this
      ensures copies == old(Step(config, copies, Ack(id)))
    {
      copies := copies[id := copies[id].(place := AckPlace(copies[id].place))];
    }

    /** Publish on a failed message and ack it, or nack it without a policy. */
    method FailMessage(id: nat, error: string, retry: bool)
      requires id < |copies| && copies[id].place == Handling
      modifies this
      ensures var labels := if config.policy.None? then [Fail(id, error, retry), Settle(id)]
                            else [Fail(id, error, retry), Settle(id), Ack(id)];
              Runs(config, old(copies), labels) && copies == Run(config, old(copies), labels)
    {
      ghost var s := copies;
      ghost var failed := Step(config, s, Fail(id, error, retry));
      ghost var settled := Step(config, failed, Settle(id));
      var copy := copies[id];
      if config.policy.None? {
        copies := copies[id := copy.(place := Discarded)];
        RunTwo(config, s, Fail(id, error, retry), Settle(id));
        return;
      }
      RunThree(config, s, Fail(id, error, retry), Settle(id), Ack(id));
      var attempts := Attempts(copy.mail) + 1;
      var target := if retry then RetryQueue(config.policy.value, config.queue, attempts) else None;
      if target.None? {
        target := DeadLetterTarget(config.policy.value, config.queue);
      }
      var next: Option<nat> := None;
      if target.Some? {
        if target.value in config.queues {
          next := Some(|copies|);
          var mail := Stamped(copy.mail, attempts, error);
          var origin := PublishedOn(id, error, retry, target.value);
          copies := copies + [Copy(mail, In(target.value), copy.first, copy.failures + 1, origin)];
        }
      }
      copies := copies[id := copy.(place := Settled(next))];
      assert copies == settled;
      BasicAck(id);
    }

    /** Decode a message and handle it in its scope, then ack it, or settle its failure. */
    method DeliverMessage(id: nat, outcome: Handling)
      requires id < |copies| && copies[id].place == Handling
      modifies this
      ensures var settle := if config.policy.None? then [Settle(id)] else [Settle(id), Ack(id)];
              var labels :=
                match outcome
                case DoesNotDecode(error) => [Fail(id, error, false)] + settle
                case Decodes(Raises(error)) => [Fail(id, error, true)] + settle
                case Decodes(Returns) => [Finish(id), Ack(id)]
                case Decodes(Cancelled) => [];
              Runs(config, old(copies), labels) && copies == Run(config, old(copies), labels)
    {
      match outcome {
        case DoesNotDecode(error) => FailMessage(id, error, false);
        case Decodes(Raises(error)) => FailMessage(id, error, true);
        case Decodes(Returns) =>
          RunTwo(config, copies, Finish(id), Ack(id));
          copies := copies[id := copies[id].(place := Succeeded)];
          BasicAck(id);
        case Decodes(Cancelled) =>
      }
    }
  }

  lemma RunTwo(c: Config, s: Copies, a: Label, b: Label)
    requires Enabled(c, s, a) && Enabled(c, Step(c, s, a), b)
    ensures Runs(c, s, [a, b]) && Run(c, s, [a, b]) == Step(c, Step(c, s, a), b)
  {
    assert [a, b][1..] == [b] && [b][1..] == [];
    assert Run(c, Step(c, s, a), [b]) == Step(c, Step(c, s, a), b);
  }

  lemma RunThree(c: Config, s: Copies, a: Label, b: Label, d: Label)
    requires Enabled(c, s, a) && Enabled(c, Step(c, s, a), b) && Enabled(c, Step(c, Step(c, s, a), b), d)
    ensures Runs(c, s, [a, b, d]) && Run(c, s, [a, b, d]) == Step(c, Step(c, Step(c, s, a), b), d)
  {
    assert [a, b, d][1..] == [b, d];
    RunTwo(c, Step(c, s, a), b, d);
  }
}
