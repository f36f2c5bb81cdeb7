/**
 * What a retry protocol's steps say of its copies: each one published on went to the queue for its
 * failure, and what was acked, dropped or dead-lettered had been handled, or had no retry left.
 */
module RetryHistory {
  import opened FailureQueues
  import opened Options
  import opened RetryProtocol

  /** Where dead letters go: the queue named for them, or the one of the consumed queue. */
  predicate IsDeadLetterQueue(p: Policy, queue: string, name: string) {
    && p.deadLetter
    && name == if p.deadLetterQueue.Some? && p.deadLetterQueue.value != "" then p.deadLetterQueue.value
               else queue + ".dead-letter"
  }

  /**
   * Whether a queue is the next one for a message that has now failed so many times: the one that holds
   * it for that failure's delay and then lets it back, or, with no retry left, the dead-letter queue.
   */
  predicate IsNext(c: Config, name: string, attempts: nat, retry: bool) {
    && c.policy.Some? && name in c.queues && attempts >= 1
    && var p := c.policy.value;
       if retry && attempts <= |p.delays|
       then c.queues[name] == Expiring(Milliseconds(p.delays[attempts - 1]), c.queue)
       else IsDeadLetterQueue(p, c.queue, name)
  }

  /** A failed message's next queue, and that there is none exactly if no retry is left and the policy drops. */
  lemma TargetIsNext(c: Config, kind: Kind, attempts: nat, retry: bool)
    requires Declared(c, kind) && c.policy.Some? && attempts >= 1
    ensures var p := c.policy.value;
            var target := Target(p, c.queue, attempts, retry);
            && (target.Some? ==> IsNext(c, target.value, attempts, retry))
            && (target.None? <==> !p.deadLetter && !(retry && attempts <= |p.delays|))
  {
    TargetIsDeclared(c, kind, attempts, retry);
    var p := c.policy.value;
    if retry && attempts <= |p.delays| {
      assert c.queues[RetryQueueFor(c.queue, p.delays[attempts - 1])] == Expiry(c.queue, p.delays[attempts - 1]);
    }
  }

  /** A message counts the failures that its header gives as a positive number, of which truth is one; else none. */
  lemma AttemptsAreRead(m: Mail, n: nat)
    ensures Attempts(m) == n <==>
            if ATTEMPTS in m.headers && m.headers[ATTEMPTS].Number? && m.headers[ATTEMPTS].n > 0
            then n == m.headers[ATTEMPTS].n
            else n == if ATTEMPTS in m.headers && m.headers[ATTEMPTS] == Flag(true) then 1 else 0
  {
  }

  // ----- what the steps so far say of a copy -----

  /** A copy failed with no retry left, under a policy that drops. */
  ghost predicate GaveUp(c: Config, done: seq<Label>, id: nat, mail: Mail) {
    && c.policy.Some? && !c.policy.value.deadLetter
    && exists error, retry ::
         Fail(id, error, retry) in done && !(retry && Attempts(mail) + 1 <= |c.policy.value.delays|)
  }

  ghost predicate HasFailed(done: seq<Label>, id: nat) {
    exists error, retry :: Fail(id, error, retry) in done
  }

  /** A copy arrived, or was published on for a failure, stamped with it, to the queue for it. */
  predicate CameRight(c: Config, done: seq<Label>, s: Copies, id: nat)
    requires id < |s|
  {
    match s[id].origin
    case Arrived =>
      Arrive(s[id].mail) in done && (s[id].place.In? ==> s[id].place.queue == c.queue)
    case PublishedOn(from, error, retry, queue) =>
      && from < id && Fail(from, error, retry) in done
      && s[id].mail == Stamped(s[from].mail, Attempts(s[from].mail) + 1, error)
      && IsNext(c, queue, Attempts(s[from].mail) + 1, retry)
      && (s[id].place.In? ==> s[id].place.queue == queue || s[id].place.queue == c.queue)
  }

  /** A copy is where it is for what was done with it. */
  ghost predicate PlacedRight(c: Config, done: seq<Label>, s: Copies, id: nat)
    requires id < |s|
  {
    match s[id].place
    case Failed(error, retry) => Fail(id, error, retry) in done
    case Succeeded => Finish(id) in done
    case Handled => Finish(id) in done
    case Settled(next) =>
      if next.None? then GaveUp(c, done, id, s[id].mail)
      else next.value < |s| && s[next.value].origin.PublishedOn? && s[next.value].origin.from == id
    case Superseded(heir) => heir < |s| && s[heir].origin.PublishedOn? && s[heir].origin.from == id
    case Dropped => GaveUp(c, done, id, s[id].mail)
    case Discarded => c.policy.None? && HasFailed(done, id)
    case _ => true
  }

  ghost predicate HistoryInv(c: Config, done: seq<Label>, s: Copies) {
    forall id :: 0 <= id < |s| ==> CameRight(c, done, s, id) && PlacedRight(c, done, s, id)
  }

  /** Copies are only added to, and moved: what was sent and why never changes. */
  predicate Follows(s: Copies, t: Copies) {
    |s| <= |t| && forall id :: 0 <= id < |s| ==> t[id].mail == s[id].mail && t[id].origin == s[id].origin
  }

  /** What is said of a copy that does not move stays so. */
  lemma CopyStays(c: Config, done: seq<Label>, l: Label, s: Copies, t: Copies, id: nat)
    requires id < |s| && Follows(s, t) && t[id].place == s[id].place
    requires CameRight(c, done, s, id) && PlacedRight(c, done, s, id)
    ensures CameRight(c, done + [l], t, id) && PlacedRight(c, done + [l], t, id)
  {
    assert forall m :: m in done ==> m in done + [l];
  }

  /** One that moves, to no queue but the one it waits to return to, still came as it did. */
  lemma CameStays(c: Config, done: seq<Label>, l: Label, s: Copies, t: Copies, id: nat)
    requires id < |s| && Follows(s, t) && CameRight(c, done, s, id)
    requires t[id].place.In? ==> t[id].place.queue == c.queue
    ensures CameRight(c, done + [l], t, id)
  {
    assert forall m :: m in done ==> m in done + [l];
  }

  lemma MovedHistory(c: Config, done: seq<Label>, l: Label, s: Copies, id: nat, place: Place)
    requires HistoryInv(c, done, s) && id < |s| && (place.In? ==> place.queue == c.queue)
    requires PlacedRight(c, done + [l], Moved(s, id, place), id)
    ensures HistoryInv(c, done + [l], Moved(s, id, place))
  {
    var t := Moved(s, id, place);
    forall i | 0 <= i < |t| ensures CameRight(c, done + [l], t, i) && PlacedRight(c, done + [l], t, i) {
      if i == id {
        CameStays(c, done, l, s, t, i);
      } else {
        CopyStays(c, done, l, s, t, i);
      }
    }
  }

  lemma ArrivedHistory(c: Config, done: seq<Label>, s: Copies, mail: Mail)
    requires HistoryInv(c, done, s)
    ensures HistoryInv(c, done + [Arrive(mail)], Step(c, s, Arrive(mail)))
  {
    var l := Arrive(mail);
    var t := Step(c, s, l);
    forall i | 0 <= i < |t| ensures CameRight(c, done + [l], t, i) && PlacedRight(c, done + [l], t, i) {
      if i < |s| {
        CopyStays(c, done, l, s, t, i);
      }
    }
  }

  /** Publishing a failed copy on makes a copy of it in the queue for its failure. */
  lemma PublishedHistory(c: Config, done: seq<Label>, kind: Kind, s: Copies, id: nat)
    requires Declared(c, kind) && c.policy.Some? && HistoryInv(c, done, s)
    requires id < |s| && s[id].place.Failed? && NextCopy(c, s[id], id).Some?
    ensures HistoryInv(c, done + [Settle(id)], SettleStep(c, s, id))
  {
    var l, t := Settle(id), SettleStep(c, s, id);
    assert PlacedRight(c, done, s, id) && CameRight(c, done, s, id);
    TargetIsNext(c, kind, Attempts(s[id].mail) + 1, s[id].place.retry);
    assert Fail(id, s[id].place.error, s[id].place.retry) in done + [l];
    forall i | 0 <= i < |t| ensures CameRight(c, done + [l], t, i) && PlacedRight(c, done + [l], t, i) {
      if i == id {
        CameStays(c, done, l, s, t, i);
      } else if i < |s| {
        CopyStays(c, done, l, s, t, i);
      }
    }
  }

  lemma SettledHistory(c: Config, done: seq<Label>, kind: Kind, s: Copies, id: nat)
    requires Declared(c, kind) && HistoryInv(c, done, s) && id < |s| && s[id].place.Failed?
    ensures HistoryInv(c, done + [Settle(id)], SettleStep(c, s, id))
  {
    var l, copy := Settle(id), s[id];
    assert PlacedRight(c, done, s, id);
    assert Fail(id, copy.place.error, copy.place.retry) in done + [l];
    if c.policy.None? {
      MovedHistory(c, done, l, s, id, Discarded);
    } else if NextCopy(c, copy, id).Some? {
      PublishedHistory(c, done, kind, s, id);
    } else {
      TargetIsNext(c, kind, Attempts(copy.mail) + 1, copy.place.retry);
      TargetIsDeclared(c, kind, Attempts(copy.mail) + 1, copy.place.retry);
      assert GaveUp(c, done + [l], id, copy.mail);
      MovedHistory(c, done, l, s, id, Settled(None));
    }
  }

  lemma AckedHistory(c: Config, done: seq<Label>, s: Copies, id: nat)
    requires HistoryInv(c, done, s) && Enabled(c, s, Ack(id))
    ensures HistoryInv(c, done + [Ack(id)], Step(c, s, Ack(id)))
  {
    var l, place := Ack(id), AckPlace(s[id].place);
    assert PlacedRight(c, done, s, id);
    CopyStays(c, done, l, s, s, id);
    MovedHistory(c, done, l, s, id, place);
  }

  lemma StepKeepsHistory(c: Config, kind: Kind, done: seq<Label>, s: Copies, l: Label)
    requires Declared(c, kind) && HistoryInv(c, done, s) && Enabled(c, s, l)
    ensures HistoryInv(c, done + [l], Step(c, s, l))
  {
    match l
    case Arrive(mail) => ArrivedHistory(c, done, s, mail);
    case Deliver(id) => MovedHistory(c, done, l, s, id, RetryProtocol.Place.Handling);
    case Finish(id) => MovedHistory(c, done, l, s, id, Succeeded);
    case Fail(id, error, retry) => MovedHistory(c, done, l, s, id, Failed(error, retry));
    case Settle(id) => SettledHistory(c, done, kind, s, id);
    case Ack(id) => AckedHistory(c, done, s, id);
    case Redeliver(id) => MovedHistory(c, done, l, s, id, In(c.queue));
    case Expire(id) =>
      ExpiresBack(c, kind, s[id].place.queue);
      MovedHistory(c, done, l, s, id, In(c.queue));
  }

  lemma {:induction false} RunKeepsHistory(c: Config, kind: Kind, done: seq<Label>, s: Copies, labels: seq<Label>)
    requires Declared(c, kind) && HistoryInv(c, done, s) && Runs(c, s, labels)
    ensures HistoryInv(c, done + labels, Run(c, s, labels))
    decreases |labels|
  {
    if labels == [] {
      assert done + labels == done;
    } else {
      StepKeepsHistory(c, kind, done, s, labels[0]);
      RunKeepsHistory(c, kind, done + [labels[0]], Step(c, s, labels[0]), labels[1..]);
      assert done + [labels[0]] + labels[1..] == done + labels;
    }
  }

  lemma CopyHistory(c: Config, kind: Kind, labels: seq<Label>, id: nat)
    requires Declared(c, kind) && Runs(c, [], labels) && id < |Run(c, [], labels)|
    ensures CameRight(c, labels, Run(c, [], labels), id) && PlacedRight(c, labels, Run(c, [], labels), id)
  {
    RunKeepsHistory(c, kind, [], [], labels);
    assert [] + labels == labels;
  }

  // ----- main results, over every run -----

  /**
   * A copy that a failure was published on as carries that failure's stamp, and went to the queue for
   * it. If its handling failed and it has not counted more failures than there are delays, that is a
   * queue that holds it for just the delay of this failure, and then returns it to the consumed one.
   */
  lemma FailuresAreRetried(c: Config, kind: Kind, labels: seq<Label>, id: nat)
    requires Declared(c, kind) && Runs(c, [], labels) && id < |Run(c, [], labels)|
    requires Run(c, [], labels)[id].origin.PublishedOn?
    ensures var s := Run(c, [], labels);
            var PublishedOn(from, error, retry, queue) := s[id].origin;
            && from < id && Fail(from, error, retry) in labels && c.policy.Some?
            && s[id].mail == Stamped(s[from].mail, Attempts(s[from].mail) + 1, error)
            && (s[id].place.In? ==> s[id].place.queue == queue || s[id].place.queue == c.queue)
            && queue in c.queues
            && var delays := c.policy.value.delays;
               if retry && Attempts(s[id].mail) <= |delays|
               then c.queues[queue] == Expiring(Milliseconds(delays[Attempts(s[id].mail) - 1]), c.queue)
               else IsDeadLetterQueue(c.policy.value, c.queue, queue)
  {
    CopyHistory(c, kind, labels, id);
    NextForItsFailure(c, labels, Run(c, [], labels), id);
  }

  lemma NextForItsFailure(c: Config, done: seq<Label>, s: Copies, id: nat)
    requires id < |s| && CameRight(c, done, s, id) && s[id].origin.PublishedOn?
    ensures Attempts(s[id].mail) == Attempts(s[s[id].origin.from].mail) + 1
    ensures IsNext(c, s[id].origin.queue, Attempts(s[id].mail), s[id].origin.retry)
  {
    StampedIsSameLetter(s[s[id].origin.from].mail, Attempts(s[s[id].origin.from].mail) + 1, s[id].origin.error);
  }

  /** A message is acked only after its handling finished, or as a copy that another stands for, or was dropped. */
  lemma AckedFor(c: Config, kind: Kind, labels: seq<Label>, id: nat)
    requires Declared(c, kind) && Runs(c, [], labels) && id < |Run(c, [], labels)|
    ensures var s := Run(c, [], labels);
            && (s[id].place.Handled? ==> Finish(id) in labels)
            && (s[id].place.Superseded? ==>
                  && s[id].place.heir < |s| && s[s[id].place.heir].origin.PublishedOn?
                  && s[s[id].place.heir].origin.from == id)
  {
    CopyHistory(c, kind, labels, id);
  }

  /**
   * A copy is dropped, or dead-lettered, only if it failed without a retry, as one that does not decode
   * does, or had counted as many failures as there are delays.
   */
  lemma GivenUpWithNoRetryLeft(c: Config, kind: Kind, labels: seq<Label>, id: nat)
    requires Declared(c, kind) && c.policy.Some? && DeadLettersApart(c)
    requires Runs(c, [], labels) && id < |Run(c, [], labels)|
    ensures var s := Run(c, [], labels);
            && (s[id].place.Dropped? ==>
                  exists error, retry ::
                    Fail(id, error, retry) in labels && (retry ==> Attempts(s[id].mail) >= |c.policy.value.delays|))
            && (InDeadLetters(c, s[id]) ==>
                  && s[id].origin.PublishedOn? && s[id].origin.from < id
                  && Fail(s[id].origin.from, s[id].origin.error, s[id].origin.retry) in labels
                  && (s[id].origin.retry ==> Attempts(s[s[id].origin.from].mail) >= |c.policy.value.delays|))
  {
    var s := Run(c, [], labels);
    CopyHistory(c, kind, labels, id);
    if s[id].place.Dropped? {
      var error, retry :|
        Fail(id, error, retry) in labels && !(retry && Attempts(s[id].mail) + 1 <= |c.policy.value.delays|);
    }
  }
}
