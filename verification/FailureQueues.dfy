/**
 * A failure policy's queues: their names, their delays, and their declaration. Delays are real
 * numbers of seconds, and a queue's message TTL is a whole number of milliseconds.
 */
module FailureQueues {
  import opened Options

  datatype Policy = Policy(delays: seq<real>, deadLetter: bool, deadLetterQueue: Option<string>)

  /** Why a policy cannot be created, if it cannot. */
  datatype PolicyError = NonPositiveDelay(delay: real) | DropWithQueue

  /** The error for the first delay that is not positive, or for a queue that nothing would go to. */
  method CheckPolicy(p: Policy) returns (error: Option<PolicyError>)
    ensures error.None? <==> ValidPolicy(p)
    ensures error.Some? && error.value.NonPositiveDelay? ==>
              exists i :: 0 <= i < |p.delays| && p.delays[i] <= 0.0 && error.value.delay == p.delays[i]
                       && forall j :: 0 <= j < i ==> p.delays[j] > 0.0
  {
    for i := 0 to |p.delays|
      invariant forall j :: 0 <= j < i ==> p.delays[j] > 0.0
    {
      if p.delays[i] <= 0.0 {
        return Some(NonPositiveDelay(p.delays[i]));
      }
    }
    return if !p.deadLetter && p.deadLetterQueue.Some? then Some(DropWithQueue) else None;
  }

  predicate ValidPolicy(p: Policy) {
    && (forall i :: 0 <= i < |p.delays| ==> p.delays[i] > 0.0)
    && (p.deadLetter || p.deadLetterQueue.None?)
  }

  // ----- delays and names -----

  /** The nearest whole number, and of two as near, the even one. */
  function Round(x: real): int {
    var below := x.Floor;
    var rest := x - below as real;
    if rest < 0.5 || (rest == 0.5 && below % 2 == 0) then below else below + 1
  }

  /** It is nearest, and even if two are as near. */
  lemma RoundIsNearest(x: real)
    ensures -0.5 <= x - Round(x) as real <= 0.5
    ensures x - Round(x) as real == 0.5 || x - Round(x) as real == -0.5 ==> Round(x) % 2 == 0
  {
    assert x.Floor as real <= x < x.Floor as real + 1.0;
  }

  function Milliseconds(delay: real): int {
    var whole := Round(delay * 1000.0);
    if whole < 1 then 1 else whole
  }

  /** A queue's TTL is a positive number, within half a millisecond of the delay if it can be. */
  lemma TtlIsDelay(delay: real)
    requires delay > 0.0
    ensures Milliseconds(delay) >= 1
    ensures var ttl := Milliseconds(delay) as real;
            if delay * 1000.0 <= 0.5 then ttl == 1.0
            else ttl - 0.5 <= delay * 1000.0 <= ttl + 0.5
    ensures delay * 1000.0 > 1.0 && (delay * 1000.0).Floor as real + 0.5 == delay * 1000.0 ==>
              Milliseconds(delay) % 2 == 0
  {
    var x := delay * 1000.0;
    assert x.Floor as real <= x < x.Floor as real + 1.0;
    RoundIsNearest(x);
  }

  function Digits(n: nat): (s: string)
    ensures |s| == 1 <==> n < 10
    ensures s != []
  {
    var last := [('0' as int + n % 10) as char];
    if n < 10 then last else Digits(n / 10) + last
  }

  lemma {:induction false} DigitsInjective(a: nat, b: nat)
    requires Digits(a) == Digits(b)
    ensures a == b
  {
    var da, db := Digits(a), Digits(b);
    assert da[|da| - 1] == ('0' as int + a % 10) as char && db[|db| - 1] == ('0' as int + b % 10) as char;
    assert a % 10 == b % 10;
    if a >= 10 && b >= 10 {
      assert Digits(a / 10) == da[..|da| - 1] && Digits(b / 10) == db[..|db| - 1];
      DigitsInjective(a / 10, b / 10);
    }
  }

  const RETRY := ".retry."
  const DEAD_LETTER := ".dead-letter"

  function RetryName(queue: string, ttl: nat): string {
    queue + RETRY + Digits(ttl)
  }

  function RetryQueueFor(queue: string, delay: real): string {
    var ttl := Milliseconds(delay);
    RetryName(queue, ttl)
  }

  lemma RetryNameInjective(queue: string, a: nat, b: nat)
    requires RetryName(queue, a) == RetryName(queue, b)
    ensures a == b
  {
    var n := |queue + RETRY|;
    assert RetryName(queue, a)[n..] == Digits(a) && RetryName(queue, b)[n..] == Digits(b);
    DigitsInjective(a, b);
  }

  lemma RetryIsNotConsumed(queue: string, ttl: nat)
    ensures RetryName(queue, ttl) != queue
  {
    assert |RetryName(queue, ttl)| > |queue|;
  }

  lemma DefaultDeadLetterIsItsOwn(queue: string, ttl: nat)
    ensures RetryName(queue, ttl) != queue + DEAD_LETTER && queue + DEAD_LETTER != queue
  {
    assert RetryName(queue, ttl)[|queue| + 1] == 'r';
    assert (queue + DEAD_LETTER)[|queue| + 1] == 'd';
    assert |queue + DEAD_LETTER| > |queue|;
  }

  /** The retry queue for a message's `attempt`-th failure, or none past the last delay. */
  function RetryQueue(p: Policy, queue: string, attempt: nat): Option<string>
    requires attempt >= 1
  {
    if attempt > |p.delays| then None else Some(RetryQueueFor(queue, p.delays[attempt - 1]))
  }

  /** Where messages go once retries run out, or none to drop them. */
  function DeadLetterTarget(p: Policy, queue: string): Option<string> {
    if !p.deadLetter then None
    else if p.deadLetterQueue.Some? && p.deadLetterQueue.value != "" then p.deadLetterQueue
    else Some(queue + DEAD_LETTER)
  }

  // ----- declaring them -----

  /** What a queue does: hold messages, expire them into another, or hold them with other arguments. */
  datatype Kind = Plain | Expiring(ttl: nat, into: string) | Custom

  type Queues = map<string, Kind>

  /** A broker refuses to declare a queue again with other arguments. */
  function DeclareOne(queues: Queues, name: string, kind: Kind): Option<Queues> {
    if name in queues && queues[name] != kind then None else Some(queues[name := kind])
  }

  /** The first occurrences, in order. */
  function Distinct(s: seq<real>): (r: seq<real>)
    ensures forall x :: x in r <==> x in s
  {
    if s == [] then []
    else
      var last := s[|s| - 1];
      var front := Distinct(s[..|s| - 1]);
      if last in front then front else front + [last]
  }

  function Expiry(queue: string, delay: real): Kind {
    var ttl := Milliseconds(delay);
    Expiring(ttl, queue)
  }

  predicate IsRetry(queue: string, delays: seq<real>, name: string) {
    exists i :: 0 <= i < |delays| && name == RetryQueueFor(queue, delays[i])
  }

  /** What declaring the retry queues of the first delays leaves declared. */
  ghost predicate RetriesDeclared(queue: string, delays: seq<real>, before: Queues, after: Queues) {
    && (forall i :: 0 <= i < |delays| ==> RetryQueueFor(queue, delays[i]) in after)
    && (forall i :: 0 <= i < |delays| ==> after[RetryQueueFor(queue, delays[i])] == Expiry(queue, delays[i]))
    && (forall name :: name in before ==> name in after && after[name] == before[name])
    && (forall name :: name in after ==> name in before || IsRetry(queue, delays, name))
  }

  lemma RetryDeclared(queue: string, delays: seq<real>, before: Queues, after: Queues, delay: real)
    requires RetriesDeclared(queue, delays, before, after)
    requires DeclareOne(after, RetryQueueFor(queue, delay), Expiry(queue, delay)).Some?
    ensures RetriesDeclared(queue, delays + [delay], before,
                            DeclareOne(after, RetryQueueFor(queue, delay), Expiry(queue, delay)).value)
  {
    var name := RetryQueueFor(queue, delay);
    var all := delays + [delay];
    assert all[|delays|] == delay;
    forall other | IsRetry(queue, delays, other) || other == name ensures IsRetry(queue, all, other) {
      if other != name {
        var i :| 0 <= i < |delays| && other == RetryQueueFor(queue, delays[i]);
        assert all[i] == delays[i];
      }
    }
  }

  /** Among retry queues only, names never clash: queues with one name have one TTL. */
  lemma RetriesNeverClash(queue: string, delays: seq<real>, kind: Kind, after: Queues, delay: real)
    requires RetriesDeclared(queue, delays, map[queue := kind], after)
    ensures DeclareOne(after, RetryQueueFor(queue, delay), Expiry(queue, delay)).Some?
  {
    var name := RetryQueueFor(queue, delay);
    RetryIsNotConsumed(queue, Milliseconds(delay));
    if name in after {
      var i :| 0 <= i < |delays| && name == RetryQueueFor(queue, delays[i]);
      RetryNameInjective(queue, Milliseconds(delay), Milliseconds(delays[i]));
    }
  }

  /** The queues a consumer needs: its own, a retry queue for each delay, and the dead-letter queue. */
  ghost predicate AllDeclared(p: Policy, queue: string, kind: Kind, queues: Queues) {
    && queue in queues && queues[queue] == kind
    && (forall i :: 0 <= i < |p.delays| ==> RetryQueueFor(queue, p.delays[i]) in queues)
    && (forall i :: 0 <= i < |p.delays| ==> queues[RetryQueueFor(queue, p.delays[i])] == Expiry(queue, p.delays[i]))
    && (DeadLetterTarget(p, queue).Some? ==>
          && DeadLetterTarget(p, queue).value in queues
          && queues[DeadLetterTarget(p, queue).value] == Plain)
    && (forall name :: name in queues ==>
          name == queue || IsRetry(queue, p.delays, name) || DeadLetterTarget(p, queue) == Some(name))
  }

  /** Whether a dead-letter queue can be declared beside the others. */
  ghost predicate Compatible(p: Policy, queue: string, kind: Kind) {
    var target := DeadLetterTarget(p, queue);
    target.Some? ==>
      && !IsRetry(queue, p.delays, target.value)
      && (target.value == queue ==> kind == Plain)
  }

  /**
   * Declare a policy's queues beside the consumed one, which is declared as `kind`. It fails exactly
   * when the dead-letter queue is one of the others under other arguments. If it succeeds, every
   * queue is there with the right TTL, expiring into the consumed queue, and no other is.
   */
  method DeclareFailureQueues(p: Policy, queue: string, kind: Kind) returns (declared: Option<Queues>)
    requires !kind.Expiring?
    ensures declared.Some? <==> Compatible(p, queue, kind)
    ensures declared.Some? ==> AllDeclared(p, queue, kind, declared.value)
  {
    var queues := map[queue := kind];
    var delays := Distinct(p.delays);
    for i := 0 to |delays|
      invariant RetriesDeclared(queue, delays[..i], map[queue := kind], queues)
    {
      RetriesNeverClash(queue, delays[..i], kind, queues, delays[i]);
      RetryDeclared(queue, delays[..i], map[queue := kind], queues, delays[i]);
      assert delays[..i] + [delays[i]] == delays[..i + 1];
      queues := DeclareOne(queues, RetryQueueFor(queue, delays[i]), Expiry(queue, delays[i])).value;
    }
    assert delays[..|delays|] == delays;
    DistinctRetries(p, queue, kind, queues);
    var target := DeadLetterTarget(p, queue);
    if target.None? {
      return Some(queues);
    }
    declared := DeclareOne(queues, target.value, Plain);
  }

  /** Dropping repeated delays drops no queue. */
  lemma DistinctRetries(p: Policy, queue: string, kind: Kind, queues: Queues)
    requires RetriesDeclared(queue, Distinct(p.delays), map[queue := kind], queues)
    ensures RetriesDeclared(queue, p.delays, map[queue := kind], queues)
    ensures forall name :: IsRetry(queue, p.delays, name) ==> name in queues && queues[name].Expiring?
    ensures forall name :: IsRetry(queue, p.delays, name) ==> name != queue
  {
    var delays := Distinct(p.delays);
    forall i | 0 <= i < |p.delays|
      ensures RetryQueueFor(queue, p.delays[i]) in queues
      ensures queues[RetryQueueFor(queue, p.delays[i])] == Expiry(queue, p.delays[i])
      ensures RetryQueueFor(queue, p.delays[i]) != queue
    {
      assert p.delays[i] in delays;
      var j :| 0 <= j < |delays| && delays[j] == p.delays[i];
      assert RetryQueueFor(queue, delays[j]) in queues;
      RetryIsNotConsumed(queue, Milliseconds(p.delays[i]));
    }
    forall name | name in queues && name != queue ensures IsRetry(queue, p.delays, name) {
      var j :| 0 <= j < |delays| && name == RetryQueueFor(queue, delays[j]);
      assert delays[j] in p.delays;
      var i :| 0 <= i < |p.delays| && p.delays[i] == delays[j];
    }
  }
}
