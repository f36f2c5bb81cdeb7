/**
 * The relay's code for one batch, over the in-memory store: what it leaves of each record, and
 * that it is a run of the relays' steps.
 */
module RelayBatch {
  import opened Options
  import opened OutboxStore
  import R = OutboxRelay

  /** How publishing one record went: an outage is the broker's, an interruption stops the relay. */
  datatype Outcome =
    | Published
    | Fails(error: string, now: int)
    | Outage
    | Interrupted

  datatype Settings = Settings(maxAttempts: Option<int>, retryDelay: nat, maxRetryDelay: nat, batchSize: nat)

  // ----- retry delays -----

  function Power2(n: nat): nat {
    if n == 0 then 1 else 2 * Power2(n - 1)
  }

  /** The wait before a record's next attempt, after its `attempts`-th failure. */
  function RetryDelay(p: Settings, attempts: nat): nat
    requires attempts >= 1
  {
    var delay := p.retryDelay * Power2(attempts - 1);
    if delay < p.maxRetryDelay then delay else p.maxRetryDelay
  }

  /** The first wait is the delay given, and each next one twice the last, as long as that is not too long. */
  lemma {:induction false} RetryDelayGrows(p: Settings, attempts: nat)
    requires attempts >= 1
    ensures RetryDelay(p, 1) == if p.retryDelay < p.maxRetryDelay then p.retryDelay else p.maxRetryDelay
    ensures RetryDelay(p, attempts + 1) ==
            if 2 * RetryDelay(p, attempts) < p.maxRetryDelay then 2 * RetryDelay(p, attempts) else p.maxRetryDelay
    ensures RetryDelay(p, attempts) <= RetryDelay(p, attempts + 1) <= p.maxRetryDelay
  {
    var before := p.retryDelay * Power2(attempts - 1);
    assert Power2(attempts) == 2 * Power2(attempts - 1);
    assert p.retryDelay * Power2(attempts) == 2 * before;
  }

  // ----- what a batch does -----

  datatype Effect = Effect(store: Store, sent: seq<Record>, outage: bool)

  function AfterFailure(p: Settings, s: Store, r: Record, error: string, now: int): Store {
    R.AfterFailure(p.maxAttempts, s, r, error, now + RetryDelay(p, r.attempts + 1))
  }

  /** The rest of a batch from `at` on, before what was sent is marked. */
  function Relay(
    p: Settings, s: Store, records: seq<Record>, outcomes: seq<Outcome>, at: nat, sent: seq<Record>
  ): Effect
    requires at <= |records| <= |outcomes|
    decreases |records| - at
  {
    if at == |records| then Effect(s, sent, false)
    else match outcomes[at]
      case Published => Relay(p, s, records, outcomes, at + 1, sent + [records[at]])
      case Fails(error, now) => Relay(p, AfterFailure(p, s, records[at], error, now), records, outcomes, at + 1, sent)
      case Outage => Effect(SettledAll(s, records[at..], Pending), sent, true)
      case Interrupted => Effect(s, sent, false)
  }

  /** A whole batch: however it ends, what was sent is marked. */
  function RelayAndMark(p: Settings, s: Store, records: seq<Record>, outcomes: seq<Outcome>): Effect
    requires |records| <= |outcomes|
  {
    var e := Relay(p, s, records, outcomes, 0, []);
    e.(store := SettledAll(e.store, e.sent, Sent))
  }

  /** The code: publish each record claimed, and at the end, however it ends, mark what was sent. */
  class OutboxRelay {
    const settings: Settings
    const store: InMemoryOutboxStore

    constructor (settings: Settings, store: InMemoryOutboxStore)
      ensures this.settings == settings && this.store == store
    {
      this.settings, this.store := settings, store;
    }

    /** Count a failed attempt: retry the record later, or park it once out of attempts. */
    method FailRecord(record: Record, error: string, now: int)
      requires ValidStore(store.Value())
      modifies store
      ensures ValidStore(store.Value())
      ensures store.Value() == AfterFailure(settings, old(store.Value()), record, error, now)
    {
      var attempts := record.attempts + 1;
      var failed := record.(attempts := attempts, error := Some(error));
      if settings.maxAttempts.Some? && attempts >= settings.maxAttempts.value {
        store.Settle(failed, Parked);
        return;
      }
      store.Settle(failed.(availableAt := now + RetryDelay(settings, attempts)), Pending);
    }

    /** Claim a batch and relay it, given the time and how each publish will go. */
    method RelayOnce(now: int, outcomes: seq<Outcome>)
      returns (claimed: seq<Record>, sent: seq<Record>, outage: bool)
      requires ValidStore(store.Value()) && |outcomes| >= settings.batchSize
      modifies store
      ensures ValidStore(store.Value())
      ensures Claims(old(store.Value()), claimed, now, settings.batchSize)
      ensures |claimed| <= |outcomes|
      ensures var leased := Leased(old(store.Value()), claimed, now + store.lease);
              Effect(store.Value(), sent, outage) == RelayAndMark(settings, leased, claimed, outcomes)
    {
      ghost var before := store.Value();
      claimed := store.Claim(now, settings.batchSize);
      assert |claimed| <= settings.batchSize && store.Value() == Leased(before, claimed, now + store.lease);
      sent, outage := RelayAndMarkClaimed(claimed, outcomes);
    }

    method RelayAndMarkClaimed(claimed: seq<Record>, outcomes: seq<Outcome>) returns (sent: seq<Record>, outage: bool)
      requires ValidStore(store.Value()) && |claimed| <= |outcomes|
      modifies store
      ensures ValidStore(store.Value())
      ensures Effect(store.Value(), sent, outage) == RelayAndMark(settings, old(store.Value()), claimed, outcomes)
    {
      sent, outage := RelayClaimed(claimed, outcomes);
      if sent != [] {
        store.SettleAll(sent, Sent);
      }
    }

    method RelayClaimed(claimed: seq<Record>, outcomes: seq<Outcome>) returns (sent: seq<Record>, outage: bool)
      requires ValidStore(store.Value()) && |claimed| <= |outcomes|
      modifies store
      ensures ValidStore(store.Value())
      ensures Effect(store.Value(), sent, outage) == Relay(settings, old(store.Value()), claimed, outcomes, 0, [])
    {
      ghost var whole := Relay(settings, store.Value(), claimed, outcomes, 0, []);
      sent, outage := [], false;
      for at := 0 to |claimed|
        invariant ValidStore(store.Value()) && !outage
        invariant Relay(settings, store.Value(), claimed, outcomes, at, sent) == whole
      {
        match outcomes[at] {
          case Published => sent := sent + [claimed[at]];
          case Fails(error, when) => FailRecord(claimed[at], error, when);
          case Outage =>
            store.SettleAll(claimed[at..], Pending);
            outage := true;
            return;
          case Interrupted => return;
        }
      }
    }
  }

  // ----- what is left of each record -----

  /** The first position from `at` on where the relay stops publishing. */
  function StopsAt(outcomes: seq<Outcome>, n: nat, at: nat): (r: nat)
    requires at <= n <= |outcomes|
    ensures at <= r <= n
    decreases n - at
  {
    if at == n || outcomes[at].Outage? || outcomes[at].Interrupted? then at else StopsAt(outcomes, n, at + 1)
  }

  /** What the batch leaves of one of its records. */
  predicate LeftAs(s: Store, record: Record, status: Status) {
    && record.id in s.records && s.records[record.id] == record
    && record.id in s.status && s.status[record.id] == status && record.id !in s.leased
  }

  predicate SameOf(s: Store, t: Store, id: Id) {
    && (id in s.records <==> id in t.records) && (id in s.records ==> s.records[id] == t.records[id])
    && (id in s.status <==> id in t.status) && (id in s.status ==> s.status[id] == t.status[id])
    && (id in s.leased <==> id in t.leased) && (id in s.leased ==> s.leased[id] == t.leased[id])
  }

  predicate NotAmong(records: seq<Record>, id: Id) {
    forall i :: 0 <= i < |records| ==> records[i].id != id
  }

  lemma {:induction false} SettledAllMeans(s: Store, records: seq<Record>, status: Status, id: Id)
    requires DistinctIds(records)
    ensures forall i :: 0 <= i < |records| && records[i].id == id ==>
              LeftAs(SettledAll(s, records, status), records[i], status)
    ensures NotAmong(records, id) ==> SameOf(s, SettledAll(s, records, status), id)
    decreases |records|
  {
    if records != [] {
      SettledAllMeans(Settled(s, records[0], status), records[1..], status, id);
      if records[0].id == id {
        assert NotAmong(records[1..], id);
      }
    }
  }

  /** The records published from `at` on, in order. */
  function PublishedFrom(records: seq<Record>, outcomes: seq<Outcome>, at: nat): seq<Record>
    requires at <= |records| <= |outcomes|
    decreases |records| - at
  {
    if at == |records| || outcomes[at].Outage? || outcomes[at].Interrupted? then []
    else (if outcomes[at].Published? then [records[at]] else []) + PublishedFrom(records, outcomes, at + 1)
  }

  lemma {:induction false} PublishedAreDistinct(records: seq<Record>, outcomes: seq<Outcome>, at: nat)
    requires at <= |records| <= |outcomes| && DistinctIds(records)
    ensures DistinctIds(PublishedFrom(records, outcomes, at))
    ensures forall r :: r in PublishedFrom(records, outcomes, at) <==>
              exists k :: at <= k < StopsAt(outcomes, |records|, at) && records[k] == r && outcomes[k].Published?
    decreases |records| - at
  {
    if at < |records| && !outcomes[at].Outage? && !outcomes[at].Interrupted? {
      PublishedAreDistinct(records, outcomes, at + 1);
      var rest := PublishedFrom(records, outcomes, at + 1);
      forall k | 0 <= k < |rest| ensures rest[k].id != records[at].id {
        assert rest[k] in rest;
      }
    }
  }

  predicate SendsPublished(e: Effect, records: seq<Record>, outcomes: seq<Outcome>, at: nat, sent: seq<Record>)
    requires at <= |records| <= |outcomes|
  {
    var stop := StopsAt(outcomes, |records|, at);
    && e.sent == sent + PublishedFrom(records, outcomes, at)
    && e.outage == (stop < |records| && outcomes[stop].Outage?)
  }

  /** One record more that was published, or that failed. */
  lemma SendsMore(e: Effect, records: seq<Record>, outcomes: seq<Outcome>, at: nat, sent: seq<Record>)
    requires at < |records| <= |outcomes| && (outcomes[at].Published? || outcomes[at].Fails?)
    requires var more := if outcomes[at].Published? then sent + [records[at]] else sent;
             SendsPublished(e, records, outcomes, at + 1, more)
    ensures SendsPublished(e, records, outcomes, at, sent)
  {
    var rest := PublishedFrom(records, outcomes, at + 1);
    if outcomes[at].Published? {
      assert PublishedFrom(records, outcomes, at) == [records[at]] + rest;
      assert sent + [records[at]] + rest == sent + ([records[at]] + rest);
    } else {
      assert PublishedFrom(records, outcomes, at) == rest;
    }
  }

  /** A relay reports as sent exactly what it published, and an outage if that is why it stopped. */
  lemma {:induction false} RelaySends(
    p: Settings, s: Store, records: seq<Record>, outcomes: seq<Outcome>, at: nat, sent: seq<Record>
  )
    requires at <= |records| <= |outcomes|
    ensures SendsPublished(Relay(p, s, records, outcomes, at, sent), records, outcomes, at, sent)
    decreases |records| - at
  {
    var e := Relay(p, s, records, outcomes, at, sent);
    if at < |records| && outcomes[at].Published? {
      RelayOnPublish(p, s, records, outcomes, at, sent);
      RelaySends(p, s, records, outcomes, at + 1, sent + [records[at]]);
      SendsMore(e, records, outcomes, at, sent);
    } else if at < |records| && outcomes[at].Fails? {
      var t := AfterFailure(p, s, records[at], outcomes[at].error, outcomes[at].now);
      RelayOnFailure(p, s, records, outcomes, at, sent, t);
      RelaySends(p, t, records, outcomes, at + 1, sent);
      SendsMore(e, records, outcomes, at, sent);
    } else {
      StopSends(p, s, records, outcomes, at, sent);
    }
  }

  lemma StopSends(p: Settings, s: Store, records: seq<Record>, outcomes: seq<Outcome>, at: nat, sent: seq<Record>)
    requires at <= |records| <= |outcomes| && StopsAt(outcomes, |records|, at) == at
    ensures SendsPublished(Relay(p, s, records, outcomes, at, sent), records, outcomes, at, sent)
  {
    assert PublishedFrom(records, outcomes, at) == [] && sent + [] == sent;
  }

  /** A failed record, and the status it is stored under. */
  function FailedAs(p: Settings, r: Record, error: string, now: int): (Record, Status) {
    var failed := r.(attempts := r.attempts + 1, error := Some(error));
    if p.maxAttempts.Some? && failed.attempts >= p.maxAttempts.value then (failed, Parked)
    else (failed.(availableAt := now + RetryDelay(p, failed.attempts)), Pending)
  }

  /** What the rest of a batch leaves of the record at `i`, before what was sent is marked. */
  predicate LeftUnmarked(
    p: Settings, s: Store, t: Store, records: seq<Record>, outcomes: seq<Outcome>, stop: nat, i: nat
  )
    requires i < |records| <= |outcomes| && stop <= |records|
  {
    var r := records[i];
    if i >= stop then
      if stop < |records| && outcomes[stop].Outage? then LeftAs(t, r, Pending) else SameOf(s, t, r.id)
    else if outcomes[i].Fails? then
      var failed := FailedAs(p, r, outcomes[i].error, outcomes[i].now);
      LeftAs(t, failed.0, failed.1)
    else SameOf(s, t, r.id)
  }

  predicate NoneFrom(records: seq<Record>, at: nat, id: Id) {
    forall i :: at <= i < |records| ==> records[i].id != id
  }

  lemma SameOfTrans(s: Store, t: Store, u: Store, id: Id)
    requires SameOf(s, t, id) && SameOf(t, u, id)
    ensures SameOf(s, u, id)
  {
  }

  /** The rest of a batch leaves alone every record that is not in it. */
  lemma {:induction false} RelayLeavesOthers(
    p: Settings, s: Store, records: seq<Record>, outcomes: seq<Outcome>, at: nat, sent: seq<Record>, id: Id
  )
    requires at <= |records| <= |outcomes| && DistinctIds(records) && NoneFrom(records, at, id)
    ensures SameOf(s, Relay(p, s, records, outcomes, at, sent).store, id)
    decreases |records| - at
  {
    if at < |records| {
      match outcomes[at]
      case Published => RelayLeavesOthers(p, s, records, outcomes, at + 1, sent + [records[at]], id);
      case Fails(error, now) =>
        var t := AfterFailure(p, s, records[at], error, now);
        RelayLeavesOthers(p, t, records, outcomes, at + 1, sent, id);
        SameOfTrans(s, t, Relay(p, t, records, outcomes, at + 1, sent).store, id);
      case Outage => SettledAllMeans(s, records[at..], Pending, id);
      case Interrupted =>
    }
  }

  /** What the rest of a batch leaves of one of its records. */
  lemma {:induction false} RelayLeaves(
    p: Settings, s: Store, records: seq<Record>, outcomes: seq<Outcome>, at: nat, sent: seq<Record>, i: nat
  )
    requires at <= i < |records| <= |outcomes| && DistinctIds(records)
    ensures LeftUnmarked(p, s, Relay(p, s, records, outcomes, at, sent).store, records, outcomes,
                         StopsAt(outcomes, |records|, at), i)
    decreases |records| - at
  {
    match outcomes[at]
    case Published =>
      if i == at {
        RelayLeavesOthers(p, s, records, outcomes, at + 1, sent + [records[at]], records[i].id);
      } else {
        RelayLeaves(p, s, records, outcomes, at + 1, sent + [records[at]], i);
      }
    case Fails(error, now) => FailureLeaves(p, s, records, outcomes, at, sent, i);
    case Outage => OutageLeaves(s, records, at, i);
    case Interrupted =>
  }

  lemma {:induction false} FailureLeaves(
    p: Settings, s: Store, records: seq<Record>, outcomes: seq<Outcome>, at: nat, sent: seq<Record>, i: nat
  )
    requires at <= i < |records| <= |outcomes| && DistinctIds(records) && outcomes[at].Fails?
    ensures LeftUnmarked(p, s, Relay(p, s, records, outcomes, at, sent).store, records, outcomes,
                         StopsAt(outcomes, |records|, at), i)
    decreases |records| - at, 0
  {
    var t := AfterFailure(p, s, records[at], outcomes[at].error, outcomes[at].now);
    RelayOnFailure(p, s, records, outcomes, at, sent, t);
    if i == at {
      RelayLeavesOthers(p, t, records, outcomes, at + 1, sent, records[i].id);
      FailedIsLeft(p, s, records[at], outcomes[at].error, outcomes[at].now);
    } else {
      RelayLeaves(p, t, records, outcomes, at + 1, sent, i);
      FailureIsApart(p, s, records[at], outcomes[at].error, outcomes[at].now, records[i].id);
    }
  }

  lemma FailedIsLeft(p: Settings, s: Store, r: Record, error: string, now: int)
    ensures var failed := FailedAs(p, r, error, now); LeftAs(AfterFailure(p, s, r, error, now), failed.0, failed.1)
  {
  }

  /**
   * What a failure stores: one attempt more, and its error; parked as it was available once out of
   * attempts, and otherwise pending, available again after the wait for that attempt.
   */
  lemma FailureStores(p: Settings, s: Store, r: Record, error: string, now: int)
    ensures var t := AfterFailure(p, s, r, error, now);
            && r.id in t.records && r.id in t.status && r.id !in t.leased
            && var failed := t.records[r.id];
               && failed.id == r.id && failed.content == r.content && failed.createdAt == r.createdAt
               && failed.attempts == r.attempts + 1 && failed.error == Some(error)
               && if p.maxAttempts.Some? && r.attempts + 1 >= p.maxAttempts.value
                  then t.status[r.id] == Parked && failed.availableAt == r.availableAt
                  else t.status[r.id] == Pending && failed.availableAt == now + RetryDelay(p, r.attempts + 1)
  {
  }

  /** So a record that failed is not claimed again before its wait is over, while it stays as it was stored. */
  lemma NotRetriedEarly(
    p: Settings, s: Store, r: Record, error: string, now: int, u: Store, claimed: seq<Record>, later: int, limit: nat
  )
    requires ValidStore(u) && r.id in u.records && u.records[r.id] == AfterFailure(p, s, r, error, now).records[r.id]
    requires u.status[r.id] == AfterFailure(p, s, r, error, now).status[r.id]
    requires Claims(u, claimed, later, limit) && u.records[r.id] in claimed
    ensures !(p.maxAttempts.Some? && r.attempts + 1 >= p.maxAttempts.value)
    ensures later >= now + RetryDelay(p, r.attempts + 1)
  {
    FailureStores(p, s, r, error, now);
    ClaimsMean(u, claimed, later, limit, u.records[r.id]);
  }

  lemma FailureIsApart(p: Settings, s: Store, r: Record, error: string, now: int, id: Id)
    requires id != r.id
    ensures SameOf(s, AfterFailure(p, s, r, error, now), id)
  {
  }

  lemma {:induction false} OutageLeaves(s: Store, records: seq<Record>, at: nat, i: nat)
    requires at <= i < |records| && DistinctIds(records)
    ensures LeftAs(SettledAll(s, records[at..], Pending), records[i], Pending)
  {
    SettledAllMeans(s, records[at..], Pending, records[i].id);
    assert records[at..][i - at] == records[i];
  }

  lemma MarkedMeans(p: Settings, s: Store, t: Store, records: seq<Record>, outcomes: seq<Outcome>, i: nat)
    requires i < |records| <= |outcomes| && DistinctIds(records)
    requires LeftUnmarked(p, s, t, records, outcomes, StopsAt(outcomes, |records|, 0), i)
    ensures var stop := StopsAt(outcomes, |records|, 0);
            var marked := SettledAll(t, PublishedFrom(records, outcomes, 0), Sent);
            if i < stop && outcomes[i].Published? then LeftAs(marked, records[i], Sent)
            else LeftUnmarked(p, s, marked, records, outcomes, stop, i)
  {
    var sent := PublishedFrom(records, outcomes, 0);
    PublishedAreDistinct(records, outcomes, 0);
    SettledAllMeans(t, sent, Sent, records[i].id);
    if i < StopsAt(outcomes, |records|, 0) && outcomes[i].Published? {
      assert records[i] in sent;
    } else {
      NotSent(records, outcomes, i);
    }
  }

  lemma SentAmong(records: seq<Record>, outcomes: seq<Outcome>, id: Id)
    requires |records| <= |outcomes| && DistinctIds(records) && NotAmong(records, id)
    ensures NotAmong(PublishedFrom(records, outcomes, 0), id)
  {
    PublishedAreDistinct(records, outcomes, 0);
    var sent := PublishedFrom(records, outcomes, 0);
    forall k | 0 <= k < |sent| ensures sent[k].id != id {
      assert sent[k] in sent;
    }
  }

  lemma NotSent(records: seq<Record>, outcomes: seq<Outcome>, i: nat)
    requires i < |records| <= |outcomes| && DistinctIds(records)
    requires i >= StopsAt(outcomes, |records|, 0) || !outcomes[i].Published?
    ensures NotAmong(PublishedFrom(records, outcomes, 0), records[i].id)
  {
    PublishedAreDistinct(records, outcomes, 0);
    var sent := PublishedFrom(records, outcomes, 0);
    forall k | 0 <= k < |sent| ensures sent[k].id != records[i].id {
      assert sent[k] in sent;
      var j :| 0 <= j < StopsAt(outcomes, |records|, 0) && records[j] == sent[k] && outcomes[j].Published?;
      assert j != i;
    }
  }

  /**
   * What a batch leaves of each of its records: sent if its publish returned, with one failure more
   * if it failed, as it was, and released, from an outage on, and untouched from an interruption on.
   */
  lemma BatchLeaves(p: Settings, s: Store, records: seq<Record>, outcomes: seq<Outcome>, i: nat)
    requires i < |records| <= |outcomes| && DistinctIds(records)
    ensures var t := RelayAndMark(p, s, records, outcomes).store;
            var stop := StopsAt(outcomes, |records|, 0);
            if i < stop && outcomes[i].Published? then LeftAs(t, records[i], Sent)
            else LeftUnmarked(p, s, t, records, outcomes, stop, i)
  {
    RelayLeaves(p, s, records, outcomes, 0, [], i);
    RelaySends(p, s, records, outcomes, 0, []);
    var e := Relay(p, s, records, outcomes, 0, []);
    assert e.sent == PublishedFrom(records, outcomes, 0);
    MarkedMeans(p, s, e.store, records, outcomes, i);
  }

  /** A batch touches no record but its own. */
  lemma BatchLeavesOthers(p: Settings, s: Store, records: seq<Record>, outcomes: seq<Outcome>, id: Id)
    requires |records| <= |outcomes| && DistinctIds(records) && NotAmong(records, id)
    ensures SameOf(s, RelayAndMark(p, s, records, outcomes).store, id)
  {
    RelayLeavesOthers(p, s, records, outcomes, 0, [], id);
    RelaySends(p, s, records, outcomes, 0, []);
    assert records[0..] == records;
    var e := Relay(p, s, records, outcomes, 0, []);
    assert e.sent == PublishedFrom(records, outcomes, 0);
    PublishedAreDistinct(records, outcomes, 0);
    SentAmong(records, outcomes, id);
    SettledAllMeans(e.store, e.sent, Sent, id);
  }

  // ----- a batch is a run of the relays' steps -----

  /** Nothing is published or failed, and nothing added. */
  predicate SameHistory(s: R.State, t: R.State) {
    s.added == t.added && s.published == t.published && s.failures == t.failures
  }

  /** Steps of one relay's open batch. */
  predicate Works(relay: R.RelayId, labels: seq<R.Label>) {
    forall i :: 0 <= i < |labels| ==> !labels[i].Add? && !labels[i].Claim? && labels[i].relay == relay
  }

  /** The ids of the records published from `at` on. */
  function PublishedIds(records: seq<Record>, outcomes: seq<Outcome>, at: nat): set<Id>
    requires at <= |records| <= |outcomes|
  {
    set r | r in PublishedFrom(records, outcomes, at) :: r.id
  }

  function FailuresOf(failures: map<Id, nat>, id: Id): nat {
    if id in failures then failures[id] else 0
  }

  /** The failures counted once the rest of a batch is done. */
  function FailuresAfter(failures: map<Id, nat>, records: seq<Record>, outcomes: seq<Outcome>, at: nat): map<Id, nat>
    requires at <= |records| <= |outcomes|
    decreases |records| - at
  {
    if at == |records| || outcomes[at].Outage? || outcomes[at].Interrupted? then failures
    else
      var id := records[at].id;
      var counted := if outcomes[at].Fails? then failures[id := FailuresOf(failures, id) + 1] else failures;
      FailuresAfter(counted, records, outcomes, at + 1)
  }

  lemma {:induction false} OthersNotCounted(
    failures: map<Id, nat>, records: seq<Record>, outcomes: seq<Outcome>, at: nat, id: Id
  )
    requires at <= |records| <= |outcomes| && NoneFrom(records, at, id)
    ensures FailuresOf(FailuresAfter(failures, records, outcomes, at), id) == FailuresOf(failures, id)
    decreases |records| - at
  {
    if at < |records| && !outcomes[at].Outage? && !outcomes[at].Interrupted? {
      var counted :=
        if outcomes[at].Fails? then failures[records[at].id := FailuresOf(failures, records[at].id) + 1] else failures;
      OthersNotCounted(counted, records, outcomes, at + 1, id);
    }
  }

  /** A record that fails before its batch stops is counted once more, and no other is. */
  lemma {:induction false} FailuresAfterMeans(
    failures: map<Id, nat>, records: seq<Record>, outcomes: seq<Outcome>, at: nat, i: nat
  )
    requires at <= i < |records| <= |outcomes| && DistinctIds(records)
    ensures FailuresOf(FailuresAfter(failures, records, outcomes, at), records[i].id)
         == FailuresOf(failures, records[i].id)
            + if i < StopsAt(outcomes, |records|, at) && outcomes[i].Fails? then 1 else 0
    decreases |records| - at
  {
    if !outcomes[at].Outage? && !outcomes[at].Interrupted? {
      var counted :=
        if outcomes[at].Fails? then failures[records[at].id := FailuresOf(failures, records[at].id) + 1] else failures;
      if i == at {
        OthersNotCounted(counted, records, outcomes, at + 1, records[i].id);
      } else {
        FailuresAfterMeans(counted, records, outcomes, at + 1, i);
      }
    }
  }

  /** The steps that mark the rest of what was sent, and close the batch. */
  lemma {:induction false} MarksAreRun(max: Option<int>, s: R.State, relay: R.RelayId, at: seq<nat>)
    returns (labels: seq<R.Label>)
    requires relay in s.batches && s.batches[relay].phase == R.Marking
    requires var b := s.batches[relay];
             (forall i :: i in b.sent <==> i in at) && forall k :: 0 <= k < |at| ==> at[k] < |b.records|
    requires forall j, k :: 0 <= j < k < |at| ==> at[j] != at[k]
    ensures R.Runs(max, s, labels)
    ensures var b := s.batches[relay];
            R.Run(max, s, labels).store == SettledAll(s.store, Picked(b.records, at), Sent)
            && R.Run(max, s, labels).batches == s.batches - {relay}
    ensures Works(relay, labels) && SameHistory(s, R.Run(max, s, labels))
    decreases |at|
  {
    var b := s.batches[relay];
    if at == [] {
      labels := [R.Close(relay)];
      assert labels[1..] == [];
    } else {
      var l := R.Mark(relay, at[0]);
      assert at[0] in at;
      var t := R.Step(max, s, l);
      assert Picked(b.records, at)[1..] == Picked(b.records, at[1..]);
      var rest := MarksAreRun(max, t, relay, at[1..]);
      labels := [l] + rest;
      R.StepThenRun(max, s, l, rest);
      assert t.batches - {relay} == s.batches - {relay};
    }
  }

  function Picked(records: seq<Record>, at: seq<nat>): seq<Record>
    requires forall k :: 0 <= k < |at| ==> at[k] < |records|
  {
    seq(|at|, k requires 0 <= k < |at| => records[at[k]])
  }

  /** The positions published so far are below `at`, and each once. */
  predicate SentBelow(sentAt: seq<nat>, at: nat) {
    && (forall k :: 0 <= k < |sentAt| ==> sentAt[k] < at)
    && forall j, k :: 0 <= j < k < |sentAt| ==> sentAt[j] != sentAt[k]
  }

  /** An open batch that still publishes, as the code's loop has it. */
  ghost predicate Midway(s: R.State, relay: R.RelayId, records: seq<Record>, at: nat, sentAt: seq<nat>) {
    && relay in s.batches && at <= |records| && SentBelow(sentAt, at)
    && s.batches[relay].records == records && s.batches[relay].at == at
    && (forall i :: i in s.batches[relay].sent <==> i in sentAt)
  }

  /** However a batch ends, it stops, if it has not, marks what was sent, and closes. */
  lemma EndIsRun(
    max: Option<int>, s: R.State, relay: R.RelayId, records: seq<Record>, at: nat, sentAt: seq<nat>
  ) returns (labels: seq<R.Label>)
    requires Midway(s, relay, records, at, sentAt) && s.batches[relay].phase != R.Marking
    ensures R.Runs(max, s, labels)
    ensures R.Run(max, s, labels).store == SettledAll(s.store, Picked(records, sentAt), Sent)
    ensures R.Run(max, s, labels).batches == s.batches - {relay}
    ensures Works(relay, labels) && SameHistory(s, R.Run(max, s, labels))
  {
    var t := R.Step(max, s, R.Stop(relay));
    var marks := MarksAreRun(max, t, relay, sentAt);
    labels := [R.Stop(relay)] + marks;
    R.StepThenRun(max, s, R.Stop(relay), marks);
    assert t.batches - {relay} == s.batches - {relay};
  }

  /** The steps that put back the rest of a batch after an outage, mark what was sent, and close. */
  lemma {:induction false} PutBacksAreRun(
    max: Option<int>, s: R.State, relay: R.RelayId, records: seq<Record>, at: nat, sentAt: seq<nat>
  ) returns (labels: seq<R.Label>)
    requires Midway(s, relay, records, at, sentAt) && s.batches[relay].phase == R.PuttingBack
    ensures R.Runs(max, s, labels)
    ensures R.Run(max, s, labels).store
         == SettledAll(SettledAll(s.store, records[at..], Pending), Picked(records, sentAt), Sent)
    ensures R.Run(max, s, labels).batches == s.batches - {relay}
    ensures Works(relay, labels) && SameHistory(s, R.Run(max, s, labels))
    decreases |records| - at
  {
    if at == |records| {
      labels := EndIsRun(max, s, relay, records, at, sentAt);
    } else {
      var t := PutBackIsMidway(s, relay, records, at, sentAt);
      var rest := PutBacksAreRun(max, t, relay, records, at + 1, sentAt);
      labels := [R.PutBack(relay)] + rest;
      R.StepThenRun(max, s, R.PutBack(relay), rest);
      assert records[at..][1..] == records[at + 1..];
    }
  }

  lemma PutBackIsMidway(s: R.State, relay: R.RelayId, records: seq<Record>, at: nat, sentAt: seq<nat>)
    returns (t: R.State)
    requires Midway(s, relay, records, at, sentAt) && R.Working(s, relay, R.PuttingBack)
    ensures t == R.PutBackStep(s, relay) && t.store == Settled(s.store, records[at], Pending)
    ensures t.batches - {relay} == s.batches - {relay} && SameHistory(s, t)
    ensures Midway(t, relay, records, at + 1, sentAt) && t.batches[relay].phase == R.PuttingBack
  {
    t := R.PutBackStep(s, relay);
  }

  lemma OutageIsRun(
    max: Option<int>, s: R.State, relay: R.RelayId, records: seq<Record>, at: nat, sentAt: seq<nat>
  ) returns (labels: seq<R.Label>)
    requires Midway(s, relay, records, at, sentAt) && R.Working(s, relay, R.Publishing)
    ensures R.Runs(max, s, labels)
    ensures R.Run(max, s, labels).store
         == SettledAll(SettledAll(s.store, records[at..], Pending), Picked(records, sentAt), Sent)
    ensures R.Run(max, s, labels).batches == s.batches - {relay}
    ensures Works(relay, labels) && SameHistory(s, R.Run(max, s, labels))
  {
    var t := R.Step(max, s, R.Outage(relay));
    assert t.batches - {relay} == s.batches - {relay};
    var rest := PutBacksAreRun(max, t, relay, records, at, sentAt);
    labels := [R.Outage(relay)] + rest;
    R.StepThenRun(max, s, R.Outage(relay), rest);
  }

  /** Steps that do, and leave, just what the rest of a batch does from a point of the code's loop. */
  ghost predicate IsRest(
    p: Settings, s: R.State, relay: R.RelayId, records: seq<Record>, outcomes: seq<Outcome>, at: nat, sent: seq<Record>,
    labels: seq<R.Label>
  )
    requires at <= |records| <= |outcomes|
  {
    && R.Runs(p.maxAttempts, s, labels) && Works(relay, labels)
    && var e := Relay(p, s.store, records, outcomes, at, sent);
       var t := R.Run(p.maxAttempts, s, labels);
    && t.store == SettledAll(e.store, e.sent, Sent)
    && t.batches == s.batches - {relay} && t.added == s.added
    && t.published == s.published + PublishedIds(records, outcomes, at)
    && t.failures == FailuresAfter(s.failures, records, outcomes, at)
  }

  lemma {:induction false} LoopIsRun(
    p: Settings, s: R.State, relay: R.RelayId, records: seq<Record>, outcomes: seq<Outcome>, at: nat, sentAt: seq<nat>
  ) returns (labels: seq<R.Label>)
    requires Midway(s, relay, records, at, sentAt) && s.batches[relay].phase == R.Publishing
    requires |records| <= |outcomes|
    ensures IsRest(p, s, relay, records, outcomes, at, Picked(records, sentAt), labels)
    decreases |records| - at
  {
    var max := p.maxAttempts;
    if at == |records| || outcomes[at].Interrupted? || outcomes[at].Outage? {
      labels := StopIsRest(p, s, relay, records, outcomes, at, sentAt);
    } else if outcomes[at].Published? {
      var t := PublishIsMidway(s, relay, records, at, sentAt);
      var rest := LoopIsRun(p, t, relay, records, outcomes, at + 1, sentAt + [at]);
      PublishThenRest(p, s, relay, records, outcomes, at, Picked(records, sentAt), rest);
      labels := [R.Publish(relay)] + rest;
    } else {
      var l := R.FailPublish(relay, outcomes[at].error, outcomes[at].now + RetryDelay(p, records[at].attempts + 1));
      var t := FailIsMidway(max, s, relay, records, at, sentAt, l.error, l.retryAt);
      var rest := LoopIsRun(p, t, relay, records, outcomes, at + 1, sentAt);
      FailThenRest(p, s, t, l, records, outcomes, at, Picked(records, sentAt), rest);
      labels := [l] + rest;
    }
  }

  lemma StopIsRest(
    p: Settings, s: R.State, relay: R.RelayId, records: seq<Record>, outcomes: seq<Outcome>, at: nat, sentAt: seq<nat>
  ) returns (labels: seq<R.Label>)
    requires Midway(s, relay, records, at, sentAt) && s.batches[relay].phase == R.Publishing
    requires |records| <= |outcomes| && StopsAt(outcomes, |records|, at) == at
    ensures IsRest(p, s, relay, records, outcomes, at, Picked(records, sentAt), labels)
  {
    if at < |records| && outcomes[at].Outage? {
      labels := OutageIsRun(p.maxAttempts, s, relay, records, at, sentAt);
    } else {
      labels := EndIsRun(p.maxAttempts, s, relay, records, at, sentAt);
    }
  }

  lemma PublishThenRest(
    p: Settings, s: R.State, relay: R.RelayId, records: seq<Record>, outcomes: seq<Outcome>, at: nat, sent: seq<Record>,
    rest: seq<R.Label>
  )
    requires at < |records| <= |outcomes| && outcomes[at].Published? && R.Working(s, relay, R.Publishing)
    requires s.batches[relay].records == records && s.batches[relay].at == at
    requires IsRest(p, R.PublishStep(s, relay), relay, records, outcomes, at + 1, sent + [records[at]], rest)
    ensures IsRest(p, s, relay, records, outcomes, at, sent, [R.Publish(relay)] + rest)
  {
    R.StepThenRun(p.maxAttempts, s, R.Publish(relay), rest);
    assert R.PublishStep(s, relay).batches - {relay} == s.batches - {relay};
    assert PublishedFrom(records, outcomes, at) == [records[at]] + PublishedFrom(records, outcomes, at + 1);
    assert PublishedIds(records, outcomes, at) == {records[at].id} + PublishedIds(records, outcomes, at + 1);
  }

  lemma RelayOnPublish(
    p: Settings, s: Store, records: seq<Record>, outcomes: seq<Outcome>, at: nat, sent: seq<Record>
  )
    requires at < |records| <= |outcomes| && outcomes[at].Published?
    ensures Relay(p, s, records, outcomes, at, sent) == Relay(p, s, records, outcomes, at + 1, sent + [records[at]])
  {
  }

  lemma RelayOnFailure(
    p: Settings, s: Store, records: seq<Record>, outcomes: seq<Outcome>, at: nat, sent: seq<Record>, t: Store
  )
    requires at < |records| <= |outcomes| && outcomes[at].Fails?
    requires t == AfterFailure(p, s, records[at], outcomes[at].error, outcomes[at].now)
    ensures Relay(p, s, records, outcomes, at, sent) == Relay(p, t, records, outcomes, at + 1, sent)
  {
  }

  lemma FailureCounted(failures: map<Id, nat>, records: seq<Record>, outcomes: seq<Outcome>, at: nat)
    requires at < |records| <= |outcomes| && outcomes[at].Fails?
    ensures FailuresAfter(failures, records, outcomes, at) ==
            var id := records[at].id;
            FailuresAfter(failures[id := FailuresOf(failures, id) + 1], records, outcomes, at + 1)
    ensures PublishedIds(records, outcomes, at) == PublishedIds(records, outcomes, at + 1)
  {
    assert PublishedFrom(records, outcomes, at) == PublishedFrom(records, outcomes, at + 1);
  }

  /** A step of a failed publish comes before the rest, if nothing but what it does makes a difference. */
  lemma StepThenRest(
    p: Settings, s: R.State, t: R.State, l: R.Label, records: seq<Record>, outcomes: seq<Outcome>, at: nat,
    sent: seq<Record>, rest: seq<R.Label>
  )
    requires at < |records| <= |outcomes| && l.FailPublish? && R.Enabled(s, l) && t == R.Step(p.maxAttempts, s, l)
    requires IsRest(p, t, l.relay, records, outcomes, at + 1, sent, rest)
    requires t.batches - {l.relay} == s.batches - {l.relay} && t.added == s.added && t.published == s.published
    requires Relay(p, s.store, records, outcomes, at, sent) == Relay(p, t.store, records, outcomes, at + 1, sent)
    requires PublishedIds(records, outcomes, at) == PublishedIds(records, outcomes, at + 1)
    requires FailuresAfter(s.failures, records, outcomes, at) == FailuresAfter(t.failures, records, outcomes, at + 1)
    ensures IsRest(p, s, l.relay, records, outcomes, at, sent, [l] + rest)
  {
    R.StepThenRun(p.maxAttempts, s, l, rest);
  }

  lemma FailLeavesRest(max: Option<int>, s: R.State, l: R.Label)
    requires l.FailPublish? && R.Enabled(s, l)
    ensures var t := R.Step(max, s, l);
            t.batches - {l.relay} == s.batches - {l.relay} && t.added == s.added && t.published == s.published
  {
  }

  lemma FailThenRest(
    p: Settings, s: R.State, t: R.State, l: R.Label, records: seq<Record>, outcomes: seq<Outcome>, at: nat,
    sent: seq<Record>, rest: seq<R.Label>
  )
    requires at < |records| <= |outcomes| && outcomes[at].Fails?
    requires l.FailPublish? && R.Enabled(s, l) && t == R.Step(p.maxAttempts, s, l)
    requires t.store == AfterFailure(p, s.store, records[at], outcomes[at].error, outcomes[at].now)
    requires t.failures == s.failures[records[at].id := FailuresOf(s.failures, records[at].id) + 1]
    requires IsRest(p, t, l.relay, records, outcomes, at + 1, sent, rest)
    ensures IsRest(p, s, l.relay, records, outcomes, at, sent, [l] + rest)
  {
    FailLeavesRest(p.maxAttempts, s, l);
    RelayOnFailure(p, s.store, records, outcomes, at, sent, t.store);
    FailureCounted(s.failures, records, outcomes, at);
    StepThenRest(p, s, t, l, records, outcomes, at, sent, rest);
  }

  lemma PublishIsMidway(s: R.State, relay: R.RelayId, records: seq<Record>, at: nat, sentAt: seq<nat>)
    returns (t: R.State)
    requires Midway(s, relay, records, at, sentAt) && R.Working(s, relay, R.Publishing)
    ensures t == R.PublishStep(s, relay) && t.store == s.store && t.batches - {relay} == s.batches - {relay}
    ensures Midway(t, relay, records, at + 1, sentAt + [at]) && t.batches[relay].phase == R.Publishing
    ensures Picked(records, sentAt + [at]) == Picked(records, sentAt) + [records[at]]
  {
    t := R.PublishStep(s, relay);
    assert forall i :: i in sentAt + [at] <==> i in sentAt || i == at;
    assert Picked(records, sentAt + [at]) == Picked(records, sentAt) + [records[at]];
  }

  lemma FailIsMidway(
    max: Option<int>, s: R.State, relay: R.RelayId, records: seq<Record>, at: nat, sentAt: seq<nat>,
    error: string, retryAt: int
  ) returns (t: R.State)
    requires Midway(s, relay, records, at, sentAt) && R.Working(s, relay, R.Publishing)
    ensures t == R.FailStep(max, s, relay, error, retryAt) && t.batches - {relay} == s.batches - {relay}
    ensures t.store == R.AfterFailure(max, s.store, records[at], error, retryAt)
    ensures t.failures == s.failures[records[at].id := FailuresOf(s.failures, records[at].id) + 1]
    ensures t.added == s.added && t.published == s.published
    ensures Midway(t, relay, records, at + 1, sentAt) && t.batches[relay].phase == R.Publishing
  {
    t := R.FailStep(max, s, relay, error, retryAt);
  }

  /**
   * One batch of the code, in a store that any number of other relays share, is a run of the steps
   * the main results are about: a claim, the work on it, and the batch closed. It publishes the
   * records whose publish returned, and counts the failures of those whose publish failed.
   */
  lemma BatchIsRun(
    p: Settings, s: R.State, relay: R.RelayId, records: seq<Record>, outcomes: seq<Outcome>, now: int, until: int
  ) returns (labels: seq<R.Label>)
    requires s.store.records.Keys == s.store.status.Keys && relay !in s.batches
    requires Claims(s.store, records, now, p.batchSize) && |records| <= |outcomes|
    ensures R.Runs(p.maxAttempts, s, labels) && R.ByOne(relay, labels)
    ensures labels != [] && labels[0] == R.Claim(relay, records, until) && Works(relay, labels[1..])
    ensures R.TakesUnleased(s.store, records, now)
    ensures var t := R.Run(p.maxAttempts, s, labels);
            && t.store == RelayAndMark(p, Leased(s.store, records, until), records, outcomes).store
            && t.batches == s.batches && t.added == s.added
            && t.published == s.published + PublishedIds(records, outcomes, 0)
            && t.failures == FailuresAfter(s.failures, records, outcomes, 0)
  {
    var l := R.Claim(relay, records, until);
    assert R.Enabled(s, l);
    var t := R.Step(p.maxAttempts, s, l);
    assert Picked(records, []) == [];
    var rest := LoopIsRun(p, t, relay, records, outcomes, 0, []);
    labels := [l] + rest;
    R.StepThenRun(p.maxAttempts, s, l, rest);
    assert t.batches - {relay} == s.batches;
    assert labels[1..] == rest;
    R.ClaimsTakeUnleased(s.store, records, now, p.batchSize);
  }
}
