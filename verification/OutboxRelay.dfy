/**
 * Relays publishing an outbox's records. Any number of relays share a store, a lease may run out
 * under one that still works, and a relay may stop between any two steps. Proved over every run:
 * no record disappears, and what a record's status says of it is true.
 */
module OutboxRelay {
  import opened Options
  import opened OutboxStore

  type RelayId = nat

  /**
   * A relay's batch: the records as it claimed them, until when they are leased, the position it is
   * at, the positions published but not yet marked sent, and whether it still publishes, puts the
   * rest back after an outage, or only marks what was sent.
   */
  datatype Phase = Publishing | PuttingBack | Marking
  datatype Batch = Batch(records: seq<Record>, until: int, at: nat, sent: set<nat>, phase: Phase)

  /** The store and open batches; then history: records as added, ids published, failures counted. */
  datatype State = State(
    store: Store,
    batches: map<RelayId, Batch>,
    added: map<Id, Record>,
    published: set<Id>,
    failures: map<Id, nat>
  )

  const Initial := State(Empty, map[], map[], {}, map[])

  datatype Label =
    | Add(record: Record)
    | Claim(relay: RelayId, taken: seq<Record>, until: int)
    | Publish(relay: RelayId)
    | FailPublish(relay: RelayId, error: string, retryAt: int)
    | Outage(relay: RelayId)
    | PutBack(relay: RelayId)
    | Stop(relay: RelayId)
    | Mark(relay: RelayId, at: nat)
    | Close(relay: RelayId)
    | Crash(relay: RelayId)

  /** A failed record: its attempts and error, and when it may next be claimed. */
  function Failed(r: Record, error: string, retryAt: int): Record {
    r.(attempts := r.attempts + 1, error := Some(error), availableAt := retryAt)
  }

  /** How a failed attempt is stored: parked once out of attempts, else to be retried. */
  function AfterFailure(max: Option<int>, s: Store, r: Record, error: string, retryAt: int): Store {
    if max.Some? && r.attempts + 1 >= max.value
    then Settled(s, Failed(r, error, r.availableAt), Parked)
    else Settled(s, Failed(r, error, retryAt), Pending)
  }

  predicate Working(s: State, relay: RelayId, phase: Phase) {
    && relay in s.batches && s.batches[relay].phase == phase
    && s.batches[relay].at < |s.batches[relay].records|
  }

  predicate Claimable(s: Store, r: Record) {
    r.id in s.records && r.id in s.status && s.status[r.id] == Pending && r == s.records[r.id]
  }

  predicate Enabled(s: State, l: Label) {
    match l
    case Add(record) => record.id !in s.store.records && record.attempts == 0
    case Claim(relay, taken, _) => relay !in s.batches && forall r <- taken :: Claimable(s.store, r)
    case Publish(relay) => Working(s, relay, Publishing)
    case FailPublish(relay, _, _) => Working(s, relay, Publishing)
    case Outage(relay) => Working(s, relay, Publishing)
    case PutBack(relay) => Working(s, relay, PuttingBack)
    case Stop(relay) => relay in s.batches && s.batches[relay].phase != Marking
    case Mark(relay, at) =>
      relay in s.batches && s.batches[relay].phase == Marking && at in s.batches[relay].sent
      && at < |s.batches[relay].records|
    case Close(relay) => relay in s.batches && s.batches[relay].phase == Marking && s.batches[relay].sent == {}
    case Crash(relay) => relay in s.batches
  }

  function Advance(b: Batch): Batch {
    b.(at := b.at + 1)
  }

  function PublishStep(s: State, relay: RelayId): State
    requires Working(s, relay, Publishing)
  {
    var b := s.batches[relay];
    s.(batches := s.batches[relay := Advance(b.(sent := b.sent + {b.at}))],
       published := s.published + {b.records[b.at].id})
  }

  function FailStep(max: Option<int>, s: State, relay: RelayId, error: string, retryAt: int): State
    requires Working(s, relay, Publishing)
  {
    var b := s.batches[relay];
    var r := b.records[b.at];
    s.(store := AfterFailure(max, s.store, r, error, retryAt),
       batches := s.batches[relay := Advance(b)],
       failures := s.failures[r.id := (if r.id in s.failures then s.failures[r.id] else 0) + 1])
  }

  function PutBackStep(s: State, relay: RelayId): State
    requires Working(s, relay, PuttingBack)
  {
    var b := s.batches[relay];
    s.(store := Settled(s.store, b.records[b.at], Pending), batches := s.batches[relay := Advance(b)])
  }

  function MarkStep(s: State, relay: RelayId, at: nat): State
    requires Enabled(s, Mark(relay, at))
  {
    var b := s.batches[relay];
    s.(store := Settled(s.store, b.records[at], Sent), batches := s.batches[relay := b.(sent := b.sent - {at})])
  }

  function Step(max: Option<int>, s: State, l: Label): State
    requires Enabled(s, l)
  {
    match l
    case Add(record) =>
      s.(store := Settled(s.store, record, Pending), added := s.added[record.id := record],
         failures := s.failures[record.id := 0])
    case Claim(relay, taken, until) =>
      s.(store := Leased(s.store, taken, until), batches := s.batches[relay := Batch(taken, until, 0, {}, Publishing)])
    case Publish(relay) => PublishStep(s, relay)
    case FailPublish(relay, error, retryAt) => FailStep(max, s, relay, error, retryAt)
    case Outage(relay) => s.(batches := s.batches[relay := s.batches[relay].(phase := PuttingBack)])
    case PutBack(relay) => PutBackStep(s, relay)
    case Stop(relay) => s.(batches := s.batches[relay := s.batches[relay].(phase := Marking)])
    case Mark(relay, at) => MarkStep(s, relay, at)
    case Close(relay) => s.(batches := s.batches - {relay})
    case Crash(relay) => s.(batches := s.batches - {relay})
  }

  predicate Runs(max: Option<int>, s: State, labels: seq<Label>)
    decreases |labels|
  {
    labels == [] || (Enabled(s, labels[0]) && Runs(max, Step(max, s, labels[0]), labels[1..]))
  }

  function Run(max: Option<int>, s: State, labels: seq<Label>): State
    requires Runs(max, s, labels)
    decreases |labels|
  {
    if labels == [] then s else Run(max, Step(max, s, labels[0]), labels[1..])
  }

  lemma StepThenRun(max: Option<int>, s: State, l: Label, rest: seq<Label>)
    requires Enabled(s, l) && Runs(max, Step(max, s, l), rest)
    ensures Runs(max, s, [l] + rest) && Run(max, s, [l] + rest) == Run(max, Step(max, s, l), rest)
  {
    assert ([l] + rest)[1..] == rest;
  }

  // ----- what every step keeps, however many relays and however short the leases -----

  /** A record has attempts left, if a limit leaves any at all. */
  predicate Fewer(max: Option<int>, r: Record) {
    max.Some? && max.value >= 1 ==> r.attempts < max.value
  }

  /** A record is as it was added, but for its failures, which were counted. */
  predicate Known(added: map<Id, Record>, failures: map<Id, nat>, r: Record) {
    && r.id in added && r.id in failures && r.attempts <= failures[r.id]
    && r.content == added[r.id].content && r.createdAt == added[r.id].createdAt
  }

  predicate StatusOk(max: Option<int>, status: Status, r: Record, published: set<Id>) {
    match status
    case Pending => Fewer(max, r)
    case Sent => r.id in published
    case Parked => max.Some? && r.attempts >= max.value
  }

  predicate RecordOk(max: Option<int>, s: State, id: Id) {
    && id in s.store.records && id in s.store.status && s.store.records[id].id == id
    && Known(s.added, s.failures, s.store.records[id])
    && StatusOk(max, s.store.status[id], s.store.records[id], s.published)
  }

  predicate ClaimedOk(max: Option<int>, s: State, b: Batch, i: nat)
    requires i < |b.records|
  {
    && Known(s.added, s.failures, b.records[i]) && Fewer(max, b.records[i])
    && (i in b.sent ==> b.records[i].id in s.published)
  }

  predicate BatchOk(max: Option<int>, s: State, b: Batch) {
    forall i :: 0 <= i < |b.records| ==> ClaimedOk(max, s, b, i)
  }

  ghost predicate Inv(max: Option<int>, s: State) {
    && s.store.records.Keys == s.added.Keys && s.store.status.Keys == s.added.Keys
    && s.failures.Keys == s.added.Keys
    && (forall id <- s.added :: RecordOk(max, s, id))
    && (forall relay <- s.batches :: BatchOk(max, s, s.batches[relay]))
  }

  /** History only grows, so what was known of a record stays known. */
  predicate Grows(s: State, t: State) {
    && s.published <= t.published
    && (forall id <- s.added :: id in t.added && t.added[id] == s.added[id])
    && (forall id <- s.failures :: id in t.failures && s.failures[id] <= t.failures[id])
  }

  lemma BatchStaysOk(max: Option<int>, s: State, t: State, b: Batch)
    requires BatchOk(max, s, b) && Grows(s, t)
    ensures BatchOk(max, t, b)
  {
    forall i | 0 <= i < |b.records| ensures ClaimedOk(max, t, b, i) {
      assert ClaimedOk(max, s, b, i);
    }
  }

  lemma RecordStaysOk(max: Option<int>, s: State, t: State, id: Id)
    requires RecordOk(max, s, id) && Grows(s, t)
    requires id in t.store.records && id in t.store.status
    requires t.store.records[id] == s.store.records[id] && t.store.status[id] == s.store.status[id]
    ensures RecordOk(max, t, id)
  {
  }

  /** A step that settles one record, as it may, and changes one batch, as it may, keeps everything. */
  lemma SettlingKeepsInv(
    max: Option<int>, s: State, t: State, record: Record, status: Status, relay: RelayId, b: Batch
  )
    requires Inv(max, s) && Grows(s, t)
    requires t.store == Settled(s.store, record, status) && t.added.Keys == s.added.Keys + {record.id}
    requires t.failures.Keys == t.added.Keys
    requires t.batches == s.batches || t.batches == s.batches[relay := b]
    requires Known(t.added, t.failures, record) && StatusOk(max, status, record, t.published)
    requires BatchOk(max, t, b)
    ensures Inv(max, t)
  {
    forall id | id in t.added ensures RecordOk(max, t, id) {
      if id != record.id {
        RecordStaysOk(max, s, t, id);
      }
    }
    forall other | other in t.batches ensures BatchOk(max, t, t.batches[other]) {
      if t.batches[other] != b {
        BatchStaysOk(max, s, t, s.batches[other]);
      }
    }
  }

  /** A step that changes only one batch, as it may. */
  lemma BatchingKeepsInv(max: Option<int>, s: State, t: State, relay: RelayId, b: Batch)
    requires Inv(max, s) && Grows(s, t) && t.added == s.added
    requires t.store.records == s.store.records && t.store.status == s.store.status
    requires t.failures == s.failures
    requires t.batches == s.batches[relay := b] && BatchOk(max, t, b)
    ensures Inv(max, t)
  {
    forall id | id in t.added ensures RecordOk(max, t, id) {
      RecordStaysOk(max, s, t, id);
    }
    forall other | other in t.batches ensures BatchOk(max, t, t.batches[other]) {
      if other != relay {
        BatchStaysOk(max, s, t, s.batches[other]);
      }
    }
  }

  lemma ClaimKeepsInv(max: Option<int>, s: State, relay: RelayId, taken: seq<Record>, until: int)
    requires Inv(max, s) && Enabled(s, Claim(relay, taken, until))
    ensures Inv(max, Step(max, s, Claim(relay, taken, until)))
  {
    var b := Batch(taken, until, 0, {}, Publishing);
    var t := Step(max, s, Claim(relay, taken, until));
    LeasedMeans(s.store, taken, until);
    forall i | 0 <= i < |taken| ensures ClaimedOk(max, t, b, i) {
      assert taken[i] in taken && Claimable(s.store, taken[i]);
      assert RecordOk(max, s, taken[i].id);
    }
    BatchingKeepsInv(max, s, t, relay, b);
  }

  lemma PublishKeepsInv(max: Option<int>, s: State, relay: RelayId)
    requires Inv(max, s) && Working(s, relay, Publishing)
    ensures Inv(max, PublishStep(s, relay))
  {
    var t := PublishStep(s, relay);
    var b := s.batches[relay];
    var after := Advance(b.(sent := b.sent + {b.at}));
    BatchStaysOk(max, s, t, b);
    forall i | 0 <= i < |after.records| ensures ClaimedOk(max, t, after, i) {
      assert ClaimedOk(max, t, b, i);
    }
    BatchingKeepsInv(max, s, t, relay, after);
  }

  lemma FailKeepsInv(max: Option<int>, s: State, relay: RelayId, error: string, retryAt: int)
    requires Inv(max, s) && Working(s, relay, Publishing)
    ensures Inv(max, FailStep(max, s, relay, error, retryAt))
  {
    var t := FailStep(max, s, relay, error, retryAt);
    var b := s.batches[relay];
    var r := b.records[b.at];
    assert ClaimedOk(max, s, b, b.at);
    BatchStaysOk(max, s, t, b);
    SameRecordsOk(max, t, b, Advance(b));
    if max.Some? && r.attempts + 1 >= max.value {
      SettlingKeepsInv(max, s, t, Failed(r, error, r.availableAt), Parked, relay, Advance(b));
    } else {
      SettlingKeepsInv(max, s, t, Failed(r, error, retryAt), Pending, relay, Advance(b));
    }
  }

  lemma SameRecordsOk(max: Option<int>, s: State, b: Batch, after: Batch)
    requires BatchOk(max, s, b) && after.records == b.records && after.sent <= b.sent
    ensures BatchOk(max, s, after)
  {
    forall i | 0 <= i < |after.records| ensures ClaimedOk(max, s, after, i) {
      assert ClaimedOk(max, s, b, i);
    }
  }

  lemma PutBackKeepsInv(max: Option<int>, s: State, relay: RelayId)
    requires Inv(max, s) && Working(s, relay, PuttingBack)
    ensures Inv(max, PutBackStep(s, relay))
  {
    var b := s.batches[relay];
    assert ClaimedOk(max, s, b, b.at);
    var t := PutBackStep(s, relay);
    BatchStaysOk(max, s, t, b);
    SameRecordsOk(max, t, b, Advance(b));
    SettlingKeepsInv(max, s, t, b.records[b.at], Pending, relay, Advance(b));
  }

  lemma MarkKeepsInv(max: Option<int>, s: State, relay: RelayId, at: nat)
    requires Inv(max, s) && Enabled(s, Mark(relay, at))
    ensures Inv(max, MarkStep(s, relay, at))
  {
    var b := s.batches[relay];
    assert ClaimedOk(max, s, b, at);
    var t := MarkStep(s, relay, at);
    var after := b.(sent := b.sent - {at});
    BatchStaysOk(max, s, t, b);
    SameRecordsOk(max, t, b, after);
    SettlingKeepsInv(max, s, t, b.records[at], Sent, relay, after);
  }

  lemma AddKeepsInv(max: Option<int>, s: State, record: Record)
    requires Inv(max, s) && Enabled(s, Add(record))
    ensures Inv(max, Step(max, s, Add(record)))
  {
    var t := Step(max, s, Add(record));
    assert record.id !in s.added;
    forall id | id in t.added ensures RecordOk(max, t, id) {
      if id != record.id {
        RecordStaysOk(max, s, t, id);
      }
    }
    forall relay | relay in t.batches ensures BatchOk(max, t, t.batches[relay]) {
      BatchStaysOk(max, s, t, s.batches[relay]);
    }
  }

  lemma StepKeepsInv(max: Option<int>, s: State, l: Label)
    requires Inv(max, s) && Enabled(s, l)
    ensures Inv(max, Step(max, s, l))
  {
    match l
    case Add(record) => AddKeepsInv(max, s, record);
    case Claim(relay, taken, until) => ClaimKeepsInv(max, s, relay, taken, until);
    case Publish(relay) => PublishKeepsInv(max, s, relay);
    case FailPublish(relay, error, retryAt) => FailKeepsInv(max, s, relay, error, retryAt);
    case PutBack(relay) => PutBackKeepsInv(max, s, relay);
    case Mark(relay, at) => MarkKeepsInv(max, s, relay, at);
    case Outage(relay) => PhaseKeepsInv(max, s, relay, PuttingBack);
    case Stop(relay) => PhaseKeepsInv(max, s, relay, Marking);
    case Close(relay) => GoneKeepsInv(max, s, relay);
    case Crash(relay) => GoneKeepsInv(max, s, relay);
  }

  lemma PhaseKeepsInv(max: Option<int>, s: State, relay: RelayId, phase: Phase)
    requires Inv(max, s) && relay in s.batches
    ensures Inv(max, s.(batches := s.batches[relay := s.batches[relay].(phase := phase)]))
  {
    var b := s.batches[relay].(phase := phase);
    var t := s.(batches := s.batches[relay := b]);
    BatchStaysOk(max, s, t, s.batches[relay]);
    SameRecordsOk(max, t, s.batches[relay], b);
    BatchingKeepsInv(max, s, t, relay, b);
  }

  lemma GoneKeepsInv(max: Option<int>, s: State, relay: RelayId)
    requires Inv(max, s)
    ensures Inv(max, s.(batches := s.batches - {relay}))
  {
    var t := s.(batches := s.batches - {relay});
    forall id | id in t.added ensures RecordOk(max, t, id) {
      RecordStaysOk(max, s, t, id);
    }
    forall other | other in t.batches ensures BatchOk(max, t, t.batches[other]) {
      BatchStaysOk(max, s, t, s.batches[other]);
    }
  }

  lemma {:induction false} RunKeepsInv(max: Option<int>, s: State, labels: seq<Label>)
    requires Inv(max, s) && Runs(max, s, labels)
    ensures Inv(max, Run(max, s, labels))
    decreases |labels|
  {
    if labels != [] {
      StepKeepsInv(max, s, labels[0]);
      RunKeepsInv(max, Step(max, s, labels[0]), labels[1..]);
    }
  }

  lemma InitialInv(max: Option<int>)
    ensures Inv(max, Initial)
  {
  }

  // ----- main results, over every run -----

  /** A record that was ever added is kept, as it was added, but for its failures. */
  lemma NeverDisappears(max: Option<int>, labels: seq<Label>, id: Id)
    requires Runs(max, Initial, labels) && id in Run(max, Initial, labels).added
    ensures var s := Run(max, Initial, labels);
            && id in s.store.records && id in s.store.status && id in s.failures
            && s.store.records[id].id == id
            && s.store.records[id].content == s.added[id].content
            && s.store.records[id].createdAt == s.added[id].createdAt
            && s.store.records[id].attempts <= s.failures[id]
  {
    InitialInv(max);
    RunKeepsInv(max, Initial, labels);
    assert RecordOk(max, Run(max, Initial, labels), id);
  }

  /**
   * A status says the truth: a sent record was published, a parked one is out of attempts, and a
   * pending one is not, unless the limit allows none at all.
   */
  lemma StatusIsTrue(max: Option<int>, labels: seq<Label>, id: Id)
    requires Runs(max, Initial, labels) && id in Run(max, Initial, labels).store.status
    ensures var s := Run(max, Initial, labels);
            id in s.store.records
            && match s.store.status[id]
               case Sent => id in s.published
               case Parked => max.Some? && s.store.records[id].attempts >= max.value
               case Pending => max.Some? && max.value >= 1 ==> s.store.records[id].attempts < max.value
  {
    InitialInv(max);
    RunKeepsInv(max, Initial, labels);
    assert RecordOk(max, Run(max, Initial, labels), id);
  }

  predicate Positive(max: Option<int>) {
    max.Some? ==> max.value >= 1
  }

  ghost predicate PendingAlwaysFewer(max: Option<int>) {
    forall labels, id | Runs(max, Initial, labels) ::
      id in Run(max, Initial, labels).store.records && id in Run(max, Initial, labels).store.status
      && Run(max, Initial, labels).store.status[id] == Pending
      ==> max.Some? ==> Run(max, Initial, labels).store.records[id].attempts < max.value
  }

  /** A limit of no attempts at all is the one exception: a record just added is already at it. */
  lemma PendingFewerExactlyWhenPositive(max: Option<int>)
    ensures PendingAlwaysFewer(max) <==> Positive(max)
  {
    if Positive(max) {
      forall labels, id | Runs(max, Initial, labels)
        ensures id in Run(max, Initial, labels).store.records && id in Run(max, Initial, labels).store.status
                && Run(max, Initial, labels).store.status[id] == Pending
                ==> max.Some? ==> Run(max, Initial, labels).store.records[id].attempts < max.value
      {
        if id in Run(max, Initial, labels).store.status {
          StatusIsTrue(max, labels, id);
        }
      }
    } else {
      var record := Record(0, 0, 0, 0, 0, None);
      var labels := [Add(record)];
      assert labels[1..] == [];
      assert Run(max, Step(max, Initial, Add(record)), []) == Step(max, Initial, Add(record));
      assert Runs(max, Initial, labels);
      assert Run(max, Initial, labels).store.records[0] == record;
    }
  }

  lemma StepGrows(max: Option<int>, s: State, l: Label)
    requires s.failures.Keys == s.store.records.Keys == s.added.Keys && Enabled(s, l)
    ensures Grows(s, Step(max, s, l))
  {
  }

  /** What was added, published and counted stays so for the rest of every run. */
  lemma {:induction false} HistoryGrows(max: Option<int>, s: State, labels: seq<Label>)
    requires Inv(max, s) && Runs(max, s, labels)
    ensures Grows(s, Run(max, s, labels))
    decreases |labels|
  {
    if labels != [] {
      var t := Step(max, s, labels[0]);
      StepKeepsInv(max, s, labels[0]);
      StepGrows(max, s, labels[0]);
      HistoryGrows(max, t, labels[1..]);
    }
  }

  // ----- when no lease runs out under its batch -----

  /** Whether a position of a batch is claimed and not yet settled. */
  predicate Live(b: Batch, i: nat) {
    i < |b.records| && ((b.phase != Marking && b.at <= i) || i in b.sent)
  }

  /** A claim takes each record once, and none that is live in an open batch. */
  ghost predicate Exclusive(s: State, l: Label) {
    l.Claim? ==>
      && DistinctIds(l.taken)
      && forall relay, i: nat :: relay in s.batches && Live(s.batches[relay], i) ==>
           forall k :: 0 <= k < |l.taken| ==> l.taken[k].id != s.batches[relay].records[i].id
  }

  ghost predicate ExclusiveRuns(max: Option<int>, s: State, labels: seq<Label>)
    decreases |labels|
  {
    labels == [] ||
    (Enabled(s, labels[0]) && Exclusive(s, labels[0]) && ExclusiveRuns(max, Step(max, s, labels[0]), labels[1..]))
  }

  /** Which live position holds each record. */
  type Holders = map<Id, (RelayId, nat)>

  /** A live position holds its record, which is pending and leased in the store just as it was claimed. */
  predicate Holds(store: Store, holders: Holders, relay: RelayId, b: Batch, i: nat)
    requires i < |b.records|
  {
    var r := b.records[i];
    && r.id in holders && holders[r.id] == (relay, i)
    && r.id in store.records && r.id in store.status
    && store.records[r.id] == r && store.status[r.id] == Pending
    && r.id in store.leased && store.leased[r.id] == b.until
  }

  ghost predicate AllHold(store: Store, holders: Holders, relay: RelayId, b: Batch) {
    && (forall i <- b.sent :: i < b.at)
    && forall i | 0 <= i < |b.records| && Live(b, i) :: Holds(store, holders, relay, b, i)
  }

  predicate Counted(store: Store, failures: map<Id, nat>, id: Id) {
    id in store.records && id in failures && store.records[id].id == id && store.records[id].attempts == failures[id]
  }

  ghost predicate ExclusiveInv(s: State, holders: Holders) {
    && (forall id <- s.store.records :: Counted(s.store, s.failures, id))
    && (forall relay <- s.batches :: AllHold(s.store, holders, relay, s.batches[relay]))
  }

  /** A batch none of whose live records is settled holds them still. */
  lemma OthersHold(s: Store, t: Store, holders: Holders, relay: RelayId, b: Batch, record: Record, status: Status)
    requires AllHold(s, holders, relay, b) && t == Settled(s, record, status)
    requires record.id in s.records ==> record.id in holders && holders[record.id].0 != relay
    ensures AllHold(t, holders, relay, b)
  {
    forall i | 0 <= i < |b.records| && Live(b, i) ensures Holds(t, holders, relay, b, i) {
      assert Holds(s, holders, relay, b, i);
    }
  }

  /** Settling a live record keeps the rest held, if its position is live no more. */
  lemma SettleLiveKeeps(
    s: State, t: State, holders: Holders, relay: RelayId, at: nat, record: Record, status: Status, after: Batch
  )
    requires ExclusiveInv(s, holders) && relay in s.batches && Live(s.batches[relay], at)
    requires record.id == s.batches[relay].records[at].id
    requires t.store == Settled(s.store, record, status) && t.batches == s.batches[relay := after]
    requires after.records == s.batches[relay].records && after.until == s.batches[relay].until && !Live(after, at)
    requires forall i <- after.sent :: i < after.at
    requires forall i: nat :: Live(after, i) ==> Live(s.batches[relay], i)
    requires record.id in t.failures && record.attempts == t.failures[record.id]
    requires t.failures == s.failures[record.id := t.failures[record.id]]
    ensures ExclusiveInv(t, holders)
  {
    var b := s.batches[relay];
    assert AllHold(s.store, holders, relay, b) && Holds(s.store, holders, relay, b, at);
    forall other | other in t.batches ensures AllHold(t.store, holders, other, t.batches[other]) {
      if other != relay {
        OthersHold(s.store, t.store, holders, other, s.batches[other], record, status);
      } else {
        forall i | 0 <= i < |after.records| && Live(after, i) ensures Holds(t.store, holders, relay, after, i) {
          assert Holds(s.store, holders, relay, b, i);
        }
      }
    }
    forall id | id in t.store.records ensures Counted(t.store, t.failures, id) {
      assert id != record.id ==> Counted(s.store, s.failures, id);
    }
  }

  /** A step that only changes one batch keeps what it holds, if nothing more becomes live. */
  lemma FewerLiveKeeps(s: State, t: State, holders: Holders, relay: RelayId, after: Batch)
    requires ExclusiveInv(s, holders) && relay in s.batches
    requires t.store == s.store && t.failures == s.failures && t.batches == s.batches[relay := after]
    requires after.records == s.batches[relay].records && after.until == s.batches[relay].until
    requires forall i <- after.sent :: i < after.at
    requires forall i: nat :: Live(after, i) ==> Live(s.batches[relay], i)
    ensures ExclusiveInv(t, holders)
  {
    forall other | other in t.batches ensures AllHold(t.store, holders, other, t.batches[other]) {
      assert AllHold(s.store, holders, other, s.batches[other]);
      if other == relay {
        forall i | 0 <= i < |after.records| && Live(after, i) ensures Holds(t.store, holders, relay, after, i) {
          assert Holds(s.store, holders, relay, s.batches[relay], i);
        }
      }
    }
  }

  function WithHolders(holders: Holders, relay: RelayId, taken: seq<Record>): Holders {
    if taken == [] then holders
    else WithHolders(holders, relay, taken[..|taken| - 1])[taken[|taken| - 1].id := (relay, |taken| - 1)]
  }

  lemma {:induction false} WithHoldersMeans(holders: Holders, relay: RelayId, taken: seq<Record>)
    requires DistinctIds(taken)
    ensures var h := WithHolders(holders, relay, taken);
            && (forall k :: 0 <= k < |taken| ==> taken[k].id in h && h[taken[k].id] == (relay, k))
            && (forall id <- holders :: (forall k :: 0 <= k < |taken| ==> taken[k].id != id) ==>
                  id in h && h[id] == holders[id])
  {
    if taken != [] {
      WithHoldersMeans(holders, relay, taken[..|taken| - 1]);
    }
  }

  lemma ClaimKeepsExclusive(max: Option<int>, s: State, holders: Holders, l: Label)
    requires ExclusiveInv(s, holders) && l.Claim? && Enabled(s, l) && Exclusive(s, l)
    ensures ExclusiveInv(Step(max, s, l), WithHolders(holders, l.relay, l.taken))
  {
    var relay, taken := l.relay, l.taken;
    var b := Batch(taken, l.until, 0, {}, Publishing);
    var h := WithHolders(holders, relay, taken);
    var store := Leased(s.store, taken, l.until);
    LeasedMeans(s.store, taken, l.until);
    WithHoldersMeans(holders, relay, taken);
    forall id | id in store.records ensures Counted(store, s.failures, id) {
      assert Counted(s.store, s.failures, id);
    }
    forall i | 0 <= i < |taken| && Live(b, i) ensures Holds(store, h, relay, b, i) {
      assert taken[i] in taken && Claimable(s.store, taken[i]);
    }
    forall other | other in s.batches ensures AllHold(store, h, other, s.batches[other]) {
      var ob := s.batches[other];
      assert AllHold(s.store, holders, other, ob);
      forall i | 0 <= i < |ob.records| && Live(ob, i) ensures Holds(store, h, other, ob, i) {
        assert Holds(s.store, holders, other, ob, i);
      }
    }
  }

  lemma AddKeepsExclusive(max: Option<int>, s: State, holders: Holders, record: Record)
    requires ExclusiveInv(s, holders) && Enabled(s, Add(record))
    ensures ExclusiveInv(Step(max, s, Add(record)), holders)
  {
    var t := Step(max, s, Add(record));
    forall id | id in t.store.records ensures Counted(t.store, t.failures, id) {
      assert id != record.id ==> Counted(s.store, s.failures, id);
    }
    forall relay | relay in t.batches ensures AllHold(t.store, holders, relay, t.batches[relay]) {
      OthersHold(s.store, t.store, holders, relay, s.batches[relay], record, Pending);
    }
  }

  lemma SettlingKeepsExclusive(max: Option<int>, s: State, holders: Holders, l: Label)
    requires ExclusiveInv(s, holders) && Enabled(s, l)
    requires l.FailPublish? || l.PutBack? || l.Mark?
    ensures ExclusiveInv(Step(max, s, l), holders)
    ensures var b := s.batches[l.relay];
            var r := b.records[if l.Mark? then l.at else b.at];
            r.id in s.store.status && s.store.status[r.id] == Pending
  {
    var b := s.batches[l.relay];
    var at := if l.Mark? then l.at else b.at;
    var r := b.records[at];
    var t := Step(max, s, l);
    assert AllHold(s.store, holders, l.relay, b) && Live(b, at) && Holds(s.store, holders, l.relay, b, at);
    assert Counted(s.store, s.failures, r.id);
    assert t.failures == s.failures[r.id := t.failures[r.id]];
    SettleLiveKeeps(s, t, holders, l.relay, at, t.store.records[r.id], t.store.status[r.id], t.batches[l.relay]);
  }

  lemma StepKeepsExclusive(max: Option<int>, s: State, holders: Holders, l: Label) returns (after: Holders)
    requires ExclusiveInv(s, holders) && Enabled(s, l) && Exclusive(s, l)
    ensures ExclusiveInv(Step(max, s, l), after)
  {
    after := holders;
    match l
    case Add(record) => AddKeepsExclusive(max, s, holders, record);
    case Claim(relay, taken, _) =>
      ClaimKeepsExclusive(max, s, holders, l);
      after := WithHolders(holders, relay, taken);
    case Publish(relay) => FewerLiveKeeps(s, Step(max, s, l), holders, relay, Step(max, s, l).batches[relay]);
    case Outage(relay) => FewerLiveKeeps(s, Step(max, s, l), holders, relay, Step(max, s, l).batches[relay]);
    case Stop(relay) => FewerLiveKeeps(s, Step(max, s, l), holders, relay, Step(max, s, l).batches[relay]);
    case FailPublish(_, _, _) => SettlingKeepsExclusive(max, s, holders, l);
    case PutBack(_) => SettlingKeepsExclusive(max, s, holders, l);
    case Mark(_, _) => SettlingKeepsExclusive(max, s, holders, l);
    case Close(_) =>
    case Crash(_) =>
  }

  lemma {:induction false} RunKeepsExclusive(max: Option<int>, s: State, holders: Holders, labels: seq<Label>)
    returns (after: Holders)
    requires ExclusiveInv(s, holders) && ExclusiveRuns(max, s, labels)
    ensures Runs(max, s, labels) && ExclusiveInv(Run(max, s, labels), after)
    decreases |labels|
  {
    after := holders;
    if labels != [] {
      after := StepKeepsExclusive(max, s, holders, labels[0]);
      after := RunKeepsExclusive(max, Step(max, s, labels[0]), after, labels[1..]);
    }
  }

  /** A step that claims exclusively leaves a sent or parked record as it is. */
  lemma StepLeavesSettled(max: Option<int>, s: State, holders: Holders, l: Label, id: Id)
    requires ExclusiveInv(s, holders) && Enabled(s, l)
    requires id in s.store.records && id in s.store.status && s.store.status[id] != Pending
    ensures var t := Step(max, s, l);
            && id in t.store.records && t.store.records[id] == s.store.records[id]
            && id in t.store.status && t.store.status[id] == s.store.status[id]
  {
    if l.FailPublish? || l.PutBack? || l.Mark? {
      SettlingKeepsExclusive(max, s, holders, l);
      SettlingHolds(s, holders, l);
    } else if l.Claim? {
      LeasedMeans(s.store, l.taken, l.until);
    }
  }

  lemma SettlingHolds(s: State, holders: Holders, l: Label)
    requires ExclusiveInv(s, holders) && Enabled(s, l)
    requires l.FailPublish? || l.PutBack? || l.Mark?
    ensures var b := s.batches[l.relay];
            var r := b.records[if l.Mark? then l.at else b.at];
            r.id in s.store.records && s.store.records[r.id] == r
  {
    var b := s.batches[l.relay];
    var at := if l.Mark? then l.at else b.at;
    assert AllHold(s.store, holders, l.relay, b) && Live(b, at) && Holds(s.store, holders, l.relay, b, at);
  }

  /** And a record once sent or parked stays as it is for the rest of the run. */
  lemma {:induction false} SettledStays(max: Option<int>, s: State, holders: Holders, labels: seq<Label>, id: Id)
    requires ExclusiveInv(s, holders) && ExclusiveRuns(max, s, labels)
    requires id in s.store.records && id in s.store.status && s.store.status[id] != Pending
    ensures Runs(max, s, labels)
    ensures var t := Run(max, s, labels);
            && id in t.store.records && t.store.records[id] == s.store.records[id]
            && id in t.store.status && t.store.status[id] == s.store.status[id]
    decreases |labels|
  {
    if labels != [] {
      StepLeavesSettled(max, s, holders, labels[0], id);
      var after := StepKeepsExclusive(max, s, holders, labels[0]);
      SettledStays(max, Step(max, s, labels[0]), after, labels[1..], id);
    }
  }

  // ----- when claims are exclusive: one relay, or leases that outlast their batches -----

  /** The steps are one relay's, but for the records added, and a claim takes each record once. */
  predicate ByOne(relay: RelayId, labels: seq<Label>) {
    forall i :: 0 <= i < |labels| && !labels[i].Add? ==>
      labels[i].relay == relay && (labels[i].Claim? ==> DistinctIds(labels[i].taken))
  }

  /** One relay has one batch at a time, so its claims find none open. */
  lemma {:induction false} OneRelayIsExclusive(max: Option<int>, relay: RelayId, s: State, labels: seq<Label>)
    requires ByOne(relay, labels) && s.batches.Keys <= {relay} && Runs(max, s, labels)
    ensures ExclusiveRuns(max, s, labels)
    decreases |labels|
  {
    if labels != [] {
      assert labels[0].Add? || labels[0].relay == relay;
      OneRelayIsExclusive(max, relay, Step(max, s, labels[0]), labels[1..]);
    }
  }

  /** A step, and when it is taken. */
  datatype Timed = Timed(now: int, step: Label)

  function Untimed(steps: seq<Timed>): seq<Label>
    decreases |steps|
  {
    if steps == [] then [] else [steps[0].step] + Untimed(steps[1..])
  }

  /** A claim as stores make it: of each record once, and of none under a lease that still runs. */
  predicate TakesUnleased(store: Store, taken: seq<Record>, now: int) {
    && DistinctIds(taken)
    && forall k :: 0 <= k < |taken| && taken[k].id in store.leased ==> store.leased[taken[k].id] <= now
  }

  /** Leases outlast their batches: no batch is open at a claim whose own lease has run out. */
  predicate Outlasts(s: State, now: int) {
    forall relay <- s.batches :: now < s.batches[relay].until
  }

  predicate LeasedRuns(max: Option<int>, s: State, steps: seq<Timed>)
    decreases |steps|
  {
    steps == [] ||
    var l := steps[0].step;
    && Enabled(s, l)
    && (l.Claim? ==> TakesUnleased(s.store, l.taken, steps[0].now) && Outlasts(s, steps[0].now))
    && LeasedRuns(max, Step(max, s, l), steps[1..])
  }

  /** A claim of the code's store takes none that is leased. */
  lemma ClaimsTakeUnleased(s: Store, claimed: seq<Record>, now: int, limit: nat)
    requires s.records.Keys == s.status.Keys && Claims(s, claimed, now, limit)
    ensures TakesUnleased(s, claimed, now)
  {
    forall k | 0 <= k < |claimed| && claimed[k].id in s.leased ensures s.leased[claimed[k].id] <= now {
      assert claimed[k] in claimed && Due(s, claimed[k].id, now);
    }
  }

  /** What is live is leased until its batch's lease runs out, so no claim takes it. */
  lemma UnleasedIsExclusive(s: State, holders: Holders, l: Label, now: int)
    requires ExclusiveInv(s, holders) && l.Claim? && TakesUnleased(s.store, l.taken, now) && Outlasts(s, now)
    ensures Exclusive(s, l)
  {
    forall relay, i: nat | relay in s.batches && Live(s.batches[relay], i)
      ensures forall k :: 0 <= k < |l.taken| ==> l.taken[k].id != s.batches[relay].records[i].id
    {
      assert AllHold(s.store, holders, relay, s.batches[relay]);
      assert Holds(s.store, holders, relay, s.batches[relay], i);
    }
  }

  lemma {:induction false} LeasesAreExclusive(max: Option<int>, s: State, holders: Holders, steps: seq<Timed>)
    requires ExclusiveInv(s, holders) && LeasedRuns(max, s, steps)
    ensures ExclusiveRuns(max, s, Untimed(steps))
    decreases |steps|
  {
    if steps != [] {
      var l := steps[0].step;
      if l.Claim? {
        UnleasedIsExclusive(s, holders, l, steps[0].now);
      }
      var after := StepKeepsExclusive(max, s, holders, l);
      LeasesAreExclusive(max, Step(max, s, l), after, steps[1..]);
      assert Untimed(steps)[1..] == Untimed(steps[1..]);
    }
  }

  predicate AttemptsCount(s: State, id: Id) {
    id in s.store.records ==> id in s.failures && s.store.records[id].attempts == s.failures[id]
  }

  lemma ExclusiveCounts(max: Option<int>, labels: seq<Label>, id: Id)
    requires ExclusiveRuns(max, Initial, labels)
    ensures Runs(max, Initial, labels) && AttemptsCount(Run(max, Initial, labels), id)
  {
    var after := RunKeepsExclusive(max, Initial, map[], labels);
    var s := Run(max, Initial, labels);
    assert id in s.store.records ==> Counted(s.store, s.failures, id);
  }

  /** With one relay, a record's attempts are exactly its publish failures, outages not counted. */
  lemma OneRelayCountsFailures(max: Option<int>, relay: RelayId, labels: seq<Label>, id: Id)
    requires ByOne(relay, labels) && Runs(max, Initial, labels)
    ensures AttemptsCount(Run(max, Initial, labels), id)
  {
    OneRelayIsExclusive(max, relay, Initial, labels);
    ExclusiveCounts(max, labels, id);
  }

  /** And with any number of relays, if leases outlast their batches. */
  lemma AttemptsAreFailures(max: Option<int>, steps: seq<Timed>, id: Id)
    requires LeasedRuns(max, Initial, steps)
    ensures Runs(max, Initial, Untimed(steps)) && AttemptsCount(Run(max, Initial, Untimed(steps)), id)
  {
    LeasesAreExclusive(max, Initial, map[], steps);
    ExclusiveCounts(max, Untimed(steps), id);
  }

  // ----- what is settled is final -----

  /** A sent or parked record, and how it is stored, is the same in a later state. */
  predicate StaysSettled(s: State, t: State, id: Id) {
    id in s.store.records && id in s.store.status && s.store.status[id] != Pending ==>
      && id in t.store.records && t.store.records[id] == s.store.records[id]
      && id in t.store.status && t.store.status[id] == s.store.status[id]
  }

  lemma {:induction false} ExclusiveSplits(max: Option<int>, s: State, before: seq<Label>, rest: seq<Label>)
    requires ExclusiveRuns(max, s, before + rest)
    ensures Runs(max, s, before) && Runs(max, s, before + rest)
    ensures ExclusiveRuns(max, s, before) && ExclusiveRuns(max, Run(max, s, before), rest)
    ensures Runs(max, Run(max, s, before), rest)
    ensures Run(max, s, before + rest) == Run(max, Run(max, s, before), rest)
    decreases |before|
  {
    if before == [] {
      assert before + rest == rest;
      ExclusiveIsRun(max, s, rest);
    } else {
      assert (before + rest)[1..] == before[1..] + rest;
      ExclusiveSplits(max, Step(max, s, before[0]), before[1..], rest);
    }
  }

  lemma {:induction false} ExclusiveIsRun(max: Option<int>, s: State, labels: seq<Label>)
    requires ExclusiveRuns(max, s, labels)
    ensures Runs(max, s, labels)
    decreases |labels|
  {
    if labels != [] {
      ExclusiveIsRun(max, Step(max, s, labels[0]), labels[1..]);
    }
  }

  lemma ExclusiveSettles(max: Option<int>, before: seq<Label>, rest: seq<Label>, id: Id)
    requires ExclusiveRuns(max, Initial, before + rest)
    ensures Runs(max, Initial, before) && Runs(max, Initial, before + rest)
    ensures StaysSettled(Run(max, Initial, before), Run(max, Initial, before + rest), id)
  {
    ExclusiveSplits(max, Initial, before, rest);
    var holders := RunKeepsExclusive(max, Initial, map[], before);
    var s := Run(max, Initial, before);
    if id in s.store.records && id in s.store.status && s.store.status[id] != Pending {
      SettledStays(max, s, holders, rest, id);
    }
  }

  /** With one relay, a record once sent or parked stays so, as it is, for the rest of the run. */
  lemma OneRelaySettles(max: Option<int>, relay: RelayId, before: seq<Label>, rest: seq<Label>, id: Id)
    requires ByOne(relay, before + rest) && Runs(max, Initial, before + rest)
    ensures Runs(max, Initial, before)
    ensures StaysSettled(Run(max, Initial, before), Run(max, Initial, before + rest), id)
  {
    OneRelayIsExclusive(max, relay, Initial, before + rest);
    ExclusiveSettles(max, before, rest, id);
  }

  lemma {:induction false} UntimedSplits(before: seq<Timed>, rest: seq<Timed>)
    ensures Untimed(before + rest) == Untimed(before) + Untimed(rest)
    decreases |before|
  {
    if before == [] {
      assert before + rest == rest;
    } else {
      assert (before + rest)[1..] == before[1..] + rest;
      UntimedSplits(before[1..], rest);
    }
  }

  /** And with any number of relays, if leases outlast their batches. */
  lemma SettledIsFinal(max: Option<int>, before: seq<Timed>, rest: seq<Timed>, id: Id)
    requires LeasedRuns(max, Initial, before + rest)
    ensures Runs(max, Initial, Untimed(before)) && Runs(max, Initial, Untimed(before + rest))
    ensures StaysSettled(Run(max, Initial, Untimed(before)), Run(max, Initial, Untimed(before + rest)), id)
  {
    LeasesAreExclusive(max, Initial, map[], before + rest);
    UntimedSplits(before, rest);
    ExclusiveSettles(max, Untimed(before), Untimed(rest), id);
  }
}
