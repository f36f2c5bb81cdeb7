/**
 * The in-memory outbox store: records under a status, in the order they were first added, and the
 * leases of those claimed. Times are numbers, and a clock may do anything between two calls.
 */
module OutboxStore {
  import opened Options

  type Id = nat

  /** One event in the outbox. `content` is its route, body, headers and key, which never change. */
  datatype Record = Record(
    id: Id,
    content: nat,
    createdAt: int,
    availableAt: int,
    attempts: nat,
    error: Option<string>
  )

  datatype Status = Pending | Sent | Parked

  datatype Store = Store(
    order: seq<Id>,
    records: map<Id, Record>,
    status: map<Id, Status>,
    leased: map<Id, int>
  )

  const Empty := Store([], map[], map[], map[])

  ghost predicate ValidStore(s: Store) {
    && s.records.Keys == s.status.Keys && s.leased.Keys <= s.records.Keys
    && (forall id :: id in s.order <==> id in s.records)
    && (forall id <- s.records :: s.records[id].id == id)
    && NoRepeats(s.order)
  }

  predicate NoRepeats(ids: seq<Id>) {
    forall i, j :: 0 <= i < j < |ids| ==> ids[i] != ids[j]
  }

  /** A record stored under a status, releasing any lease. */
  function Settled(s: Store, record: Record, status: Status): Store {
    Store(
      if record.id in s.records then s.order else s.order + [record.id],
      s.records[record.id := record],
      s.status[record.id := status],
      s.leased - {record.id}
    )
  }

  function SettledAll(s: Store, records: seq<Record>, status: Status): Store
    decreases |records|
  {
    if records == [] then s else SettledAll(Settled(s, records[0], status), records[1..], status)
  }

  lemma SettledKeepsValid(s: Store, record: Record, status: Status)
    requires ValidStore(s)
    ensures ValidStore(Settled(s, record, status))
  {
    var t := Settled(s, record, status);
    assert forall id :: id in t.order <==> id in s.order || id == record.id;
  }

  // ----- oldest first -----

  predicate OldestFirst(s: seq<Record>) {
    forall i, j :: 0 <= i < j < |s| ==> s[i].createdAt <= s[j].createdAt
  }

  /** The records created at one time, in order. */
  function At(s: seq<Record>, time: int): seq<Record> {
    if s == [] then []
    else At(s[..|s| - 1], time) + if s[|s| - 1].createdAt == time then [s[|s| - 1]] else []
  }

  /** Put a record after every one as old. */
  function Insert(s: seq<Record>, r: Record): seq<Record> {
    if s == [] || s[|s| - 1].createdAt <= r.createdAt then s + [r]
    else Insert(s[..|s| - 1], r) + [s[|s| - 1]]
  }

  /** A stable sort by age. */
  function Sort(s: seq<Record>): seq<Record> {
    if s == [] then [] else Insert(Sort(s[..|s| - 1]), s[|s| - 1])
  }

  lemma AtAppend(s: seq<Record>, r: Record, time: int)
    ensures At(s + [r], time) == At(s, time) + if r.createdAt == time then [r] else []
  {
    assert (s + [r])[..|s|] == s;
  }

  lemma AtOlder(s: seq<Record>, time: int)
    requires forall r <- s :: r.createdAt < time
    ensures At(s, time) == []
  {
    if s != [] {
      AtOlder(s[..|s| - 1], time);
    }
  }

  lemma {:induction false} InsertSorts(s: seq<Record>, r: Record)
    requires OldestFirst(s)
    ensures var t := Insert(s, r); OldestFirst(t) && forall x :: x in t <==> x in s || x == r
  {
    if s != [] && s[|s| - 1].createdAt > r.createdAt {
      var front := s[..|s| - 1];
      InsertSorts(front, r);
      var t := Insert(s, r);
      assert s == front + [s[|s| - 1]];
      forall i | 0 <= i < |t| - 1 ensures t[i].createdAt <= t[|t| - 1].createdAt {
        assert t[i] == Insert(front, r)[i];
        assert t[i] in Insert(front, r);
      }
    }
  }

  lemma {:induction false} InsertIsStable(s: seq<Record>, r: Record, time: int)
    requires OldestFirst(s)
    ensures At(Insert(s, r), time) == At(s, time) + if r.createdAt == time then [r] else []
  {
    if s == [] || s[|s| - 1].createdAt <= r.createdAt {
      AtAppend(s, r, time);
    } else {
      var front, last := s[..|s| - 1], s[|s| - 1];
      assert s == front + [last];
      AtAppend(front, last, time);
      InsertIsStable(front, r, time);
      AtAppend(Insert(front, r), last, time);
      if last.createdAt == time {
        assert r.createdAt != time;
        assert At(front, time) + [] == At(front, time);
      }
    }
  }

  /** Sorting keeps the records of one age in the order they were in, so all of them, and no other. */
  lemma {:induction false} SortIsStable(s: seq<Record>)
    ensures OldestFirst(Sort(s))
    ensures forall time :: At(Sort(s), time) == At(s, time)
    ensures forall x :: x in Sort(s) <==> x in s
  {
    if s != [] {
      var front, last := s[..|s| - 1], s[|s| - 1];
      SortIsStable(front);
      InsertSorts(Sort(front), last);
      assert s == front + [last];
      forall time ensures At(Sort(s), time) == At(s, time) {
        InsertIsStable(Sort(front), last, time);
      }
    }
  }

  predicate DistinctIds(s: seq<Record>) {
    forall i, j :: 0 <= i < j < |s| ==> s[i].id != s[j].id
  }

  lemma {:induction false} InsertKeepsDistinct(s: seq<Record>, r: Record)
    requires DistinctIds(s) && OldestFirst(s) && forall x <- s :: x.id != r.id
    ensures DistinctIds(Insert(s, r))
  {
    if s != [] && s[|s| - 1].createdAt > r.createdAt {
      var front, last := s[..|s| - 1], s[|s| - 1];
      InsertKeepsDistinct(front, r);
      InsertSorts(front, r);
      var t := Insert(front, r);
      forall i | 0 <= i < |t| ensures t[i].id != last.id {
        assert t[i] in t;
        if t[i] != r {
          var k :| 0 <= k < |front| && front[k] == t[i];
        }
      }
    }
  }

  lemma {:induction false} SortKeepsDistinct(s: seq<Record>)
    requires DistinctIds(s)
    ensures DistinctIds(Sort(s))
  {
    if s != [] {
      var front, last := s[..|s| - 1], s[|s| - 1];
      SortKeepsDistinct(front);
      SortIsStable(front);
      InsertKeepsDistinct(Sort(front), last);
    }
  }

  // ----- claiming -----

  /** Whether a record can be claimed: pending, available, and under no lease that still runs. */
  predicate Due(s: Store, id: Id, now: int)
    requires s.records.Keys == s.status.Keys
  {
    && id in s.records && s.status[id] == Pending && s.records[id].availableAt <= now
    && (id in s.leased ==> s.leased[id] <= now)
  }

  /** What a claim gives: the oldest due records, oldest first, each once. */
  ghost predicate Claims(s: Store, claimed: seq<Record>, now: int, limit: nat)
    requires s.records.Keys == s.status.Keys
  {
    && |claimed| <= limit && OldestFirst(claimed) && DistinctIds(claimed)
    && (forall r <- claimed :: Due(s, r.id, now) && r == s.records[r.id])
    && (forall id :: Due(s, id, now) && s.records[id] !in claimed ==>
          |claimed| == limit && forall r <- claimed :: r.createdAt <= s.records[id].createdAt)
  }

  /**
   * So each record claimed is pending, available by now, and under no lease that still runs; and one that
   * is and was not claimed is younger than all that were, of which there are as many as may be.
   */
  lemma ClaimsMean(s: Store, claimed: seq<Record>, now: int, limit: nat, r: Record)
    requires ValidStore(s) && Claims(s, claimed, now, limit) && r.id in s.records && s.records[r.id] == r
    ensures r in claimed ==>
              && s.status[r.id] == Pending && r.availableAt <= now && (r.id in s.leased ==> s.leased[r.id] <= now)
    ensures r !in claimed && s.status[r.id] == Pending && r.availableAt <= now
            && (r.id in s.leased ==> s.leased[r.id] <= now) ==>
              |claimed| == limit && forall x <- claimed :: x.createdAt <= r.createdAt
  {
    assert r in claimed ==> Due(s, r.id, now);
    assert Due(s, r.id, now) && r !in claimed ==> s.records[r.id] !in claimed;
  }

  /** The store after a claim: each claimed record is leased, and nothing else changes. */
  function Leased(s: Store, claimed: seq<Record>, until: int): Store {
    if claimed == [] then s
    else
      var before := Leased(s, claimed[..|claimed| - 1], until);
      before.(leased := before.leased[claimed[|claimed| - 1].id := until])
  }

  lemma {:induction false} LeasedMeans(s: Store, claimed: seq<Record>, until: int)
    ensures var t := Leased(s, claimed, until);
            && t == s.(leased := t.leased)
            && (forall r <- claimed :: r.id in t.leased && t.leased[r.id] == until)
            && (forall id :: id in t.leased ==> id in s.leased || exists r :: r in claimed && r.id == id)
            && (forall id <- s.leased :: id in t.leased && (t.leased[id] == s.leased[id] || t.leased[id] == until))
            && (forall id <- s.leased :: (forall r <- claimed :: r.id != id) ==> t.leased[id] == s.leased[id])
  {
    if claimed != [] {
      LeasedMeans(s, claimed[..|claimed| - 1], until);
      assert claimed == claimed[..|claimed| - 1] + [claimed[|claimed| - 1]];
    }
  }

  /** The first due ones of the pending records, oldest first, are the oldest due ones. */
  lemma FirstAreClaims(s: Store, pending: seq<Record>, claimed: seq<Record>, upTo: nat, now: int, limit: nat)
    requires ValidStore(s) && OldestFirst(pending)
    requires forall r :: r in pending <==> r.id in s.records && r == s.records[r.id] && s.status[r.id] == Pending
    requires |claimed| <= limit && OldestFirst(claimed) && DistinctIds(claimed)
    requires upTo <= |pending| && (upTo < |pending| ==> |claimed| == limit)
    requires forall r :: r in claimed <==> r in pending[..upTo] && Due(s, r.id, now)
    ensures Claims(s, claimed, now, limit)
  {
    forall id | Due(s, id, now) && s.records[id] !in claimed
      ensures |claimed| == limit && forall r <- claimed :: r.createdAt <= s.records[id].createdAt
    {
      LeftIsYounger(s, pending, upTo, s.records[id]);
    }
  }

  lemma LeftIsYounger(s: Store, pending: seq<Record>, upTo: nat, left: Record)
    requires OldestFirst(pending) && upTo <= |pending| && left in pending && left !in pending[..upTo]
    ensures upTo < |pending| && forall r <- pending[..upTo] :: r.createdAt <= left.createdAt
  {
    var at :| 0 <= at < |pending| && pending[at] == left;
    assert forall k :: 0 <= k < upTo ==> pending[k] in pending[..upTo];
    forall r | r in pending[..upTo] ensures r.createdAt <= left.createdAt {
      var j :| 0 <= j < upTo && pending[j] == r;
    }
  }

  class InMemoryOutboxStore {
    const lease: int
    var order: seq<Id>
    var records: map<Id, Record>
    var status: map<Id, Status>
    var leased: map<Id, int>

    function Value(): Store
      reads this
    {
      Store(order, records, status, leased)
    }

    constructor (lease: int)
      ensures ValidStore(Value()) && Value() == Empty && this.lease == lease
    {
      this.lease := lease;
      order, records, status, leased := [], map[], map[], map[];
    }

    /** Store a record under a status, releasing any lease. */
    method Settle(record: Record, newStatus: Status)
      requires ValidStore(Value())
      modifies this
      ensures ValidStore(Value()) && Value() == Settled(old(Value()), record, newStatus)
    {
      SettledKeepsValid(Value(), record, newStatus);
      if record.id !in records {
        order := order + [record.id];
      }
      records := records[record.id := record];
      status := status[record.id := newStatus];
      leased := leased - {record.id};
    }

    /** Keep added records as pending, or mark sent ones as sent. */
    method SettleAll(batch: seq<Record>, newStatus: Status)
      requires ValidStore(Value())
      modifies this
      ensures ValidStore(Value()) && Value() == SettledAll(old(Value()), batch, newStatus)
    {
      for i := 0 to |batch|
        invariant ValidStore(Value())
        invariant SettledAll(Value(), batch[i..], newStatus) == SettledAll(old(Value()), batch, newStatus)
      {
        Settle(batch[i], newStatus);
      }
    }

    /** The records with a status, oldest first. */
    method WithStatus(wanted: Status) returns (found: seq<Record>)
      requires ValidStore(Value())
      ensures OldestFirst(found) && DistinctIds(found)
      ensures forall r :: r in found <==> r.id in records && r == records[r.id] && status[r.id] == wanted
    {
      var all: seq<Record> := [];
      for i := 0 to |order|
        invariant forall r :: r in all <==> r.id in order[..i] && r == records[r.id] && status[r.id] == wanted
        invariant DistinctIds(all)
      {
        assert order[..i + 1] == order[..i] + [order[i]];
        var record := records[order[i]];
        if status[record.id] == wanted {
          forall k | 0 <= k < |all| ensures all[k].id != record.id {
            assert all[k] in all;
          }
          all := all + [record];
        }
      }
      SortIsStable(all);
      SortKeepsDistinct(all);
      found := Sort(all);
      assert order[..|order|] == order;
    }

    /** The first `limit` due records of the pending ones. */
    method FirstDue(pending: seq<Record>, now: int, limit: nat) returns (claimed: seq<Record>)
      requires ValidStore(Value()) && OldestFirst(pending) && DistinctIds(pending)
      requires forall r :: r in pending <==> r.id in records && r == records[r.id] && status[r.id] == Pending
      ensures Claims(Value(), claimed, now, limit)
    {
      claimed := [];
      var i := 0;
      while i < |pending| && |claimed| < limit
        invariant i <= |pending| && |claimed| <= limit
        invariant OldestFirst(claimed) && DistinctIds(claimed)
        invariant forall r :: r in claimed <==> r in pending[..i] && Due(Value(), r.id, now)
      {
        assert pending[..i + 1] == pending[..i] + [pending[i]];
        var record := pending[i];
        if record.availableAt <= now && (record.id !in leased || leased[record.id] <= now) {
          forall k | 0 <= k < |claimed|
            ensures claimed[k].id != record.id && claimed[k].createdAt <= record.createdAt
          {
            assert claimed[k] in claimed;
            var j :| 0 <= j < i && pending[j] == claimed[k];
          }
          claimed := claimed + [record];
        }
        i := i + 1;
      }
      FirstAreClaims(Value(), pending, claimed, i, now, limit);
    }

    method FindDue(now: int, limit: nat) returns (claimed: seq<Record>)
      requires ValidStore(Value())
      ensures Claims(Value(), claimed, now, limit)
      ensures forall r <- claimed :: r.id in records
    {
      var pending := WithStatus(Pending);
      claimed := FirstDue(pending, now, limit);
    }

    /** Claim the oldest due records, and lease them. */
    method Claim(now: int, limit: nat) returns (claimed: seq<Record>)
      requires ValidStore(Value())
      modifies this`leased
      ensures ValidStore(Value())
      ensures Claims(old(Value()), claimed, now, limit)
      ensures Value() == Leased(old(Value()), claimed, now + lease)
    {
      ghost var before := Value();
      claimed := FindDue(now, limit);
      assert Claims(before, claimed, now, limit) && Value() == before;
      LeaseAll(claimed, now + lease);
    }

    method LeaseAll(claimed: seq<Record>, until: int)
      requires ValidStore(Value()) && forall r <- claimed :: r.id in records
      modifies this`leased
      ensures ValidStore(Value()) && Value() == Leased(old(Value()), claimed, until)
    {
      for i := 0 to |claimed|
        invariant ValidStore(Value()) && Value() == Leased(old(Value()), claimed[..i], until)
      {
        assert claimed[..i + 1][..i] == claimed[..i] && claimed[i] in claimed;
        leased := leased[claimed[i].id := until];
      }
      assert claimed[..|claimed|] == claimed;
    }
  }
}
