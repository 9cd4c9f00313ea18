/**
 The outbox service as the object that owns the table. Each method is one call
 of the service, with the instants it reads from the clock as arguments; a
 failure call is its two statements, since others may run between them.
 */
module OutboxService {
  import opened Options
  import opened OutboxTable
  import opened OutboxQueue
  import opened OutboxColumns
  import opened Selections
  import OutboxProtocol

  /** The part of the DTO that makes the idempotency key. */
  datatype NewEvent = NewEvent(eventType: string, aggregateType: string, aggregateId: string, recipientId: string, idempotencyKey: Option<string>)

  function IdempotencyKey(dto: NewEvent): string {
    if dto.idempotencyKey.Some? && dto.idempotencyKey.value != "" then dto.idempotencyKey.value
    else dto.eventType + ":" + dto.aggregateType + ":" + dto.aggregateId + ":" + dto.recipientId
  }

  /** A key that the caller gives is used as it is. */
  lemma GivenKeyIsUsed(dto: NewEvent)
    requires dto.idempotencyKey.Some? && dto.idempotencyKey.value != ""
    ensures IdempotencyKey(dto) == dto.idempotencyKey.value
  {
  }

  predicate HasNoKey(dto: NewEvent) {
    dto.idempotencyKey.None? || dto.idempotencyKey.value == ""
  }

  /** What stands before the first separator, and what after it. */
  function SplitField(s: string): (string, string) {
    if s == "" then ("", "")
    else if s[0] == ':' then ("", s[1..])
    else var (a, x) := SplitField(s[1..]); ([s[0]] + a, x)
  }

  lemma {:induction false} SplitFieldIs(a: string, x: string)
    requires ':' !in a
    ensures SplitField(a + ":" + x) == (a, x)
    decreases |a|
  {
    var s := a + ":" + x;
    if a == "" {
      assert s[1..] == x;
    } else {
      SplitFieldIs(a[1..], x);
      assert s[1..] == a[1..] + ":" + x;
      assert [a[0]] + a[1..] == a;
    }
  }

  /**
   Without a given key, two events get the same one if and only if they agree in event type, aggregate and
   recipient; none of the first three fields holds the separator.
   */
  lemma DefaultKeysAgreeIff(d: NewEvent, e: NewEvent)
    requires HasNoKey(d) && HasNoKey(e)
    requires forall f :: f in {d.eventType, d.aggregateType, d.aggregateId, e.eventType, e.aggregateType, e.aggregateId} ==> ':' !in f
    ensures IdempotencyKey(d) == IdempotencyKey(e) <==>
      d.eventType == e.eventType && d.aggregateType == e.aggregateType && d.aggregateId == e.aggregateId && d.recipientId == e.recipientId
  {
    var fields := {d.eventType, d.aggregateType, d.aggregateId, e.eventType, e.aggregateType, e.aggregateId};
    assert d.eventType in fields && d.aggregateType in fields && d.aggregateId in fields;
    assert e.eventType in fields && e.aggregateType in fields && e.aggregateId in fields;
    if IdempotencyKey(d) == IdempotencyKey(e) {
      var d3, e3 := d.aggregateId + ":" + d.recipientId, e.aggregateId + ":" + e.recipientId;
      var d2, e2 := d.aggregateType + ":" + d3, e.aggregateType + ":" + e3;
      assert IdempotencyKey(d) == d.eventType + ":" + d2 && IdempotencyKey(e) == e.eventType + ":" + e2;
      SplitFieldIs(d.eventType, d2);
      SplitFieldIs(e.eventType, e2);
      SplitFieldIs(d.aggregateType, d3);
      SplitFieldIs(e.aggregateType, e3);
      SplitFieldIs(d.aggregateId, d.recipientId);
      SplitFieldIs(e.aggregateId, e.recipientId);
    }
  }

  /** The columns that a claim must leave alone. */
  predicate ClaimKeeps(o: Row, c: Row) {
    && c.key == o.key && c.socket == o.socket && c.fcm == o.fcm && c.attempts == o.attempts && c.maxAttempts == o.maxAttempts
    && c.availableAt == o.availableAt && c.processedAt == o.processedAt && c.failedAt == o.failedAt && c.lastError == o.lastError
    && c.acknowledgedAt == o.acknowledgedAt && c.createdAt == o.createdAt
  }

  /** Due for a claim: PENDING and available, or PROCESSING under a lease that has gone stale. */
  predicate Due(r: Row, now: Time, staleBefore: Time) {
    (r.status.Pending? && r.availableAt <= now) || (r.status.Processing? && r.updatedAt <= staleBefore)
  }

  /**
   What a claim does, column by column: it returns rows as they are stored, all of them due, not locked, and leased
   at `now`; it changes nothing else of them and no other row; and a due row that nobody has
   locked is left only if the batch is full, of rows no younger than it.
   */
  ghost predicate IsClaim(before: Table, after: Table, claimed: map<Id, Row>, now: Time, staleBefore: Time, locked: set<Id>, batchSize: nat) {
    && LeasesOnly(before, after, claimed, now, staleBefore, locked)
    && |claimed| <= batchSize
    && (forall id :: id in before && id !in locked && id !in claimed && Due(before[id], now, staleBefore) ==>
          |claimed| == batchSize && forall c :: c in claimed && c in before ==> before[c].createdAt <= before[id].createdAt)
  }

  ghost predicate LeasesOnly(before: Table, after: Table, claimed: map<Id, Row>, now: Time, staleBefore: Time, locked: set<Id>) {
    && after.Keys == before.Keys
    && (forall id :: id in after && id !in claimed ==> after[id] == before[id])
    && (forall id :: id in claimed ==>
          && id in before && id !in locked && claimed[id] == after[id] && Due(before[id], now, staleBefore)
          && claimed[id].status.Processing? && claimed[id].updatedAt == now && ClaimKeeps(before[id], claimed[id]))
  }

  lemma ClaimLeasesOnly(rows: Table, claimed: map<Id, Row>, now: Time, staleBefore: Time, locked: set<Id>)
    requires claimed.Keys <= Eligible(rows, now, staleBefore) - locked && claimed == Returned(rows, claimed.Keys, now)
    ensures LeasesOnly(rows, ClaimTable(rows, claimed.Keys, now), claimed, now, staleBefore, locked)
  {
  }

  lemma ClaimIs(rows: Table, claimed: map<Id, Row>, now: Time, staleBefore: Time, locked: set<Id>, batchSize: nat)
    requires OldestOf(rows, Eligible(rows, now, staleBefore) - locked, claimed.Keys, batchSize)
    requires claimed == Returned(rows, claimed.Keys, now)
    ensures IsClaim(rows, ClaimTable(rows, claimed.Keys, now), claimed, now, staleBefore, locked, batchSize)
  {
    assert |claimed| == |claimed.Keys|;
    ClaimLeasesOnly(rows, claimed, now, staleBefore, locked);
    LeftAreYounger(rows, Eligible(rows, now, staleBefore) - locked, claimed.Keys, batchSize);
    forall id | id in rows && id !in locked && Due(rows[id], now, staleBefore) ensures id in Eligible(rows, now, staleBefore) - locked {
    }
  }

  class OutboxService {
    var rows: Table

    constructor ()
      ensures rows == map[]
    {
      rows := map[];
    }

    /** The look-up that CreateOutboxEvent begins with. */
    method FindByKey(dto: NewEvent) returns (existing: Option<Id>)
      ensures existing.Some? ==> existing.value in rows && rows[existing.value].key == IdempotencyKey(dto)
      ensures existing.None? ==> forall i :: i in rows ==> rows[i].key != IdempotencyKey(dto)
    {
      if i :| i in rows && rows[i].key == IdempotencyKey(dto) {
        return Some(i);
      }
      existing := None;
    }

    /**
     The rest of the call, others having run since the look-up: the event that was found, else the
     new one, else None if the unique index has refused it. Keys stay unique whoever runs when.
     */
    method CreateOutboxEvent(id: Id, dto: NewEvent, existing: Option<Id>, now: Time) returns (stored: Option<Id>)
      requires id !in rows
      modifies this
      ensures existing.Some? ==> stored == existing && rows == old(rows)
      ensures existing.None? ==>
                (stored.None? <==> exists i :: i in old(rows) && old(rows)[i].key == IdempotencyKey(dto))
      ensures existing.None? && stored.Some? ==>
                stored.value == id && rows.Keys == old(rows).Keys + {id} && rows[id].key == IdempotencyKey(dto)
                && rows[id].status.Pending? && rows[id].attempts == 0 && rows[id].maxAttempts == 5
                && rows[id].availableAt == rows[id].createdAt == rows[id].updatedAt == now
                && rows[id].socket == rows[id].fcm == ChannelState(ChannelPending, None, None)
                && rows[id].processedAt.None? && rows[id].failedAt.None? && rows[id].lastError.None? && rows[id].acknowledgedAt.None?
      ensures stored.None? ==> rows == old(rows)
      ensures forall i :: i in old(rows) ==> i in rows && rows[i] == old(rows)[i]
      ensures OutboxProtocol.UniqueKeys(old(rows)) ==> OutboxProtocol.UniqueKeys(rows)
    {
      if existing.Some? {
        return existing;
      }
      var key := IdempotencyKey(dto);
      if i :| i in rows && rows[i].key == key {
        return None;
      }
      rows := rows[id := NewRow(key, now)];
      stored := Some(id);
    }

    /** SELECT ... ORDER BY created_at LIMIT over the rows of `pool`. */
    method Select(pool: set<Id>, limit: nat) returns (picked: set<Id>)
      requires pool <= rows.Keys
      ensures OldestOf(rows, pool, picked, limit)
    {
      var table := rows;
      var created := id => if id in table then table[id].createdAt else 0;
      picked := {};
      while |picked| < limit && picked != pool
        invariant picked <= pool && |picked| <= limit && |picked| <= |pool|
        invariant forall p, q :: p in picked && q in pool - picked ==> rows[p].createdAt <= rows[q].createdAt
        decreases pool - picked
      {
        assert pool - picked != {};
        var next := Oldest(pool - picked, created);
        assert |pool - (picked + {next})| == |pool| - |picked + {next}|;
        picked := picked + {next};
      }
      assert |pool - picked| == |pool| - |picked|;
    }

    /** The claim: locked rows are skipped, the oldest of the rest are leased to the caller at `now`. */
    method ClaimPendingEvents(batchSize: nat, now: Time, staleBefore: Time, locked: set<Id>) returns (claimed: map<Id, Row>)
      modifies this
      ensures OldestOf(old(rows), Eligible(old(rows), now, staleBefore) - locked, claimed.Keys, batchSize)
      ensures IsClaim(old(rows), rows, claimed, now, staleBefore, locked, batchSize)
      ensures rows == ClaimTable(old(rows), claimed.Keys, now)
      ensures claimed == Returned(old(rows), claimed.Keys, now)
    {
      var picked := Select(Eligible(rows, now, staleBefore) - locked, batchSize);
      rows := ClaimTable(rows, picked, now);
      claimed := map id | id in picked :: rows[id];
      assert claimed.Keys == picked;
      ClaimIs(old(rows), claimed, now, staleBefore, locked, batchSize);
    }

    /** The transactional fallback: it returns the rows it read, with the new status and lease filled in. */
    method ClaimFallback(batchSize: nat, now: Time, staleBefore: Time) returns (claimed: map<Id, Row>)
      modifies this
      ensures OldestOf(old(rows), Eligible(old(rows), now, staleBefore), claimed.Keys, batchSize)
      ensures IsClaim(old(rows), rows, claimed, now, staleBefore, {}, batchSize)
      ensures rows == ClaimTable(old(rows), claimed.Keys, now)
      ensures claimed == Returned(old(rows), claimed.Keys, now)
    {
      var picked := Select(Eligible(rows, now, staleBefore), batchSize);
      claimed := map id | id in picked :: rows[id].(status := Processing, updatedAt := now);
      assert claimed.Keys == picked && Eligible(rows, now, staleBefore) - {} == Eligible(rows, now, staleBefore);
      ClaimIs(rows, claimed, now, staleBefore, {}, batchSize);
      if picked == {} {
        assert ClaimTable(rows, picked, now) == rows;
        return;
      }
      rows := ClaimTable(rows, picked, now);
    }

    /**
     Effective on an open row that carries the lease shown, and then only on that row and only
     once: afterwards no lease matches it. It is the protocol's success step.
     */
    method MarkEventSuccess(id: Id, lease: Option<Time>, now: Time) returns (done: bool)
      modifies this
      ensures done <==> id in old(rows) && (old(rows)[id].status.Pending? || old(rows)[id].status.Processing?)
                        && (lease.Some? ==> old(rows)[id].updatedAt == lease.value)
      ensures !done ==> rows == old(rows) && !(id in rows && OutcomeMatches(rows[id], lease))
      ensures rows.Keys == old(rows).Keys && forall i :: i in rows && i != id ==> rows[i] == old(rows)[i]
      ensures done ==>
        && rows[id] == old(rows)[id].(status := Sent, processedAt := Some(now), updatedAt := now)
        && forall l :: !OutcomeMatches(rows[id], l)
      ensures forall cfg, s | OutboxProtocol.Known(s) && s.rows == old(rows) && s.clock == now && id !in s.locks ::
        OutboxProtocol.Apply(cfg, s, OutboxProtocol.MarkSuccess(id, lease)).rows == rows
    {
      done := id in rows && OutcomeMatches(rows[id], lease);
      if done {
        rows := rows[id := SucceedRow(rows[id], now)];
      }
    }

    /** The first statement of a failure call: it finds the row exactly if the protocol's read step can happen. */
    method FindForFailure(id: Id, lease: Option<Time>) returns (record: Option<Row>)
      ensures record.Some? ==> id in rows && record.value == rows[id]
      ensures forall cfg, s, call, permanent | OutboxProtocol.Known(s) && s.rows == rows && call !in s.calls ::
        OutboxProtocol.Enabled(cfg, s, OutboxProtocol.ReadFailure(call, id, lease, permanent)) <==> record.Some?
    {
      if id in rows && OutcomeMatches(rows[id], lease) {
        record := Some(rows[id]);
      } else {
        record := None;
      }
    }

    /** The second statement of a failure call, which counts from the record the first one found. */
    method MarkEventFailure(id: Id, error: string, permanent: bool, lease: Option<Time>, record: Option<Row>, now: Time) returns (done: bool)
      modifies this
      ensures done <==> record.Some? && id in old(rows) && OutcomeMatches(old(rows)[id], lease)
      ensures rows == if done
        then old(rows)[id := FailRow(old(rows)[id], record.value.attempts, record.value.maxAttempts, permanent, error, now)]
        else old(rows)
      ensures done && old(rows)[id] == record.value ==>
        && rows[id].attempts == old(rows)[id].attempts + 1
        && (rows[id].status.Failed? <==> permanent || rows[id].attempts >= rows[id].maxAttempts)
        && (rows[id].status.Pending? ==> rows[id].availableAt == now + RetryDelay(rows[id].attempts))
        && !rows[id].status.Processing? && !rows[id].status.Sent?
      ensures done ==>
        && rows[id].lastError == Some(error) && rows[id].updatedAt == now
        && (rows[id].status.Failed? ==> rows[id].failedAt == Some(now) && rows[id].availableAt == old(rows)[id].availableAt)
        && (rows[id].status.Pending? ==> rows[id].failedAt == old(rows)[id].failedAt)
        && rows[id] == old(rows)[id].(status := rows[id].status, attempts := rows[id].attempts, availableAt := rows[id].availableAt,
                                      failedAt := rows[id].failedAt, lastError := rows[id].lastError, updatedAt := rows[id].updatedAt)
    {
      if record.None? || id !in rows || !OutcomeMatches(rows[id], lease) {
        return false;
      }
      BackoffIsRetryDelay(record.value.attempts + 1);
      var nextAttempt := record.value.attempts + 1;
      if permanent || nextAttempt >= record.value.maxAttempts {
        rows := rows[id := rows[id].(status := Failed, attempts := nextAttempt, failedAt := Some(now),
                                     lastError := Some(error), updatedAt := now)];
      } else {
        rows := rows[id := rows[id].(status := Pending, attempts := nextAttempt, availableAt := now + Backoff(nextAttempt),
                                     lastError := Some(error), updatedAt := now)];
      }
      done := true;
    }

    /**
     No stale row is left, the rows that changed are counted, and they are exactly the stale ones; they
     lose their lease and nothing else, and whatever could be claimed still can be.
     */
    method ReconcileStaleEvents(staleBefore: Time, now: Time) returns (count: nat)
      modifies this
      ensures rows == ReconcileTable(old(rows), staleBefore, now)
      ensures rows.Keys == old(rows).Keys && forall id :: id in rows ==> !Stale(rows[id], staleBefore)
      ensures count == |set id | id in rows && rows[id] != old(rows)[id]|
      ensures forall id :: id in rows ==>
        if old(rows)[id].status.Processing? && old(rows)[id].updatedAt <= staleBefore
        then rows[id] == old(rows)[id].(status := Pending, updatedAt := now)
        else rows[id] == old(rows)[id]
      ensures forall id, t | id in rows && staleBefore <= t && Claimable(old(rows)[id], t, staleBefore)
                && (old(rows)[id].status.Processing? ==> old(rows)[id].availableAt <= old(rows)[id].updatedAt) ::
                Claimable(rows[id], t, staleBefore)
    {
      var stale := set id | id in rows && Stale(rows[id], staleBefore);
      count := |stale|;
      rows := ReconcileTable(rows, staleBefore, now);
      assert stale == set id | id in rows && rows[id] != old(rows)[id];
    }

    /** Deletes exactly the prunable rows; no PENDING or PROCESSING row is among them. */
    method CleanupAgedEvents(ackCutoff: Time, unackCutoff: Time, failedCutoff: Time) returns (deletedCount: nat)
      modifies this
      ensures rows.Keys <= old(rows).Keys && deletedCount == |old(rows).Keys| - |rows.Keys|
      ensures forall id :: id in old(rows) ==>
        var r := old(rows)[id];
        && (r.status.Sent? && r.acknowledgedAt.None? ==> (id in rows <==> r.createdAt > unackCutoff))
        && (r.status.Sent? && r.acknowledgedAt.Some? ==> (id in rows <==> r.acknowledgedAt.value > ackCutoff))
        && (r.status.Failed? && r.failedAt.Some? ==> (id in rows <==> r.failedAt.value > failedCutoff))
        && (r.status.Failed? && r.failedAt.None? ==> id in rows)
      ensures forall id :: id in rows ==> rows[id] == old(rows)[id]
      ensures forall id :: id in old(rows) && Open(old(rows)[id]) ==> id in rows
    {
      var doomed := set id | id in rows && Prunable(rows[id], ackCutoff, unackCutoff, failedCutoff);
      deletedCount := |doomed|;
      rows := rows - doomed;
      assert rows.Keys == old(rows).Keys - doomed;
    }

    /** Both channel methods; an unknown id is ignored, as the caught update error is. */
    method RecordChannel(id: Id, channel: Channel, error: Option<string>, now: Time, stamp: Option<Time>)
      modifies this
      ensures rows.Keys == old(rows).Keys
      ensures forall i :: i in rows && i != id ==> rows[i] == old(rows)[i]
      ensures id in rows ==> rows[id] == ChannelRow(old(rows)[id], channel, error, now, stamp)
      ensures id in rows ==>
        var o, n := old(rows)[id], rows[id];
        var before := if channel.Socket? then o.socket else o.fcm;
        var after := if error.None? then ChannelState(ChannelSent, Some(now), None) else ChannelState(ChannelFailed, before.sentAt, error);
        && (channel.Socket? ==> n == o.(socket := after, updatedAt := n.updatedAt))
        && (channel.Fcm? ==> n == o.(fcm := after, updatedAt := n.updatedAt))
        && n.updatedAt == (if stamp.Some? then stamp.value else o.updatedAt)
    {
      if id in rows {
        rows := rows[id := ChannelRow(rows[id], channel, error, now, stamp)];
      }
    }
  }
}
