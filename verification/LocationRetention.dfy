/**
 Pruning of worker_location history: a loop that deletes bounded batches of
 rows older than a cutoff fixed at the start, while other writers go on.
 */
module LocationRetention {
  import opened Options
  import opened Numbers

  type Id = nat
  type Time = int

  /** updated_at by row; a NULL is older than nothing. */
  type Table = map<Id, Option<Time>>

  predicate IsExpired(updatedAt: Option<Time>, cutoff: Time) {
    updatedAt.Some? && updatedAt.value < cutoff
  }

  function Expired(rows: Table, cutoff: Time): set<Id> {
    set id | id in rows && IsExpired(rows[id], cutoff)
  }

  /** max(1, min(options.batchSize || 1000, 5000)) */
  function BatchSize(option: Option<int>): (b: int)
    ensures 1 <= b <= 5000
    ensures option.None? || option.value == 0 ==> b == 1000
    ensures option.Some? && option.value != 0 && 1 <= option.value <= 5000 ==> b == option.value
    ensures option.Some? && option.value > 5000 ==> b == 5000
    ensures option.Some? && option.value < 0 ==> b == 1
  {
    Max(1, Min(if option.Some? && option.value != 0 then option.value else 1000, 5000))
  }

  lemma {:induction false} MulMonotone(x: nat, y: nat, b: nat)
    requires x < y
    ensures x * b + b <= y * b
    decreases y
  {
    assert y * b == (y - 1) * b + b;
    if x < y - 1 {
      MulMonotone(x, y - 1, b);
    }
  }

  lemma QuotientIs(n: nat, b: nat, k: nat, r: nat)
    requires n == k * b + r && r < b
    ensures n / b == k
  {
    var q := n / b;
    assert q * b <= n < q * b + b;
    if q < k {
      MulMonotone(q, k, b);
      assert false;
    }
    if q > k {
      MulMonotone(k, q, b);
      assert false;
    }
  }

  /** Rows that are not expired take expired ones away at most, by replacing them. */
  lemma ArrivalsExpireNothing(rows: Table, arrived: Table, cutoff: Time)
    requires forall id :: id in arrived ==> !IsExpired(arrived[id], cutoff)
    ensures Expired(rows + arrived, cutoff) == Expired(rows, cutoff) - arrived.Keys
  {
  }

  /** No writer touches a row of `expired`, and no other cleaner deletes one. */
  ghost predicate Quiet(arrivals: nat -> Table, rivals: nat -> set<Id>, expired: set<Id>) {
    (forall k, id :: id in arrivals(k) ==> id !in expired) && (forall k, id :: id in rivals(k) ==> id !in expired)
  }

  /** No writer brings an expired row. */
  ghost predicate Fresh(arrivals: nat -> Table, cutoff: Time) {
    forall k, id :: id in arrivals(k) ==> !IsExpired(arrivals(k)[id], cutoff)
  }

  /** What holds between batches, `start` being the table before the first and `taken` what other cleaners have deleted. */
  ghost predicate Progress(start: Table, rows: Table, cutoff: Time, deleted: set<Id>, taken: set<Id>, quiet: bool) {
    && deleted <= Expired(start, cutoff)
    && Expired(rows, cutoff) <= Expired(start, cutoff) - deleted
    && (forall id :: id in start && id !in deleted && id !in taken ==> id in rows)
    && (quiet ==> Expired(rows, cutoff) == Expired(start, cutoff) - deleted)
  }

  /** A batch: the subquery picks, another cleaner may delete some of the picked rows and others, and the rest of the picked go. */
  lemma BatchMakesProgress(start: Table, rows: Table, cutoff: Time, deleted: set<Id>, taken: set<Id>, quiet: bool, picked: set<Id>, rival: set<Id>)
    requires Progress(start, rows, cutoff, deleted, taken, quiet) && picked <= Expired(rows, cutoff)
    requires quiet ==> rival !! Expired(start, cutoff)
    ensures Progress(start, rows - picked - rival, cutoff, deleted + (picked - rival), taken + rival, quiet)
    ensures |deleted + (picked - rival)| == |deleted| + |picked - rival|
    ensures |Expired(rows - picked - rival, cutoff)| <= |Expired(rows, cutoff)| - |picked|
  {
    var left, next := Expired(rows, cutoff), Expired(rows - picked - rival, cutoff);
    assert next == left - picked - rival;
    assert |left - picked| == |left| - |picked|;
    assert |left - picked - next| == |left - picked| - |next|;
    assert deleted !! picked - rival;
  }

  lemma ArrivalsKeepProgress(start: Table, rows: Table, cutoff: Time, deleted: set<Id>, taken: set<Id>, quiet: bool, arrived: Table)
    requires Progress(start, rows, cutoff, deleted, taken, quiet)
    requires forall id :: id in arrived ==> !IsExpired(arrived[id], cutoff)
    requires quiet ==> arrived.Keys !! Expired(start, cutoff)
    ensures Progress(start, rows + arrived, cutoff, deleted, taken, quiet)
    ensures |Expired(rows + arrived, cutoff)| <= |Expired(rows, cutoff)|
  {
    ArrivalsExpireNothing(rows, arrived, cutoff);
    PartIsSmaller(Expired(rows, cutoff), arrived.Keys);
  }

  lemma AllDeleted(start: Table, rows: Table, cutoff: Time, deleted: set<Id>, taken: set<Id>, quiet: bool)
    requires Progress(start, rows, cutoff, deleted, taken, quiet) && Expired(rows, cutoff) == {}
    ensures quiet ==> deleted == Expired(start, cutoff)
  {
    if quiet {
      forall id | id in Expired(start, cutoff) ensures id in deleted {
        assert id !in Expired(rows, cutoff);
      }
    }
  }

  /** What other cleaners delete during the first n batches. */
  function Taken(rivals: nat -> set<Id>, n: nat): set<Id> {
    if n == 0 then {} else Taken(rivals, n - 1) + rivals(n - 1)
  }

  lemma PartIsSmaller(whole: set<Id>, other: set<Id>)
    ensures |whole - other| <= |whole|
  {
    assert |whole - (whole - other)| == |whole| - |whole - other|;
  }

  /** The rows in k full batches. */
  function InFull(k: nat, b: nat): nat {
    if k == 0 then 0 else InFull(k - 1, b) + b
  }

  lemma {:induction false} InFullIs(k: nat, b: nat)
    ensures InFull(k, b) == k * b
  {
    if k > 0 {
      InFullIs(k - 1, b);
      assert k * b == (k - 1) * b + b;
    }
  }

  /** k full batches and a short one. */
  lemma BatchesOf(n: nat, b: nat, k: nat, r: nat)
    requires n == InFull(k, b) + r && r < b
    ensures k == n / b
  {
    InFullIs(k, b);
    QuotientIs(n, b, k, r);
  }

  /** What holds after n batches. */
  ghost predicate AfterBatches(start: Table, rows: Table, cutoff: Time, deleted: set<Id>, arrivals: nat -> Table, rivals: nat -> set<Id>, n: nat) {
    Progress(start, rows, cutoff, deleted, Taken(rivals, n), Quiet(arrivals, rivals, Expired(start, cutoff)))
  }

  lemma NextBatch(start: Table, rows: Table, cutoff: Time, deleted: set<Id>, arrivals: nat -> Table, rivals: nat -> set<Id>, n: nat, picked: set<Id>)
    requires AfterBatches(start, rows, cutoff, deleted, arrivals, rivals, n) && picked <= Expired(rows, cutoff)
    ensures AfterBatches(start, rows - picked - rivals(n), cutoff, deleted + (picked - rivals(n)), arrivals, rivals, n + 1)
    ensures |deleted + (picked - rivals(n))| == |deleted| + |picked - rivals(n)| && |picked - rivals(n)| <= |picked|
    ensures |Expired(rows - picked - rivals(n), cutoff)| <= |Expired(rows, cutoff)| - |picked|
  {
    BatchMakesProgress(start, rows, cutoff, deleted, Taken(rivals, n), Quiet(arrivals, rivals, Expired(start, cutoff)), picked, rivals(n));
    PartIsSmaller(picked, rivals(n));
  }

  lemma NextArrivals(start: Table, rows: Table, cutoff: Time, deleted: set<Id>, arrivals: nat -> Table, rivals: nat -> set<Id>, n: nat)
    requires AfterBatches(start, rows, cutoff, deleted, arrivals, rivals, n)
    requires Fresh(arrivals, cutoff)
    ensures AfterBatches(start, rows + arrivals(n), cutoff, deleted, arrivals, rivals, n)
    ensures |Expired(rows + arrivals(n), cutoff)| <= |Expired(rows, cutoff)|
  {
    ArrivalsKeepProgress(start, rows, cutoff, deleted, Taken(rivals, n), Quiet(arrivals, rivals, Expired(start, cutoff)), arrivals(n));
  }

  /** What holds when batch n, the last one, came up short; robbed: another cleaner deleted one of its rows. */
  ghost predicate Ended(start: Table, rows: Table, cutoff: Time, deleted: set<Id>, arrivals: nat -> Table, rivals: nat -> set<Id>, n: nat, robbed: bool) {
    && (!robbed ==> Expired(rows, cutoff) == {})
    && (robbed ==> !(rivals(n) !! Expired(start, cutoff)))
    && (Quiet(arrivals, rivals, Expired(start, cutoff)) ==> deleted == Expired(start, cutoff))
  }

  lemma LastBatch(start: Table, rows: Table, cutoff: Time, deleted: set<Id>, arrivals: nat -> Table, rivals: nat -> set<Id>, n: nat, picked: set<Id>, limit: nat)
    requires AfterBatches(start, rows, cutoff, deleted, arrivals, rivals, n) && picked <= Expired(rows, cutoff)
    requires |picked| == Min(limit, |Expired(rows, cutoff)|) && |picked - rivals(n)| < limit
    ensures Ended(start, rows - picked - rivals(n), cutoff, deleted + (picked - rivals(n)), arrivals, rivals, n, !(picked !! rivals(n)))
  {
    var rival, quiet := rivals(n), Quiet(arrivals, rivals, Expired(start, cutoff));
    ShortBatchFinishesIff(rows, cutoff, limit, picked, rival);
    if picked !! rival {
      BatchMakesProgress(start, rows, cutoff, deleted, Taken(rivals, n), quiet, picked, rival);
      AllDeleted(start, rows - picked - rival, cutoff, deleted + (picked - rival), Taken(rivals, n) + rival, quiet);
    } else {
      var id :| id in picked && id in rival;
      assert id in rival && id in Expired(start, cutoff);
    }
  }

  /**
   A batch that comes up short ends the loop. It has left no expired row if and only if all of them fitted
   into the batch, or another cleaner has just deleted those that did not.
   */
  lemma ShortBatchFinishesIff(rows: Table, cutoff: Time, limit: nat, picked: set<Id>, rival: set<Id>)
    requires picked <= Expired(rows, cutoff) && |picked| == Min(limit, |Expired(rows, cutoff)|) && |picked - rival| < limit
    ensures Expired(rows - picked - rival, cutoff) == {}
            <==> |Expired(rows, cutoff)| <= limit || Expired(rows, cutoff) - picked <= rival
    ensures picked !! rival ==> Expired(rows - picked - rival, cutoff) == {}
  {
    var left := Expired(rows, cutoff);
    assert Expired(rows - picked - rival, cutoff) == left - picked - rival;
    assert |left - picked| == |left| - |picked|;
    if picked !! rival {
      assert picked - rival == picked;
    }
  }

  /** The ids below n. */
  function FirstIds(n: nat): (ids: set<Id>)
    ensures |ids| == n && forall id :: id in ids <==> 0 <= id < n
  {
    if n == 0 then {} else FirstIds(n - 1) + {n - 1}
  }

  /** A second cleaner stops the loop early: for every batch size there is a short batch that leaves an expired row behind. */
  lemma SecondCleanerLeavesRows(limit: nat) returns (rows: Table, cutoff: Time, picked: set<Id>, rival: set<Id>)
    requires limit >= 1
    ensures picked <= Expired(rows, cutoff) && |picked| == Min(limit, |Expired(rows, cutoff)|)
    ensures |picked - rival| < limit && Expired(rows - picked - rival, cutoff) != {}
  {
    cutoff := 1;
    var ids := FirstIds(limit + 1);
    rows := map id | id in ids :: Some(0);
    picked, rival := FirstIds(limit), {0};
    assert Expired(rows, cutoff) == FirstIds(limit + 1);
    assert |picked - rival| == |picked| - 1;
    assert limit in Expired(rows - picked - rival, cutoff);
  }

  class LocationRetentionService {
    var rows: Table

    constructor (rows: Table)
      ensures this.rows == rows
    {
      this.rows := rows;
    }

    /**
     DELETE ... WHERE id IN (SELECT ... LIMIT n): the choice among the expired rows is arbitrary, and
     the rows of `rival` are deleted by others between the choice and the deletion.
     */
    method DeleteBatch(cutoff: Time, limit: nat, rival: set<Id>) returns (count: nat, ghost picked: set<Id>)
      modifies this
      ensures picked <= Expired(old(rows), cutoff) && |picked| == Min(limit, |Expired(old(rows), cutoff)|)
      ensures count == |picked - rival| && rows == old(rows) - picked - rival
    {
      var chosen := Choose(Expired(rows, cutoff), limit);
      picked := chosen;
      count := |chosen - rival|;
      rows := rows - chosen - rival;
    }

    /** The subquery: as many as LIMIT allows, whichever they are. */
    method Choose(expired: set<Id>, limit: nat) returns (chosen: set<Id>)
      ensures chosen <= expired && |chosen| == Min(limit, |expired|)
    {
      chosen := {};
      while |chosen| < limit && chosen != expired
        invariant chosen <= expired && |chosen| <= limit && |chosen| <= |expired|
        decreases expired - chosen
      {
        assert expired - chosen != {};
        var id :| id in expired - chosen;
        assert |expired - (chosen + {id})| == |expired| - |chosen + {id}|;
        chosen := chosen + {id};
      }
      assert |expired - chosen| == |expired| - |chosen|;
    }

    /**
     `arrivals(k)` is what other writers commit after the k-th batch, rows that are not expired, new or
     replacing old ones; `rivals(k)` is what other cleaners delete during it. Whatever LIMIT
     picks, the loop ends after one batch more than its deletions fill, and deletes only rows
     that were expired from the start. No expired row is left unless the last batch lost one of
     its rows to another cleaner. If nobody touches an expired row, all n of them are deleted.
     */
    method CleanupExpiredLocationHistory(batchOption: Option<int>, cutoff: Time, arrivals: nat -> Table, rivals: nat -> set<Id>)
      returns (totalDeleted: nat, batchesProcessed: nat, ghost deleted: set<Id>, ghost robbed: bool)
      requires Fresh(arrivals, cutoff)
      modifies this
      ensures batchesProcessed == totalDeleted / BatchSize(batchOption) + 1 && totalDeleted == |deleted|
      ensures forall id :: id in deleted ==> id in old(rows) && old(rows)[id].Some? && old(rows)[id].value < cutoff
      ensures forall id :: id in old(rows) && id !in deleted && id !in Taken(rivals, batchesProcessed) ==> id in rows
      ensures !robbed ==> forall id :: id in rows ==> rows[id].None? || rows[id].value >= cutoff
      ensures robbed ==> !(rivals(batchesProcessed - 1) !! Expired(old(rows), cutoff))
      ensures Quiet(arrivals, rivals, Expired(old(rows), cutoff)) ==>
        forall id :: id in deleted <==> id in old(rows) && old(rows)[id].Some? && old(rows)[id].value < cutoff
    {
      var batchSize := BatchSize(batchOption);
      ghost var last: nat;
      totalDeleted, batchesProcessed, deleted, robbed, last := DeleteInBatches(batchSize, cutoff, arrivals, rivals);
      BatchesOf(totalDeleted, batchSize, batchesProcessed - 1, last);
      assert forall id :: id in rows && rows[id].Some? && rows[id].value < cutoff ==> id in Expired(rows, cutoff);
    }

    /** The loop itself; `last` is what its last batch deleted. */
    method DeleteInBatches(batchSize: nat, cutoff: Time, arrivals: nat -> Table, rivals: nat -> set<Id>)
      returns (totalDeleted: nat, batchesProcessed: nat, ghost deleted: set<Id>, ghost robbed: bool, ghost last: nat)
      requires batchSize >= 1 && Fresh(arrivals, cutoff)
      modifies this
      ensures batchesProcessed > 0 && AfterBatches(old(rows), rows, cutoff, deleted, arrivals, rivals, batchesProcessed)
      ensures Ended(old(rows), rows, cutoff, deleted, arrivals, rivals, batchesProcessed - 1, robbed)
      ensures totalDeleted == |deleted| == InFull(batchesProcessed - 1, batchSize) + last && last < batchSize
    {
      ghost var start := rows;
      totalDeleted, batchesProcessed, deleted, robbed, last := 0, 0, {}, false, 0;
      while true
        invariant AfterBatches(start, rows, cutoff, deleted, arrivals, rivals, batchesProcessed)
        invariant totalDeleted == |deleted| == InFull(batchesProcessed, batchSize)
        decreases |Expired(rows, cutoff)|
      {
        var result;
        result, deleted, robbed := NextDelete(cutoff, batchSize, arrivals, rivals, batchesProcessed, start, deleted);
        batchesProcessed := batchesProcessed + 1;
        totalDeleted := totalDeleted + result;
        if result < batchSize {
          last := result;
          break;
        }
        NextArrivals(start, rows, cutoff, deleted, arrivals, rivals, batchesProcessed);
        rows := rows + arrivals(batchesProcessed);
      }
    }

    /** The n-th statement of the loop, and what it means for the whole of it. */
    method NextDelete(cutoff: Time, limit: nat, ghost arrivals: nat -> Table, rivals: nat -> set<Id>, n: nat, ghost start: Table, ghost deleted: set<Id>)
      returns (result: nat, ghost deletedNow: set<Id>, ghost robbed: bool)
      requires AfterBatches(start, rows, cutoff, deleted, arrivals, rivals, n) && limit >= 1
      modifies this
      ensures AfterBatches(start, rows, cutoff, deletedNow, arrivals, rivals, n + 1)
      ensures |deletedNow| == |deleted| + result && result <= limit
      ensures result == limit ==> |Expired(rows, cutoff)| < |Expired(old(rows), cutoff)|
      ensures result < limit ==> Ended(start, rows, cutoff, deletedNow, arrivals, rivals, n, robbed)
    {
      ghost var picked;
      result, picked := DeleteBatch(cutoff, limit, rivals(n));
      NextBatch(start, old(rows), cutoff, deleted, arrivals, rivals, n, picked);
      if result < limit {
        LastBatch(start, old(rows), cutoff, deleted, arrivals, rivals, n, picked, limit);
      }
      deletedNow, robbed := deleted + (picked - rivals(n)), !(picked !! rivals(n));
    }
  }
}
