/**
 The order in which claims empty the queue. ORDER BY created_at LIMIT n leaves
 ties open, so a claim is any choice of rows that the clause allows.
 */
module OutboxQueue {
  import opened Numbers
  import opened OutboxTable
  import opened OutboxProtocol
  import opened OutboxTraces

  function Eligible(rows: Table, now: Time, staleBefore: Time): set<Id> {
    set id | id in rows && Claimable(rows[id], now, staleBefore)
  }

  /** `picked` is what ORDER BY created_at ASC LIMIT `limit` may return from `pool`. */
  ghost predicate OldestOf(rows: Table, pool: set<Id>, picked: set<Id>, limit: nat) {
    && pool <= rows.Keys && picked <= pool && |picked| == Min(limit, |pool|)
    && forall p, q :: p in picked && q in pool - picked ==> rows[p].createdAt <= rows[q].createdAt
  }

  /** What the clause leaves behind: nothing, unless the limit is reached, and then nothing older. */
  lemma LeftAreYounger(rows: Table, pool: set<Id>, picked: set<Id>, limit: nat)
    requires OldestOf(rows, pool, picked, limit)
    ensures |picked| <= limit
    ensures forall id :: id in pool && id !in picked ==>
      |picked| == limit && forall p :: p in picked ==> rows[p].createdAt <= rows[id].createdAt
  {
    if |picked| < limit {
      assert |pool - picked| == |pool| - |picked|;
      assert pool - picked == {};
    }
  }

  /** The claim's UPDATE. */
  function ClaimTable(rows: Table, picked: set<Id>, now: Time): (t: Table) {
    map id | id in rows :: if id in picked then ClaimRow(rows[id], now) else rows[id]
  }

  /** The rows the claim hands to its worker. */
  function Returned(rows: Table, picked: set<Id>, now: Time): map<Id, Row>
    requires picked <= rows.Keys
  {
    map id | id in picked :: ClaimRow(rows[id], now)
  }

  function ReconcileTable(rows: Table, staleBefore: Time, at: Time): Table {
    map id | id in rows :: if Stale(rows[id], staleBefore) then RequeueRow(rows[id], at) else rows[id]
  }

  ghost predicate DistinctCreation(rows: Table) {
    forall i, j :: i in rows && j in rows && i != j ==> rows[i].createdAt != rows[j].createdAt
  }

  /**
   A claim as the service makes it, the oldest eligible rows that nobody has locked, is the
   protocol's lock step followed by its commit.
   */
  lemma ClaimIsLockThenCommit(cfg: Config, s: State, w: Worker, now: Time, readAt: Time, limit: nat, picked: set<Id>)
    requires Known(s) && w !in s.batches && now <= readAt <= s.clock && s.clock - now <= cfg.gap
    requires OldestOf(s.rows, Eligible(s.rows, now, readAt - cfg.stale) - s.locks.Keys, picked, limit)
    ensures Enabled(cfg, s, LockBatch(w, now, readAt, limit, picked))
    ensures var locked := Apply(cfg, s, LockBatch(w, now, readAt, limit, picked));
      && Enabled(cfg, locked, CommitBatch(w))
      && Apply(cfg, locked, CommitBatch(w)).rows == ClaimTable(s.rows, picked, now)
      && Apply(cfg, locked, CommitBatch(w)).locks == s.locks
  {
    PickedCanBeLocked(cfg, s, now, readAt, limit, picked);
    var locked := Apply(cfg, s, LockBatch(w, now, readAt, limit, picked));
    assert locked.batches[w] == Batch(now, picked) && locked.rows == s.rows;
    CommitIsClaimTable(cfg, locked, w);
    LockAndRelease(s.locks, picked, w);
  }

  lemma PickedCanBeLocked(cfg: Config, s: State, now: Time, readAt: Time, limit: nat, picked: set<Id>)
    requires OldestOf(s.rows, Eligible(s.rows, now, readAt - cfg.stale) - s.locks.Keys, picked, limit)
    ensures |picked| <= limit && picked !! s.locks.Keys
    ensures forall id :: id in picked ==> Unlocked(s, id) && Claimable(s.rows[id], now, readAt - cfg.stale)
  {
  }

  lemma CommitIsClaimTable(cfg: Config, s: State, w: Worker)
    requires Known(s) && w in s.batches
    ensures var b := s.batches[w];
      && Apply(cfg, s, CommitBatch(w)).rows == ClaimTable(s.rows, b.ids, b.now)
      && Apply(cfg, s, CommitBatch(w)).locks == s.locks - b.ids
  {
  }

  lemma LockAndRelease(locks: map<Id, Worker>, ids: set<Id>, w: Worker)
    requires ids !! locks.Keys
    ensures locks + (map id | id in ids :: w) - ids == locks
  {
  }

  // ------------------------------------------------------------ draining

  /** Successive claims at one instant, each returning what its LIMIT allows. */
  ghost predicate IsDrain(rows: Table, now: Time, staleBefore: Time, batch: nat, picks: seq<set<Id>>)
    decreases |picks|
  {
    picks == [] ||
    (OldestOf(rows, Eligible(rows, now, staleBefore), picks[0], batch)
     && IsDrain(ClaimTable(rows, picks[0], now), now, staleBefore, batch, picks[1..]))
  }

  function Union(picks: seq<set<Id>>): set<Id> {
    if picks == [] then {} else picks[0] + Union(picks[1..])
  }

  function Drained(rows: Table, now: Time, picks: seq<set<Id>>): Table
    decreases |picks|
  {
    if picks == [] then rows else Drained(ClaimTable(rows, picks[0], now), now, picks[1..])
  }

  lemma ClaimedIsNotEligible(rows: Table, picked: set<Id>, now: Time, staleBefore: Time)
    requires staleBefore < now && picked <= Eligible(rows, now, staleBefore)
    ensures Eligible(ClaimTable(rows, picked, now), now, staleBefore) == Eligible(rows, now, staleBefore) - picked
  {
  }

  lemma MinStep(n: nat, b: nat, e: nat)
    requires n > 0
    ensures Min(n * b, e) == Min(b, e) + Min((n - 1) * b, e - Min(b, e))
  {
    assert n * b == (n - 1) * b + b;
    assert (n - 1) * b >= 0;
  }

  lemma {:induction false} PickIsInUnion(picks: seq<set<Id>>, i: nat)
    requires i < |picks|
    ensures picks[i] <= Union(picks)
  {
    if i > 0 {
      PickIsInUnion(picks[1..], i - 1);
    }
  }

  /** The oldest of what the first claim left, added to the first claim's rows, are the oldest of all. */
  lemma OldestOfTheRest(rows: Table, next: Table, pool: set<Id>, first: set<Id>, rest: set<Id>, b: nat, n: nat)
    requires n > 0 && OldestOf(rows, pool, first, b) && OldestOf(next, pool - first, rest, (n - 1) * b)
    requires forall id :: id in pool ==> id in next && next[id].createdAt == rows[id].createdAt
    ensures OldestOf(rows, pool, first + rest, n * b)
  {
    assert |first + rest| == |first| + |rest|;
    assert |pool - first| == |pool| - |first|;
    MinStep(n, b, |pool|);
  }

  lemma ClaimTableComposes(rows: Table, first: set<Id>, rest: set<Id>, now: Time)
    ensures ClaimTable(ClaimTable(rows, first, now), rest, now) == ClaimTable(rows, first + rest, now)
  {
  }

  lemma {:induction false} DrainTakesTheOldest(rows: Table, now: Time, staleBefore: Time, batch: nat, picks: seq<set<Id>>)
    requires staleBefore < now && IsDrain(rows, now, staleBefore, batch, picks)
    ensures OldestOf(rows, Eligible(rows, now, staleBefore), Union(picks), |picks| * batch)
    decreases |picks|
  {
    if picks != [] {
      var next := ClaimTable(rows, picks[0], now);
      ClaimedIsNotEligible(rows, picks[0], now, staleBefore);
      DrainTakesTheOldest(next, now, staleBefore, batch, picks[1..]);
      OldestOfTheRest(rows, next, Eligible(rows, now, staleBefore), picks[0], Union(picks[1..]), batch, |picks|);
    }
  }

  lemma {:induction false} DrainedIsOneClaim(rows: Table, now: Time, picks: seq<set<Id>>)
    ensures Drained(rows, now, picks) == ClaimTable(rows, Union(picks), now)
    decreases |picks|
  {
    if picks == [] {
      assert ClaimTable(rows, {}, now) == rows;
    } else {
      DrainedIsOneClaim(ClaimTable(rows, picks[0], now), now, picks[1..]);
      ClaimTableComposes(rows, picks[0], Union(picks[1..]), now);
    }
  }

  lemma {:induction false} DrainBatchesDisjoint(rows: Table, now: Time, staleBefore: Time, batch: nat, picks: seq<set<Id>>, i: nat, j: nat)
    requires staleBefore < now && IsDrain(rows, now, staleBefore, batch, picks) && i < j < |picks|
    ensures picks[i] !! picks[j]
    decreases |picks|
  {
    var next := ClaimTable(rows, picks[0], now);
    if i == 0 {
      DrainTakesTheOldest(next, now, staleBefore, batch, picks[1..]);
      ClaimedIsNotEligible(rows, picks[0], now, staleBefore);
      PickIsInUnion(picks[1..], j - 1);
    } else {
      DrainBatchesDisjoint(next, now, staleBefore, batch, picks[1..], i - 1, j - 1);
    }
  }

  /**
   After n claims of size b, exactly the min(n*b, E) oldest of the E eligible events have been
   taken, each by one claim; the queue is empty exactly when n*b has reached E.
   */
  lemma DrainIsOldestFirst(rows: Table, now: Time, staleBefore: Time, batch: nat, picks: seq<set<Id>>)
    requires staleBefore < now && IsDrain(rows, now, staleBefore, batch, picks)
    ensures OldestOf(rows, Eligible(rows, now, staleBefore), Union(picks), |picks| * batch)
    ensures forall i, j :: 0 <= i < j < |picks| ==> picks[i] !! picks[j]
    ensures Drained(rows, now, picks) == ClaimTable(rows, Union(picks), now)
    ensures Eligible(Drained(rows, now, picks), now, staleBefore) == Eligible(rows, now, staleBefore) - Union(picks)
    ensures Eligible(Drained(rows, now, picks), now, staleBefore) == {} <==> |Eligible(rows, now, staleBefore)| <= |picks| * batch
  {
    DrainTakesTheOldest(rows, now, staleBefore, batch, picks);
    DrainedIsOneClaim(rows, now, picks);
    forall i, j | 0 <= i < j < |picks| ensures picks[i] !! picks[j] {
      DrainBatchesDisjoint(rows, now, staleBefore, batch, picks, i, j);
    }
    ClaimedIsNotEligible(rows, Union(picks), now, staleBefore);
    EmptyIffAllTaken(Eligible(rows, now, staleBefore), Union(picks));
  }

  lemma EmptyIffAllTaken(pool: set<Id>, taken: set<Id>)
    requires taken <= pool
    ensures pool - taken == {} <==> |taken| == |pool|
  {
    assert |pool - taken| == |pool| - |taken|;
  }

  // ------------------------------------------------------------ equivalent paths

  /** With distinct creation times ORDER BY ... LIMIT has one possible answer. */
  lemma OldestIsUnique(rows: Table, pool: set<Id>, p: set<Id>, q: set<Id>, limit: nat)
    requires DistinctCreation(rows) && OldestOf(rows, pool, p, limit) && OldestOf(rows, pool, q, limit)
    ensures p == q
  {
    if p != q {
      var a, b := Exchange(p, q);
      assert false;
    }
  }

  lemma Exchange(p: set<Id>, q: set<Id>) returns (a: Id, b: Id)
    requires |p| == |q| && p != q
    ensures a in p - q && b in q - p
  {
    assert |p - q| == |p| - |p * q| && |q - p| == |q| - |p * q|;
    a :| a in p - q;
    b :| b in q - p;
  }

  /**
   The transactional fallback picks by the same clause without locking. With nothing locked and
   distinct creation times it hands out the same rows and leaves the same table as the CTE.
   */
  lemma FallbackAgreesWithCte(rows: Table, now: Time, staleBefore: Time, limit: nat, cte: set<Id>, fallback: set<Id>)
    requires DistinctCreation(rows)
    requires OldestOf(rows, Eligible(rows, now, staleBefore), cte, limit)
    requires OldestOf(rows, Eligible(rows, now, staleBefore), fallback, limit)
    ensures Returned(rows, cte, now) == Returned(rows, fallback, now)
    ensures ClaimTable(rows, cte, now) == ClaimTable(rows, fallback, now)
  {
    OldestIsUnique(rows, Eligible(rows, now, staleBefore), cte, fallback, limit);
  }

  /**
   Reconciling first, by an earlier clock, changes neither which events a claim may take nor what it does to them: a
   stale event was available before its lease, so it is due once it is PENDING again.
   */
  lemma ReconcileThenClaimTakesTheSame(cfg: Config, s: State, reconciledAt: Time, at: Time, now: Time, readAt: Time, picked: set<Id>, limit: nat)
    requires ValidConfig(cfg) && Reachable(cfg, s) && reconciledAt <= readAt && now <= readAt && readAt - now <= cfg.gap
    ensures var staleBefore := readAt - cfg.stale;
      var requeued := ReconcileTable(s.rows, reconciledAt - cfg.stale, at);
      && Eligible(requeued, now, staleBefore) == Eligible(s.rows, now, staleBefore)
      && (OldestOf(requeued, Eligible(requeued, now, staleBefore), picked, limit) <==>
          OldestOf(s.rows, Eligible(s.rows, now, staleBefore), picked, limit))
      && (picked <= s.rows.Keys && picked <= Eligible(s.rows, now, staleBefore) ==>
          Returned(requeued, picked, now) == Returned(s.rows, picked, now))
  {
    ReachableProcessing(cfg, s);
    RequeueKeepsEligible(s.rows, now, reconciledAt - cfg.stale, readAt - cfg.stale, at);
    RequeueKeepsOldest(s.rows, ReconcileTable(s.rows, reconciledAt - cfg.stale, at), Eligible(s.rows, now, readAt - cfg.stale), picked, limit);
  }

  lemma ReachableProcessing(cfg: Config, s: State)
    requires ValidConfig(cfg) && Reachable(cfg, s)
    ensures forall id :: id in s.rows && s.rows[id].status.Processing? ==> s.rows[id].availableAt <= s.rows[id].updatedAt
  {
    ReachableIsSafe(cfg, s);
    forall id | id in s.rows && s.rows[id].status.Processing? ensures s.rows[id].availableAt <= s.rows[id].updatedAt {
      assert SafeRow(s.clock, s.rows[id], s.history[id]);
    }
  }

  lemma RequeueKeepsOldest(rows: Table, next: Table, pool: set<Id>, picked: set<Id>, limit: nat)
    requires next.Keys == rows.Keys && forall id :: id in rows ==> next[id].createdAt == rows[id].createdAt
    ensures OldestOf(next, pool, picked, limit) <==> OldestOf(rows, pool, picked, limit)
  {
  }

  lemma RequeueKeepsEligible(rows: Table, now: Time, requeueBefore: Time, staleBefore: Time, at: Time)
    requires requeueBefore <= staleBefore <= now
    requires forall id :: id in rows && rows[id].status.Processing? ==> rows[id].availableAt <= rows[id].updatedAt
    ensures Eligible(ReconcileTable(rows, requeueBefore, at), now, staleBefore) == Eligible(rows, now, staleBefore)
  {
  }
}
