/**
 The outbox as a lease protocol between any number of worker instances.

 A run is a sequence of atomic steps, in any interleaving: a claim locks its
 rows in one step and commits (or rolls back) in another, a failure call reads
 in one step and writes in another, and every other statement is one step on
 each row it touches. A locked row is touched by nobody but its claimer until
 the claim ends, which is what FOR UPDATE and Read Committed give.

 The history records, for every event ever inserted, the lease token of each
 claim and how each claim ended.
 */
module OutboxProtocol {
  import opened Options
  import opened OutboxTable
  import opened Numbers

  type Worker = nat
  type Call = nat

  /** stale: the staleness threshold; gap: a bound on the time from reading `now` to running the claim. */
  datatype Config = Config(stale: Time, gap: Time, keepAcknowledged: Time, keepUnacknowledged: Time, keepFailed: Time)

  predicate ValidConfig(cfg: Config) {
    0 <= cfg.gap < cfg.stale
  }

  function ShortestRetention(cfg: Config): Time {
    Min(cfg.keepAcknowledged, Min(cfg.keepUnacknowledged, cfg.keepFailed))
  }

  datatype Cause = Delivered | Rejected | TakenOver | Requeued

  /**
   What an outcome, a takeover or a reconciliation ended: the claim with that number, or none if no
   claim was open; `presented` is the lease the outcome call showed, if any.
   */
  datatype Ending = Ending(claim: Option<nat>, cause: Cause, presented: Option<Time>)

  /**
   tokens: the lease of each claim; current: the number of the open one; overlapping: how many
   failures took effect after another one had since they read the row; acknowledgedAt: the last
   acknowledgement; failedAt: the failure that was final.
   */
  datatype History = History(key: string, createdAt: Time, tokens: seq<Time>, current: Option<nat>, endings: seq<Ending>,
                             overlapping: nat, acknowledgedAt: Option<Time>, failedAt: Option<Time>, deletedAt: Option<Time>)

  datatype Batch = Batch(now: Time, ids: set<Id>)

  /** What a failure call read; `failures` is how many had taken effect on the event by then. */
  datatype FailureRead = FailureRead(id: Id, lease: Option<Time>, attempts: nat, maxAttempts: nat, permanent: bool, at: Time, failures: nat)

  datatype State = State(
    clock: Time,
    rows: Table,
    history: map<Id, History>,
    locks: map<Id, Worker>,
    batches: map<Worker, Batch>,
    calls: map<Call, FailureRead>)

  datatype Step =
    | Tick(to: Time)
    | Insert(id: Id, key: string)
    | LockBatch(worker: Worker, now: Time, readAt: Time, limit: nat, ids: set<Id>)
    | CommitBatch(worker: Worker)
    | AbortBatch(worker: Worker)
    | MarkSuccess(id: Id, lease: Option<Time>)
    | ReadFailure(call: Call, id: Id, lease: Option<Time>, permanent: bool)
    | WriteFailure(call: Call, error: string, at: Time)
    | Reconcile(id: Id, readAt: Time, at: Time)
    | RecordChannel(id: Id, channel: Channel, failure: Option<string>, stamped: bool)
    | Acknowledge(id: Id, at: Time)
    | Cleanup(id: Id, readAt: Time)

  // ------------------------------------------------------------ the steps

  predicate Unlocked(s: State, id: Id) {
    id in s.rows && id !in s.locks
  }

  predicate Enabled(cfg: Config, s: State, step: Step) {
    match step
    case Tick(to) => s.clock <= to
    case Insert(id, key) => id !in s.history && forall i :: i in s.rows ==> s.rows[i].key != key
    case LockBatch(w, now, readAt, limit, ids) =>
      && w !in s.batches && |ids| <= limit
      && now <= readAt <= s.clock && s.clock - now <= cfg.gap
      && forall id :: id in ids ==> Unlocked(s, id) && Claimable(s.rows[id], now, readAt - cfg.stale)
    case CommitBatch(w) => w in s.batches
    case AbortBatch(w) => w in s.batches
    case MarkSuccess(id, lease) => id !in s.locks
    case ReadFailure(call, id, lease, _) =>
      call !in s.calls && id in s.rows && OutcomeMatches(s.rows[id], lease)
    case WriteFailure(call, _, at) =>
      call in s.calls && s.calls[call].id !in s.locks && s.calls[call].at <= at <= s.clock
    case Reconcile(id, readAt, at) =>
      Unlocked(s, id) && readAt <= at <= s.clock && Stale(s.rows[id], readAt - cfg.stale)
    case RecordChannel(id, _, _, _) => Unlocked(s, id)
    case Acknowledge(id, at) => Unlocked(s, id) && s.rows[id].createdAt <= at && s.rows[id].updatedAt <= at <= s.clock
    case Cleanup(id, readAt) =>
      && Unlocked(s, id) && readAt <= s.clock
      && Prunable(s.rows[id], readAt - cfg.keepAcknowledged, readAt - cfg.keepUnacknowledged, readAt - cfg.keepFailed)
  }

  /** Ends the open generation, if there is one. */
  function End(h: History, cause: Cause, presented: Option<Time>): History {
    h.(endings := h.endings + [Ending(h.current, cause, presented)], current := None)
  }

  /** A failure that takes effect although another one has since it read the row. */
  predicate Overlaps(h: History, f: FailureRead) {
    f.failures != Count(h.endings, Rejected)
  }

  function EndByFailure(h: History, f: FailureRead, at: Time): History {
    End(h, Rejected, f.lease).(
      overlapping := h.overlapping + (if Overlaps(h, f) then 1 else 0),
      failedAt := if f.permanent || f.attempts + 1 >= f.maxAttempts then Some(at) else h.failedAt)
  }

  /** Opens the generation `now`; a row claimed while PROCESSING is taken over from its last claimer. */
  function Begin(r: Row, h: History, now: Time): History {
    var closed := if r.status.Processing? then End(h, TakenOver, None) else h;
    closed.(tokens := closed.tokens + [now], current := Some(|closed.tokens|))
  }

  function NewHistory(key: string, at: Time): History {
    History(key, at, [], None, [], 0, None, None, None)
  }

  function Put(s: State, id: Id, r: Row, h: History): State {
    s.(rows := s.rows[id := r], history := s.history[id := h])
  }

  function Release(s: State, w: Worker): State
    requires w in s.batches
  {
    s.(locks := s.locks - s.batches[w].ids, batches := s.batches - {w})
  }

  function CommitRows(rows: Table, b: Batch): Table {
    map id | id in rows :: if id in b.ids then ClaimRow(rows[id], b.now) else rows[id]
  }

  function CommitHistory(rows: Table, history: map<Id, History>, b: Batch): map<Id, History> {
    map id | id in history :: if id in b.ids && id in rows then Begin(rows[id], history[id], b.now) else history[id]
  }

  predicate Known(s: State) {
    s.rows.Keys <= s.history.Keys
  }

  function Apply(cfg: Config, s: State, step: Step): (t: State)
    requires Known(s) && Enabled(cfg, s, step)
    ensures Known(t)
  {
    match step
    case Tick(to) => s.(clock := to)
    case Insert(id, key) => Put(s, id, NewRow(key, s.clock), NewHistory(key, s.clock))
    case LockBatch(w, now, _, _, ids) =>
      s.(locks := s.locks + (map id | id in ids :: w), batches := s.batches[w := Batch(now, ids)])
    case CommitBatch(w) =>
      var b := s.batches[w];
      Release(s, w).(rows := CommitRows(s.rows, b), history := CommitHistory(s.rows, s.history, b))
    case AbortBatch(w) => Release(s, w)
    case MarkSuccess(id, lease) =>
      if id in s.rows && OutcomeMatches(s.rows[id], lease)
      then Put(s, id, SucceedRow(s.rows[id], s.clock), End(s.history[id], Delivered, lease))
      else s
    case ReadFailure(call, id, lease, permanent) =>
      var r := s.rows[id];
      s.(calls := s.calls[call := FailureRead(id, lease, r.attempts, r.maxAttempts, permanent, s.clock,
                                                  Count(s.history[id].endings, Rejected))])
    case WriteFailure(call, error, at) =>
      var f := s.calls[call];
      var t := s.(calls := s.calls - {call});
      if f.id in s.rows && OutcomeMatches(s.rows[f.id], f.lease)
      then Put(t, f.id, FailRow(s.rows[f.id], f.attempts, f.maxAttempts, f.permanent, error, at),
               EndByFailure(s.history[f.id], f, at))
      else t
    case Reconcile(id, _, at) => Put(s, id, RequeueRow(s.rows[id], at), End(s.history[id], Requeued, None))
    case RecordChannel(id, channel, error, stamped) =>
      Put(s, id, ChannelRow(s.rows[id], channel, error, s.clock, if stamped then Some(s.clock) else None), s.history[id])
    case Acknowledge(id, at) => Put(s, id, AcknowledgeRow(s.rows[id], at), s.history[id].(acknowledgedAt := Some(at)))
    case Cleanup(id, _) =>
      s.(rows := s.rows - {id}, history := s.history[id := s.history[id].(deletedAt := Some(s.clock))])
  }

  /**
   What a worker that hands expectedClaimedAt to the outcome calls does: the lease it
   presents was given to it by a claim of that row, and it reports a failure only after
   the clock has moved past the claim.
   */
  predicate Guarded(s: State, step: Step) {
    match step
    case MarkSuccess(id, lease) => HoldsLease(s, id, lease)
    case ReadFailure(_, id, lease, _) => HoldsLease(s, id, lease) && lease.value < s.clock
    case _ => true
  }

  predicate HoldsLease(s: State, id: Id, lease: Option<Time>) {
    lease.Some? && id in s.history && lease.value in s.history[id].tokens
  }

  predicate Initial(s: State) {
    s.rows == map[] && s.history == map[] && s.locks == map[] && s.batches == map[] && s.calls == map[]
  }

  /** `steps` is an interleaving that can happen from `s`. */
  predicate IsTrace(cfg: Config, s: State, steps: seq<Step>)
    requires Known(s)
    decreases |steps|
  {
    steps == [] || (Enabled(cfg, s, steps[0]) && IsTrace(cfg, Apply(cfg, s, steps[0]), steps[1..]))
  }

  function Exec(cfg: Config, s: State, steps: seq<Step>): (t: State)
    requires Known(s) && IsTrace(cfg, s, steps)
    ensures Known(t)
    decreases |steps|
  {
    if steps == [] then s else Exec(cfg, Apply(cfg, s, steps[0]), steps[1..])
  }

  /** A trace in which every outcome call presents the lease its claim was given. */
  predicate IsRun(cfg: Config, s: State, steps: seq<Step>)
    requires Known(s)
    decreases |steps|
  {
    steps == [] ||
    (Enabled(cfg, s, steps[0]) && Guarded(s, steps[0]) && IsRun(cfg, Apply(cfg, s, steps[0]), steps[1..]))
  }

  // ------------------------------------------------------------ the invariant

  function Count(endings: seq<Ending>, cause: Cause): (n: nat) {
    if endings == [] then 0
    else Count(endings[..|endings| - 1], cause) + (if endings[|endings| - 1].cause == cause then 1 else 0)
  }

  ghost predicate Increasing(ts: seq<Time>) {
    forall i, j :: 0 <= i < j < |ts| ==> ts[i] < ts[j]
  }

  function Last<T>(ts: seq<T>): T
    requires ts != []
  {
    ts[|ts| - 1]
  }

  /** The generations of an event: each ended once, in order, and only by the lease it was given. */
  ghost predicate Generations(h: History) {
    && |h.endings| <= |h.tokens| <= |h.endings| + 1
    && Increasing(h.tokens)
    && (forall i :: 0 <= i < |h.endings| ==>
          && h.endings[i].claim == Some(i)
          && ((h.endings[i].cause.Delivered? || h.endings[i].cause.Rejected?) ==> h.endings[i].presented == Some(h.tokens[i])))
  }

  ghost predicate Matches(r: Row, h: History) {
    && h.deletedAt.None? && h.key == r.key && h.createdAt == r.createdAt
    && |h.tokens| == |h.endings| + (if r.status.Processing? then 1 else 0)
    && h.current == (if r.status.Processing? then Some(|h.endings|) else None)
    && r.attempts == Count(h.endings, Rejected)
    && (Open(r) ==> r.attempts < r.maxAttempts)
    && (r.status.Sent? ==> h.endings != [] && Last(h.endings).cause.Delivered?)
    && (r.status.Failed? ==> h.endings != [] && Last(h.endings).cause.Rejected?)
  }

  ghost predicate Timely(cfg: Config, clock: Time, r: Row, h: History) {
    && (forall i :: 0 <= i < |h.tokens| ==> h.tokens[i] <= clock)
    && r.createdAt <= clock && r.updatedAt <= clock && r.availableAt <= clock + MAX_BACKOFF
    && (r.status.Failed? ==> r.failedAt.Some?)
    && (r.failedAt.Some? ==> r.createdAt <= r.failedAt.value <= clock)
    && (r.acknowledgedAt.Some? ==> r.createdAt <= r.acknowledgedAt.value <= clock)
    && (r.status.Processing? ==> h.tokens != [] && r.availableAt <= Last(h.tokens) <= r.updatedAt)
    && (r.status.Pending? && h.tokens != [] ==>
          && Last(h.tokens) < r.updatedAt
          && (Last(h.tokens) < r.availableAt || Last(h.tokens) <= clock - cfg.stale))
  }

  ghost predicate RowInv(cfg: Config, clock: Time, r: Row, h: History) {
    Generations(h) && Matches(r, h) && Timely(cfg, clock, r, h)
  }

  /** What is known of a deleted event. */
  ghost predicate GoneInv(cfg: Config, clock: Time, h: History) {
    && Generations(h) && |h.tokens| == |h.endings|
    && h.endings != [] && (Last(h.endings).cause.Delivered? || Last(h.endings).cause.Rejected?)
    && h.deletedAt.Some? && h.createdAt + ShortestRetention(cfg) <= h.deletedAt.value <= clock
  }

  /** A row locked by a claim that carries `now`. */
  ghost predicate LockedInv(r: Row, h: History, now: Time) {
    && Open(r)
    && (h.tokens != [] ==> Last(h.tokens) < now)
    && r.availableAt <= now
  }

  ghost predicate RowsInv(cfg: Config, s: State) {
    && Known(s)
    && (forall id :: id in s.rows ==> RowInv(cfg, s.clock, s.rows[id], s.history[id]))
    && (forall id :: id in s.history && id !in s.rows ==> GoneInv(cfg, s.clock, s.history[id]))
  }

  ghost predicate UniqueKeys(rows: Table) {
    forall i, j :: i in rows && j in rows && i != j ==> rows[i].key != rows[j].key
  }

  /** Two insertions under one key are at least the shortest retention apart. */
  predicate Apart(cfg: Config, g: History, h: History) {
    g.key == h.key ==>
      || g.createdAt + ShortestRetention(cfg) <= h.createdAt
      || h.createdAt + ShortestRetention(cfg) <= g.createdAt
  }

  ghost predicate Spaced(cfg: Config, history: map<Id, History>) {
    forall i, j :: i in history && j in history && i != j ==> Apart(cfg, history[i], history[j])
  }

  ghost predicate KeysInv(cfg: Config, s: State) {
    UniqueKeys(s.rows) && Spaced(cfg, s.history)
  }

  ghost predicate LocksInv(s: State) {
    && (forall id :: id in s.locks ==> s.locks[id] in s.batches && id in s.batches[s.locks[id]].ids)
    && (forall w, id :: w in s.batches && id in s.batches[w].ids ==>
          && id in s.locks && s.locks[id] == w && id in s.rows && id in s.history
          && LockedInv(s.rows[id], s.history[id], s.batches[w].now))
    && (forall w :: w in s.batches ==> s.batches[w].now <= s.clock)
  }

  /** A pending failure call: as long as its lease is still the row's, what it read is still true. */
  ghost predicate ReadInv(s: State, f: FailureRead) {
    && HoldsLease(s, f.id, f.lease)
    && f.lease.value < f.at <= s.clock && s.history[f.id].createdAt <= f.at
    && (f.id in s.rows && OutcomeMatches(s.rows[f.id], f.lease) ==>
          s.rows[f.id].attempts == f.attempts && s.rows[f.id].maxAttempts == f.maxAttempts)
  }

  ghost predicate ReadsInv(s: State) {
    forall c :: c in s.calls ==> ReadInv(s, s.calls[c])
  }

  ghost predicate Inv(cfg: Config, s: State) {
    RowsInv(cfg, s) && KeysInv(cfg, s) && LocksInv(s) && ReadsInv(s)
  }

  // ------------------------------------------------------------ one row at a time

  /** The heart of the protocol: a live row whose updated_at equals a lease is in that very generation. */
  lemma LeaseIsLive(cfg: Config, clock: Time, r: Row, h: History, lease: Time)
    requires RowInv(cfg, clock, r, h) && lease in h.tokens && OutcomeMatches(r, Some(lease))
    ensures r.status.Processing? && lease == Last(h.tokens) && |h.tokens| == |h.endings| + 1
  {
    var i :| 0 <= i < |h.tokens| && h.tokens[i] == lease;
  }

  lemma EndKeepsGenerations(h: History, cause: Cause, presented: Option<Time>)
    requires Generations(h) && |h.tokens| == |h.endings| + 1 && h.current == Some(|h.endings|)
    requires cause.Delivered? || cause.Rejected? ==> presented == Some(Last(h.tokens))
    ensures Generations(End(h, cause, presented))
    ensures Count(End(h, cause, presented).endings, Rejected) == Count(h.endings, Rejected) + (if cause.Rejected? then 1 else 0)
    ensures Last(End(h, cause, presented).endings).cause == cause
  {
    var e := End(h, cause, presented).endings;
    assert e[..|e| - 1] == h.endings;
  }

  lemma BeginKeepsRowInv(cfg: Config, clock: Time, r: Row, h: History, now: Time)
    requires RowInv(cfg, clock, r, h) && LockedInv(r, h, now) && now <= clock
    ensures RowInv(cfg, clock, ClaimRow(r, now), Begin(r, h, now))
  {
    if r.status.Processing? {
      EndKeepsGenerations(h, TakenOver, None);
    }
  }

  lemma ClaimIsFresh(cfg: Config, clock: Time, r: Row, h: History, now: Time, readAt: Time)
    requires ValidConfig(cfg) && RowInv(cfg, clock, r, h)
    requires now <= readAt <= clock && clock - now <= cfg.gap && Claimable(r, now, readAt - cfg.stale)
    ensures LockedInv(r, h, now)
  {
  }

  lemma SucceedKeepsRowInv(cfg: Config, clock: Time, r: Row, h: History, lease: Time)
    requires RowInv(cfg, clock, r, h) && lease in h.tokens && OutcomeMatches(r, Some(lease))
    ensures RowInv(cfg, clock, SucceedRow(r, clock), End(h, Delivered, Some(lease)))
  {
    LeaseIsLive(cfg, clock, r, h, lease);
    EndKeepsGenerations(h, Delivered, Some(lease));
  }

  lemma FailKeepsRowInv(cfg: Config, clock: Time, r: Row, h: History, f: FailureRead, error: string, at: Time)
    requires RowInv(cfg, clock, r, h) && f.lease.Some? && f.lease.value in h.tokens && OutcomeMatches(r, f.lease)
    requires f.lease.value < at <= clock && h.createdAt <= at
    ensures RowInv(cfg, clock, FailRow(r, r.attempts, r.maxAttempts, f.permanent, error, at), EndByFailure(h, f, at))
  {
    LeaseIsLive(cfg, clock, r, h, f.lease.value);
    EndKeepsGenerations(h, Rejected, f.lease);
    BackoffBounds(r.attempts + 1, r.attempts + 1);
  }

  lemma RequeueKeepsRowInv(cfg: Config, clock: Time, r: Row, h: History, readAt: Time, at: Time)
    requires ValidConfig(cfg) && RowInv(cfg, clock, r, h)
    requires readAt <= at <= clock && Stale(r, readAt - cfg.stale)
    ensures RowInv(cfg, clock, RequeueRow(r, at), End(h, Requeued, None))
  {
    EndKeepsGenerations(h, Requeued, None);
  }

  // ------------------------------------------------------------ frames

  lemma UniqueKeysFrame(rows: Table, next: Table)
    requires UniqueKeys(rows) && next.Keys <= rows.Keys
    requires forall id :: id in next ==> next[id].key == rows[id].key
    ensures UniqueKeys(next)
  {
  }

  lemma SpacedFrame(cfg: Config, history: map<Id, History>, next: map<Id, History>)
    requires Spaced(cfg, history) && next.Keys <= history.Keys
    requires forall id :: id in next ==> next[id].key == history[id].key && next[id].createdAt == history[id].createdAt
    ensures Spaced(cfg, next)
  {
    forall i, j | i in next && j in next && i != j ensures Apart(cfg, next[i], next[j]) {
      assert Apart(cfg, history[i], history[j]);
    }
  }

  lemma LocksFrame(s: State, t: State)
    requires LocksInv(s) && t.locks == s.locks && t.batches == s.batches && s.clock <= t.clock
    requires forall id :: id in s.locks && id in s.rows && id in s.history ==>
               id in t.rows && id in t.history && t.rows[id] == s.rows[id] && t.history[id] == s.history[id]
    ensures LocksInv(t)
  {
  }

  /** No lease of `h` that does not match `r` matches `next`, and what does match has not changed its attempts. */
  ghost predicate NoRevival(r: Row, h: History, next: Row) {
    forall c :: c in h.tokens && OutcomeMatches(next, Some(c)) ==>
      OutcomeMatches(r, Some(c)) && next.attempts == r.attempts && next.maxAttempts == r.maxAttempts
  }

  ghost predicate LeasesKept(h: History, next: History) {
    next.createdAt == h.createdAt && forall c :: c in h.tokens ==> c in next.tokens
  }

  lemma ReadFrame(s: State, t: State, f: FailureRead)
    requires ReadInv(s, f) && s.clock <= t.clock && f.id in t.history && LeasesKept(s.history[f.id], t.history[f.id])
    requires f.id in t.rows ==> f.id in s.rows && NoRevival(s.rows[f.id], s.history[f.id], t.rows[f.id])
    ensures ReadInv(t, f)
  {
  }

  lemma ReadsFrame(s: State, t: State)
    requires ReadsInv(s) && s.clock <= t.clock
    requires t.calls.Keys <= s.calls.Keys && forall c :: c in t.calls ==> t.calls[c] == s.calls[c]
    requires forall id :: id in s.history ==> id in t.history && LeasesKept(s.history[id], t.history[id])
    requires forall id :: id in s.history && id in t.rows ==>
               id in s.rows && NoRevival(s.rows[id], s.history[id], t.rows[id])
    ensures ReadsInv(t)
  {
    forall c | c in t.calls ensures ReadInv(t, t.calls[c]) {
      ReadFrame(s, t, s.calls[c]);
    }
  }

  // ------------------------------------------------------------ one step

  lemma PutKeepsRows(cfg: Config, s: State, id: Id, r: Row, h: History)
    requires RowsInv(cfg, s) && RowInv(cfg, s.clock, r, h)
    ensures RowsInv(cfg, Put(s, id, r, h))
  {
  }

  lemma PutKeepsKeys(cfg: Config, s: State, id: Id, r: Row, h: History)
    requires Known(s) && KeysInv(cfg, s) && id in s.rows
    requires r.key == s.rows[id].key && h.key == s.history[id].key && h.createdAt == s.history[id].createdAt
    ensures KeysInv(cfg, Put(s, id, r, h))
  {
    UniqueKeysFrame(s.rows, s.rows[id := r]);
    SpacedFrame(cfg, s.history, s.history[id := h]);
  }

  lemma PutKeepsLocks(s: State, id: Id, r: Row, h: History)
    requires LocksInv(s) && id !in s.locks
    ensures LocksInv(Put(s, id, r, h))
  {
    LocksFrame(s, Put(s, id, r, h));
  }

  lemma PutKeepsReads(s: State, id: Id, r: Row, h: History)
    requires Known(s) && ReadsInv(s)
    requires id in s.history ==> id in s.rows && LeasesKept(s.history[id], h) && NoRevival(s.rows[id], s.history[id], r)
    ensures ReadsInv(Put(s, id, r, h))
  {
    ReadsFrame(s, Put(s, id, r, h));
  }

  /** Replacing one unlocked row keeps the invariant if the row does and no old lease comes back to life. */
  lemma PutKeepsInv(cfg: Config, s: State, id: Id, r: Row, h: History)
    requires Inv(cfg, s) && Unlocked(s, id) && RowInv(cfg, s.clock, r, h)
    requires r.key == s.rows[id].key && h.key == s.history[id].key && LeasesKept(s.history[id], h)
    requires NoRevival(s.rows[id], s.history[id], r)
    ensures Inv(cfg, Put(s, id, r, h))
  {
    PutKeepsRows(cfg, s, id, r, h);
    PutKeepsKeys(cfg, s, id, r, h);
    PutKeepsLocks(s, id, r, h);
    PutKeepsReads(s, id, r, h);
  }

  lemma TickKeepsRow(cfg: Config, clock: Time, to: Time, r: Row, h: History)
    requires RowInv(cfg, clock, r, h) && clock <= to
    ensures RowInv(cfg, to, r, h)
  {
  }

  lemma TickKeepsRows(cfg: Config, s: State, to: Time)
    requires RowsInv(cfg, s) && s.clock <= to
    ensures RowsInv(cfg, s.(clock := to))
  {
    forall id | id in s.rows ensures RowInv(cfg, to, s.rows[id], s.history[id]) {
      TickKeepsRow(cfg, s.clock, to, s.rows[id], s.history[id]);
    }
  }

  lemma InsertKeepsKeys(cfg: Config, s: State, id: Id, key: string)
    requires RowsInv(cfg, s) && KeysInv(cfg, s) && Enabled(cfg, s, Insert(id, key))
    ensures KeysInv(cfg, Apply(cfg, s, Insert(id, key)))
  {
    forall i | i in s.history && s.history[i].key == key
      ensures s.history[i].createdAt + ShortestRetention(cfg) <= s.clock
    {
      assert i !in s.rows;
    }
  }

  lemma InsertKeepsInv(cfg: Config, s: State, id: Id, key: string)
    requires Inv(cfg, s) && Enabled(cfg, s, Insert(id, key))
    ensures Inv(cfg, Apply(cfg, s, Insert(id, key)))
  {
    var r, h := NewRow(key, s.clock), NewHistory(key, s.clock);
    PutKeepsRows(cfg, s, id, r, h);
    InsertKeepsKeys(cfg, s, id, key);
    PutKeepsLocks(s, id, r, h);
    PutKeepsReads(s, id, r, h);
  }

  lemma LockKeepsLocks(cfg: Config, s: State, step: Step)
    requires ValidConfig(cfg) && RowsInv(cfg, s) && LocksInv(s) && step.LockBatch? && Enabled(cfg, s, step)
    ensures LocksInv(Apply(cfg, s, step))
  {
    forall id | id in step.ids ensures id in s.rows && LockedInv(s.rows[id], s.history[id], step.now) {
      ClaimIsFresh(cfg, s.clock, s.rows[id], s.history[id], step.now, step.readAt);
    }
    LockFrame(s, step.worker, Batch(step.now, step.ids));
  }

  lemma LockFrame(s: State, w: Worker, b: Batch)
    requires LocksInv(s) && w !in s.batches && b.now <= s.clock
    requires forall id :: id in b.ids ==> id in s.rows && id !in s.locks && id in s.history && LockedInv(s.rows[id], s.history[id], b.now)
    ensures LocksInv(s.(locks := s.locks + (map id | id in b.ids :: w), batches := s.batches[w := b]))
  {
  }

  lemma ReleaseKeepsLocks(s: State, w: Worker)
    requires LocksInv(s) && w in s.batches
    ensures LocksInv(Release(s, w))
  {
  }

  lemma CommitKeepsRows(cfg: Config, s: State, w: Worker)
    requires RowsInv(cfg, s) && LocksInv(s) && w in s.batches
    ensures RowsInv(cfg, Apply(cfg, s, CommitBatch(w)))
  {
    var t := Apply(cfg, s, CommitBatch(w));
    forall id | id in t.rows ensures RowInv(cfg, s.clock, t.rows[id], t.history[id]) {
      if id in s.batches[w].ids {
        BeginKeepsRowInv(cfg, s.clock, s.rows[id], s.history[id], s.batches[w].now);
      }
    }
  }

  lemma CommitKeepsLocks(cfg: Config, s: State, w: Worker)
    requires Known(s) && LocksInv(s) && w in s.batches
    ensures LocksInv(Apply(cfg, s, CommitBatch(w)))
  {
    ReleaseKeepsLocks(s, w);
    LocksFrame(Release(s, w), Apply(cfg, s, CommitBatch(w)));
  }

  /** A claim outdates every older lease on its rows, so a failure call in flight cannot match them any more. */
  lemma ClaimRevivesNothing(r: Row, h: History, now: Time)
    requires Increasing(h.tokens) && LockedInv(r, h, now)
    ensures NoRevival(r, h, ClaimRow(r, now)) && LeasesKept(h, Begin(r, h, now))
  {
    forall c | c in h.tokens ensures c < now {
      TokensBelowLast(h, c);
    }
  }

  lemma CommitKeepsKeys(cfg: Config, s: State, w: Worker)
    requires Known(s) && KeysInv(cfg, s) && w in s.batches
    ensures KeysInv(cfg, Apply(cfg, s, CommitBatch(w)))
  {
    var b := s.batches[w];
    UniqueKeysFrame(s.rows, CommitRows(s.rows, b));
    SpacedFrame(cfg, s.history, CommitHistory(s.rows, s.history, b));
  }

  lemma CommitKeepsReads(cfg: Config, s: State, w: Worker)
    requires RowsInv(cfg, s) && LocksInv(s) && ReadsInv(s) && w in s.batches
    ensures ReadsInv(Apply(cfg, s, CommitBatch(w)))
  {
    var t := Apply(cfg, s, CommitBatch(w));
    forall c | c in t.calls ensures ReadInv(t, t.calls[c]) {
      var id := s.calls[c].id;
      if id in s.batches[w].ids {
        ClaimRevivesNothing(s.rows[id], s.history[id], s.batches[w].now);
      }
      ReadFrame(s, t, s.calls[c]);
    }
  }

  lemma CommitKeepsInv(cfg: Config, s: State, w: Worker)
    requires Inv(cfg, s) && w in s.batches
    ensures Inv(cfg, Apply(cfg, s, CommitBatch(w)))
  {
    CommitKeepsRows(cfg, s, w);
    CommitKeepsKeys(cfg, s, w);
    CommitKeepsLocks(cfg, s, w);
    CommitKeepsReads(cfg, s, w);
  }

  lemma ReadKeepsReads(cfg: Config, s: State, step: Step)
    requires RowsInv(cfg, s) && ReadsInv(s) && step.ReadFailure? && Enabled(cfg, s, step) && Guarded(s, step)
    ensures ReadsInv(Apply(cfg, s, step))
  {
    var t := Apply(cfg, s, step);
    assert s.history[step.id].createdAt <= s.clock;
    forall c | c in t.calls ensures ReadInv(t, t.calls[c]) {
      if c != step.call {
        ReadFrame(s, t, s.calls[c]);
      }
    }
  }

  lemma TokensBelowLast(h: History, c: Time)
    requires Increasing(h.tokens) && c in h.tokens
    ensures c <= Last(h.tokens)
  {
    var i :| 0 <= i < |h.tokens| && h.tokens[i] == c;
    if i < |h.tokens| - 1 {
      assert h.tokens[i] < h.tokens[|h.tokens| - 1];
    }
  }

  /** A write of updated_at that is past the last lease brings none of them back. */
  lemma LaterRevivesNothing(r: Row, h: History, next: Row)
    requires Increasing(h.tokens)
    requires h.tokens != [] ==> Last(h.tokens) < next.updatedAt
    ensures NoRevival(r, h, next)
  {
    forall c | c in h.tokens ensures c < next.updatedAt {
      TokensBelowLast(h, c);
    }
  }

  lemma SuccessKeepsInv(cfg: Config, s: State, id: Id, lease: Time)
    requires Inv(cfg, s) && Unlocked(s, id) && HoldsLease(s, id, Some(lease)) && OutcomeMatches(s.rows[id], Some(lease))
    ensures Inv(cfg, Put(s, id, SucceedRow(s.rows[id], s.clock), End(s.history[id], Delivered, Some(lease))))
  {
    SucceedKeepsRowInv(cfg, s.clock, s.rows[id], s.history[id], lease);
    PutKeepsInv(cfg, s, id, SucceedRow(s.rows[id], s.clock), End(s.history[id], Delivered, Some(lease)));
  }

  lemma ForgetKeepsInv(cfg: Config, s: State, call: Call)
    requires Inv(cfg, s)
    ensures Inv(cfg, s.(calls := s.calls - {call}))
  {
    var t := s.(calls := s.calls - {call});
    LocksFrame(s, t);
    ReadsFrame(s, t);
  }

  lemma FailureKeepsInv(cfg: Config, s: State, f: FailureRead, error: string, at: Time)
    requires Inv(cfg, s) && ReadInv(s, f) && Unlocked(s, f.id) && OutcomeMatches(s.rows[f.id], f.lease) && f.at <= at <= s.clock
    ensures Inv(cfg, Put(s, f.id, FailRow(s.rows[f.id], f.attempts, f.maxAttempts, f.permanent, error, at),
                         EndByFailure(s.history[f.id], f, at)))
  {
    var r, h := s.rows[f.id], s.history[f.id];
    LeaseIsLive(cfg, s.clock, r, h, f.lease.value);
    FailKeepsRowInv(cfg, s.clock, r, h, f, error, at);
    var next := FailRow(r, f.attempts, f.maxAttempts, f.permanent, error, at);
    LaterRevivesNothing(r, h, next);
    PutKeepsInv(cfg, s, f.id, next, EndByFailure(h, f, at));
  }

  lemma RequeueKeepsInv(cfg: Config, s: State, id: Id, readAt: Time, at: Time)
    requires ValidConfig(cfg) && Inv(cfg, s) && Enabled(cfg, s, Reconcile(id, readAt, at))
    ensures Inv(cfg, Apply(cfg, s, Reconcile(id, readAt, at)))
  {
    var r, h := s.rows[id], s.history[id];
    RequeueKeepsRowInv(cfg, s.clock, r, h, readAt, at);
    LaterRevivesNothing(r, h, RequeueRow(r, at));
    PutKeepsInv(cfg, s, id, RequeueRow(r, at), End(h, Requeued, None));
  }

  /** Channel recording and acknowledgement touch neither the state machine nor, except forwards, the lease. */
  lemma StampKeepsRow(cfg: Config, clock: Time, r: Row, h: History, next: Row)
    requires RowInv(cfg, clock, r, h)
    requires next == r.(socket := next.socket, fcm := next.fcm, acknowledgedAt := next.acknowledgedAt, updatedAt := next.updatedAt)
    requires r.updatedAt <= next.updatedAt <= clock
    requires next.acknowledgedAt == r.acknowledgedAt || (next.acknowledgedAt.Some? && r.createdAt <= next.acknowledgedAt.value <= clock)
    ensures RowInv(cfg, clock, next, h) && NoRevival(r, h, next)
  {
    forall c | c in h.tokens ensures c <= Last(h.tokens) {
      TokensBelowLast(h, c);
    }
  }

  lemma StampKeepsInv(cfg: Config, s: State, id: Id, next: Row, h: History)
    requires Inv(cfg, s) && Unlocked(s, id) && h == s.history[id].(acknowledgedAt := h.acknowledgedAt)
    requires var r := s.rows[id];
      && next == r.(socket := next.socket, fcm := next.fcm, acknowledgedAt := next.acknowledgedAt, updatedAt := next.updatedAt)
      && r.updatedAt <= next.updatedAt <= s.clock
      && (next.acknowledgedAt == r.acknowledgedAt || (next.acknowledgedAt.Some? && r.createdAt <= next.acknowledgedAt.value <= s.clock))
    ensures Inv(cfg, Put(s, id, next, h))
  {
    StampKeepsRow(cfg, s.clock, s.rows[id], s.history[id], next);
    PutKeepsInv(cfg, s, id, next, h);
  }

  lemma ChannelRowFrame(r: Row, channel: Channel, failure: Option<string>, at: Time, stamp: Option<Time>)
    ensures var next := ChannelRow(r, channel, failure, at, stamp);
      && next == r.(socket := next.socket, fcm := next.fcm, updatedAt := next.updatedAt)
      && next.updatedAt == (if stamp.Some? then stamp.value else r.updatedAt)
  {
  }

  lemma ChannelKeepsInv(cfg: Config, s: State, step: Step)
    requires Inv(cfg, s) && step.RecordChannel? && Enabled(cfg, s, step)
    ensures Inv(cfg, Apply(cfg, s, step))
  {
    var stamp := if step.stamped then Some(s.clock) else None;
    ChannelRowFrame(s.rows[step.id], step.channel, step.failure, s.clock, stamp);
    assert s.rows[step.id].updatedAt <= s.clock;
    StampKeepsInv(cfg, s, step.id, ChannelRow(s.rows[step.id], step.channel, step.failure, s.clock, stamp), s.history[step.id]);
  }

  /** Only an event that was delivered or rejected is pruned, and not before the shortest retention. */
  lemma PrunedInv(cfg: Config, clock: Time, r: Row, h: History, readAt: Time)
    requires RowInv(cfg, clock, r, h) && readAt <= clock
    requires Prunable(r, readAt - cfg.keepAcknowledged, readAt - cfg.keepUnacknowledged, readAt - cfg.keepFailed)
    ensures GoneInv(cfg, clock, h.(deletedAt := Some(clock)))
  {
  }

  lemma CleanupKeepsRows(cfg: Config, s: State, id: Id, readAt: Time)
    requires RowsInv(cfg, s) && Enabled(cfg, s, Cleanup(id, readAt))
    ensures RowsInv(cfg, Apply(cfg, s, Cleanup(id, readAt)))
  {
    PrunedInv(cfg, s.clock, s.rows[id], s.history[id], readAt);
  }

  lemma CleanupKeepsKeys(cfg: Config, s: State, id: Id, readAt: Time)
    requires Known(s) && KeysInv(cfg, s) && Enabled(cfg, s, Cleanup(id, readAt))
    ensures KeysInv(cfg, Apply(cfg, s, Cleanup(id, readAt)))
  {
    UniqueKeysFrame(s.rows, s.rows - {id});
    SpacedFrame(cfg, s.history, s.history[id := s.history[id].(deletedAt := Some(s.clock))]);
  }

  lemma CleanupKeepsRest(cfg: Config, s: State, id: Id, readAt: Time)
    requires Known(s) && LocksInv(s) && ReadsInv(s) && Enabled(cfg, s, Cleanup(id, readAt))
    ensures LocksInv(Apply(cfg, s, Cleanup(id, readAt)))
    ensures ReadsInv(Apply(cfg, s, Cleanup(id, readAt)))
  {
    var t := Apply(cfg, s, Cleanup(id, readAt));
    LocksFrame(s, t);
    ReadsFrame(s, t);
  }

  lemma CleanupKeepsInv(cfg: Config, s: State, id: Id, readAt: Time)
    requires Inv(cfg, s) && Enabled(cfg, s, Cleanup(id, readAt))
    ensures Inv(cfg, Apply(cfg, s, Cleanup(id, readAt)))
  {
    CleanupKeepsRows(cfg, s, id, readAt);
    CleanupKeepsKeys(cfg, s, id, readAt);
    CleanupKeepsRest(cfg, s, id, readAt);
  }

  lemma TickKeepsInv(cfg: Config, s: State, to: Time)
    requires Inv(cfg, s) && s.clock <= to
    ensures Inv(cfg, s.(clock := to))
  {
    TickKeepsRows(cfg, s, to);
    LocksFrame(s, s.(clock := to));
    ReadsFrame(s, s.(clock := to));
  }

  lemma LockKeepsInv(cfg: Config, s: State, step: Step)
    requires ValidConfig(cfg) && Inv(cfg, s) && step.LockBatch? && Enabled(cfg, s, step)
    ensures Inv(cfg, Apply(cfg, s, step))
  {
    LockKeepsLocks(cfg, s, step);
    ReadsFrame(s, Apply(cfg, s, step));
  }

  lemma AbortKeepsInv(cfg: Config, s: State, w: Worker)
    requires Inv(cfg, s) && w in s.batches
    ensures Inv(cfg, Release(s, w))
  {
    ReleaseKeepsLocks(s, w);
    ReadsFrame(s, Release(s, w));
  }

  lemma ReadKeepsInv(cfg: Config, s: State, step: Step)
    requires Inv(cfg, s) && step.ReadFailure? && Enabled(cfg, s, step) && Guarded(s, step)
    ensures Inv(cfg, Apply(cfg, s, step))
  {
    LocksFrame(s, Apply(cfg, s, step));
    ReadKeepsReads(cfg, s, step);
  }

  lemma OutcomeKeepsInv(cfg: Config, s: State, step: Step)
    requires Inv(cfg, s) && (step.MarkSuccess? || step.WriteFailure?) && Enabled(cfg, s, step) && Guarded(s, step)
    ensures Inv(cfg, Apply(cfg, s, step))
  {
    match step
    case MarkSuccess(id, lease) =>
      if id in s.rows && OutcomeMatches(s.rows[id], lease) {
        SuccessKeepsInv(cfg, s, id, lease.value);
      }
    case WriteFailure(call, error, at) =>
      var t, f := s.(calls := s.calls - {call}), s.calls[call];
      ForgetKeepsInv(cfg, s, call);
      if f.id in s.rows && OutcomeMatches(s.rows[f.id], f.lease) {
        ReadFrame(s, t, f);
        FailureKeepsInv(cfg, t, f, error, at);
      }
  }

  lemma MaintenanceKeepsInv(cfg: Config, s: State, step: Step)
    requires ValidConfig(cfg) && Inv(cfg, s) && Enabled(cfg, s, step)
    requires step.Reconcile? || step.RecordChannel? || step.Acknowledge? || step.Cleanup?
    ensures Inv(cfg, Apply(cfg, s, step))
  {
    match step
    case Reconcile(id, readAt, at) => RequeueKeepsInv(cfg, s, id, readAt, at);
    case RecordChannel(_, _, _, _) => ChannelKeepsInv(cfg, s, step);
    case Acknowledge(id, at) => StampKeepsInv(cfg, s, id, AcknowledgeRow(s.rows[id], at), s.history[id].(acknowledgedAt := Some(at)));
    case Cleanup(id, readAt) => CleanupKeepsInv(cfg, s, id, readAt);
  }

  /** Every step of every worker keeps the invariant. */
  lemma StepKeepsInv(cfg: Config, s: State, step: Step)
    requires ValidConfig(cfg) && Inv(cfg, s) && Enabled(cfg, s, step) && Guarded(s, step)
    ensures Inv(cfg, Apply(cfg, s, step))
  {
    match step
    case Tick(to) => TickKeepsInv(cfg, s, to);
    case Insert(id, key) => InsertKeepsInv(cfg, s, id, key);
    case LockBatch(_, _, _, _, _) => LockKeepsInv(cfg, s, step);
    case CommitBatch(w) => CommitKeepsInv(cfg, s, w);
    case AbortBatch(w) => AbortKeepsInv(cfg, s, w);
    case MarkSuccess(_, _) => OutcomeKeepsInv(cfg, s, step);
    case ReadFailure(_, _, _, _) => ReadKeepsInv(cfg, s, step);
    case WriteFailure(_, _, _) => OutcomeKeepsInv(cfg, s, step);
    case _ => MaintenanceKeepsInv(cfg, s, step);
  }

  lemma {:induction false} RunKeepsInv(cfg: Config, s: State, steps: seq<Step>)
    requires ValidConfig(cfg) && Inv(cfg, s) && IsRun(cfg, s, steps)
    ensures IsTrace(cfg, s, steps) && Inv(cfg, Exec(cfg, s, steps))
    decreases |steps|
  {
    if steps != [] {
      StepKeepsInv(cfg, s, steps[0]);
      RunKeepsInv(cfg, Apply(cfg, s, steps[0]), steps[1..]);
    }
  }
}
