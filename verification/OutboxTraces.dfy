/**
 What holds of the outbox in every interleaving, whatever lease the workers
 present to the outcome calls: the delivery loop of the repository presents none.
 */
module OutboxTraces {
  import opened Numbers
  import opened Options
  import opened OutboxTable
  import opened OutboxProtocol

  /** The states reachable from an empty table by any workers. */
  ghost predicate Reachable(cfg: Config, s: State) {
    exists s0: State, steps: seq<Step> :: Initial(s0) && IsTrace(cfg, s0, steps) && s == Exec(cfg, s0, steps)
  }

  // ------------------------------------------------------------ the invariant

  function Failures(h: History): nat {
    Count(h.endings, Rejected)
  }

  /** The last thing that happened to the event was this outcome. */
  predicate Finished(h: History, cause: Cause) {
    h.endings != [] && Last(h.endings).cause == cause
  }

  /** The claim that is open, if any, is the last one; attempts lag behind the failures once two of them have overlapped. */
  ghost predicate SafeLedger(r: Row, h: History) {
    && h.key == r.key && h.createdAt == r.createdAt
    && r.acknowledgedAt == h.acknowledgedAt && r.failedAt == h.failedAt
    && (r.status.Sent? ==> Finished(h, Delivered)) && (r.status.Failed? ==> Finished(h, Rejected))
    && h.current == (if r.status.Processing? && h.tokens != [] then Some(|h.tokens| - 1) else None)
    && (r.status.Processing? ==> h.tokens != [])
    && r.attempts <= Failures(h)
    && (r.attempts == Failures(h) <==> h.overlapping == 0)
  }

  ghost predicate SafeRow(clock: Time, r: Row, h: History) {
    && SafeLedger(r, h)
    && r.createdAt <= clock && r.updatedAt <= clock && r.availableAt <= clock + MAX_BACKOFF
    && r.maxAttempts == DEFAULT_MAX_ATTEMPTS && (Open(r) ==> r.attempts < r.maxAttempts)
    && (r.status.Failed? ==> r.failedAt.Some?)
    && (r.failedAt.Some? ==> r.createdAt <= r.failedAt.value <= clock)
    && (r.acknowledgedAt.Some? ==> r.createdAt <= r.acknowledgedAt.value <= clock)
    && (r.status.Processing? ==> r.availableAt <= r.updatedAt)
  }

  /** By its history, the event may be deleted from this instant on: each kind has its own retention. */
  predicate RetainedUntil(cfg: Config, h: History, at: Time) {
    || (Finished(h, Delivered) && h.acknowledgedAt.None? && h.createdAt + cfg.keepUnacknowledged == at)
    || (Finished(h, Delivered) && h.acknowledgedAt.Some? && h.acknowledgedAt.value + cfg.keepAcknowledged == at)
    || (Finished(h, Rejected) && h.failedAt.Some? && h.failedAt.value + cfg.keepFailed == at)
  }

  ghost predicate SafeGone(cfg: Config, clock: Time, h: History) {
    && h.deletedAt.Some? && h.createdAt + ShortestRetention(cfg) <= h.deletedAt.value <= clock
    && exists at :: RetainedUntil(cfg, h, at) && at <= h.deletedAt.value
  }

  ghost predicate SafeRows(cfg: Config, s: State) {
    && Known(s)
    && (forall id :: id in s.rows ==> SafeRow(s.clock, s.rows[id], s.history[id]))
    && (forall id :: id in s.history && id !in s.rows ==> SafeGone(cfg, s.clock, s.history[id]))
  }

  /** A locked row is open and due, and only its claimer has it. */
  ghost predicate SafeLocks(s: State) {
    && (forall id :: id in s.locks ==> s.locks[id] in s.batches && id in s.batches[s.locks[id]].ids)
    && (forall w, id :: w in s.batches && id in s.batches[w].ids ==>
          && id in s.locks && s.locks[id] == w && id in s.rows
          && Open(s.rows[id]) && s.rows[id].availableAt <= s.batches[w].now)
    && (forall w :: w in s.batches ==> s.batches[w].now <= s.clock)
  }

  /** What a failure call in flight read is still true if no failure has taken effect since. */
  ghost predicate SafeCall(s: State, f: FailureRead) {
    && f.id in s.history && s.history[f.id].createdAt <= f.at <= s.clock && f.maxAttempts == DEFAULT_MAX_ATTEMPTS
    && f.attempts <= f.failures <= Failures(s.history[f.id])
    && (f.id in s.rows && f.failures == Failures(s.history[f.id]) ==> s.rows[f.id].attempts == f.attempts)
  }

  ghost predicate SafeCalls(s: State) {
    forall c :: c in s.calls ==> SafeCall(s, s.calls[c])
  }

  ghost predicate Safe(cfg: Config, s: State) {
    SafeRows(cfg, s) && KeysInv(cfg, s) && SafeLocks(s) && SafeCalls(s)
  }

  // ------------------------------------------------------------ frames

  lemma SafeLocksFrame(s: State, t: State)
    requires SafeLocks(s) && t.locks == s.locks && t.batches == s.batches && s.clock <= t.clock
    requires forall id :: id in s.locks && id in s.rows ==> id in t.rows && t.rows[id] == s.rows[id]
    ensures SafeLocks(t)
  {
  }

  /** How an event may change: failures only add up, and without a new one the attempts stay. */
  ghost predicate Grows(h: History, next: History) {
    next.createdAt == h.createdAt && next.key == h.key && Failures(h) <= Failures(next)
  }

  ghost predicate EventGrows(s: State, t: State, id: Id)
    requires id in s.history
  {
    && id in t.history && Grows(s.history[id], t.history[id])
    && (id in t.rows ==> id in s.rows && (Failures(t.history[id]) == Failures(s.history[id]) ==> t.rows[id].attempts == s.rows[id].attempts))
  }

  lemma SafeCallsFrame(s: State, t: State)
    requires SafeCalls(s) && s.clock <= t.clock
    requires t.calls.Keys <= s.calls.Keys && forall c :: c in t.calls ==> t.calls[c] == s.calls[c]
    requires forall id :: id in s.history ==> EventGrows(s, t, id)
    ensures SafeCalls(t)
  {
    forall c | c in t.calls ensures SafeCall(t, t.calls[c]) {
      assert SafeCall(s, s.calls[c]);
      assert EventGrows(s, t, s.calls[c].id);
    }
  }

  lemma EndCounts(h: History, cause: Cause, presented: Option<Time>)
    ensures Failures(End(h, cause, presented)) == Failures(h) + (if cause.Rejected? then 1 else 0)
  {
    var e := End(h, cause, presented).endings;
    assert e[..|e| - 1] == h.endings;
  }

  // ------------------------------------------------------------ one step

  lemma PutKeepsSafe(cfg: Config, s: State, id: Id, r: Row, h: History)
    requires Safe(cfg, s) && Unlocked(s, id) && SafeRow(s.clock, r, h)
    requires r.key == s.rows[id].key && Grows(s.history[id], h)
    requires Failures(h) == Failures(s.history[id]) ==> r.attempts == s.rows[id].attempts
    ensures Safe(cfg, Put(s, id, r, h))
  {
    PutKeepsKeys(cfg, s, id, r, h);
    PutKeepsSafeRows(cfg, s, id, r, h);
    PutKeepsSafeLocks(s, id, r, h);
    PutKeepsSafeCalls(s, id, r, h);
  }

  lemma PutKeepsSafeRows(cfg: Config, s: State, id: Id, r: Row, h: History)
    requires SafeRows(cfg, s) && SafeRow(s.clock, r, h)
    ensures SafeRows(cfg, Put(s, id, r, h))
  {
  }

  lemma PutKeepsSafeLocks(s: State, id: Id, r: Row, h: History)
    requires SafeLocks(s) && id !in s.locks
    ensures SafeLocks(Put(s, id, r, h))
  {
    SafeLocksFrame(s, Put(s, id, r, h));
  }

  lemma PutKeepsSafeCalls(s: State, id: Id, r: Row, h: History)
    requires Known(s) && SafeCalls(s)
    requires id in s.history ==>
               && id in s.rows && Grows(s.history[id], h)
               && (Failures(h) == Failures(s.history[id]) ==> r.attempts == s.rows[id].attempts)
    ensures SafeCalls(Put(s, id, r, h))
  {
    SafeCallsFrame(s, Put(s, id, r, h));
  }

  lemma InsertKeepsSafe(cfg: Config, s: State, id: Id, key: string)
    requires Safe(cfg, s) && Enabled(cfg, s, Insert(id, key))
    ensures Safe(cfg, Apply(cfg, s, Insert(id, key)))
  {
    var r, h := NewRow(key, s.clock), NewHistory(key, s.clock);
    PutKeepsSafeRows(cfg, s, id, r, h);
    PutKeepsSafeLocks(s, id, r, h);
    PutKeepsSafeCalls(s, id, r, h);
    InsertKeepsUnique(cfg, s, id, key);
  }

  lemma InsertKeepsUnique(cfg: Config, s: State, id: Id, key: string)
    requires SafeRows(cfg, s) && KeysInv(cfg, s) && Enabled(cfg, s, Insert(id, key))
    ensures KeysInv(cfg, Apply(cfg, s, Insert(id, key)))
  {
    forall i | i in s.history && s.history[i].key == key ensures s.history[i].createdAt + ShortestRetention(cfg) <= s.clock {
      assert i !in s.rows;
    }
  }

  lemma LockKeepsSafe(cfg: Config, s: State, step: Step)
    requires ValidConfig(cfg) && Safe(cfg, s) && step.LockBatch? && Enabled(cfg, s, step)
    ensures Safe(cfg, Apply(cfg, s, step))
  {
    forall id | id in step.ids ensures Unlocked(s, id) && Open(s.rows[id]) && s.rows[id].availableAt <= step.now {
      assert SafeRow(s.clock, s.rows[id], s.history[id]);
    }
    LockKeepsSafeLocks(s, step.worker, Batch(step.now, step.ids));
    SafeCallsFrame(s, Apply(cfg, s, step));
  }

  lemma LockKeepsSafeLocks(s: State, w: Worker, b: Batch)
    requires SafeLocks(s) && w !in s.batches && b.now <= s.clock
    requires forall id :: id in b.ids ==> Unlocked(s, id) && Open(s.rows[id]) && s.rows[id].availableAt <= b.now
    ensures SafeLocks(s.(locks := s.locks + (map id | id in b.ids :: w), batches := s.batches[w := b]))
  {
  }

  lemma ReleaseKeepsSafeLocks(s: State, w: Worker)
    requires SafeLocks(s) && w in s.batches
    ensures SafeLocks(Release(s, w))
  {
  }

  lemma BeginKeepsSafeRow(clock: Time, r: Row, h: History, now: Time)
    requires SafeRow(clock, r, h) && Open(r) && r.availableAt <= now <= clock
    ensures SafeRow(clock, ClaimRow(r, now), Begin(r, h, now)) && Grows(h, Begin(r, h, now))
    ensures Failures(Begin(r, h, now)) == Failures(h)
  {
    EndCounts(h, TakenOver, None);
  }

  lemma CommitKeepsSafe(cfg: Config, s: State, w: Worker)
    requires Safe(cfg, s) && w in s.batches
    ensures Safe(cfg, Apply(cfg, s, CommitBatch(w)))
  {
    CommitKeepsKeys(cfg, s, w);
    CommitKeepsSafeLocks(cfg, s, w);
    CommitKeepsSafeRows(cfg, s, w);
  }

  lemma CommitKeepsSafeLocks(cfg: Config, s: State, w: Worker)
    requires Known(s) && SafeLocks(s) && w in s.batches
    ensures SafeLocks(Apply(cfg, s, CommitBatch(w)))
  {
    ReleaseKeepsSafeLocks(s, w);
    SafeLocksFrame(Release(s, w), Apply(cfg, s, CommitBatch(w)));
  }

  lemma CommitKeepsSafeRows(cfg: Config, s: State, w: Worker)
    requires SafeRows(cfg, s) && SafeLocks(s) && SafeCalls(s) && w in s.batches
    ensures SafeRows(cfg, Apply(cfg, s, CommitBatch(w))) && SafeCalls(Apply(cfg, s, CommitBatch(w)))
  {
    var t, b := Apply(cfg, s, CommitBatch(w)), s.batches[w];
    forall id | id in s.rows ensures SafeRow(t.clock, t.rows[id], t.history[id]) && EventGrows(s, t, id) {
      if id in b.ids {
        BeginKeepsSafeRow(s.clock, s.rows[id], s.history[id], b.now);
      }
    }
    SafeCallsFrame(s, t);
  }

  /** The attempts a failure writes count from its read; they keep up with the failures unless it overlaps another one. */
  lemma FailKeepsLedger(r: Row, h: History, f: FailureRead, next: Row, at: Time)
    requires SafeLedger(r, h) && f.attempts <= f.failures <= Failures(h)
    requires f.failures == Failures(h) ==> r.attempts == f.attempts
    requires next == r.(status := next.status, attempts := f.attempts + 1, availableAt := next.availableAt,
                        failedAt := next.failedAt, lastError := next.lastError, updatedAt := next.updatedAt)
    requires if f.permanent || f.attempts + 1 >= f.maxAttempts then next.status.Failed? && next.failedAt == Some(at)
             else next.status.Pending? && next.failedAt == r.failedAt
    ensures SafeLedger(next, EndByFailure(h, f, at))
    ensures Failures(EndByFailure(h, f, at)) == Failures(h) + 1
    ensures Overlaps(h, f) ==> next.attempts < Failures(EndByFailure(h, f, at))
  {
    EndCounts(h, Rejected, f.lease);
  }

  lemma FailKeepsSafeRow(clock: Time, r: Row, h: History, f: FailureRead, error: string, at: Time)
    requires SafeRow(clock, r, h) && f.maxAttempts == DEFAULT_MAX_ATTEMPTS && h.createdAt <= at <= clock
    requires f.attempts <= f.failures <= Failures(h) && (f.failures == Failures(h) ==> r.attempts == f.attempts)
    ensures SafeRow(clock, FailRow(r, f.attempts, f.maxAttempts, f.permanent, error, at), EndByFailure(h, f, at))
    ensures Grows(h, EndByFailure(h, f, at)) && Failures(h) < Failures(EndByFailure(h, f, at))
  {
    BackoffBounds(f.attempts + 1, f.attempts + 1);
    FailKeepsLedger(r, h, f, FailRow(r, f.attempts, f.maxAttempts, f.permanent, error, at), at);
  }

  lemma ForgetKeepsSafe(cfg: Config, s: State, call: Call)
    requires Safe(cfg, s)
    ensures Safe(cfg, s.(calls := s.calls - {call}))
  {
    var t := s.(calls := s.calls - {call});
    SafeLocksFrame(s, t);
    SafeCallsFrame(s, t);
  }

  lemma WriteKeepsSafe(cfg: Config, s: State, step: Step)
    requires Safe(cfg, s) && step.WriteFailure? && Enabled(cfg, s, step)
    ensures Safe(cfg, Apply(cfg, s, step))
  {
    var f, t := s.calls[step.call], s.(calls := s.calls - {step.call});
    ForgetKeepsSafe(cfg, s, step.call);
    if f.id in s.rows && OutcomeMatches(s.rows[f.id], f.lease) {
      var r, h := s.rows[f.id], s.history[f.id];
      assert SafeCall(s, f);
      FailKeepsSafeRow(s.clock, r, h, f, step.error, step.at);
      PutKeepsSafe(cfg, t, f.id, FailRow(r, f.attempts, f.maxAttempts, f.permanent, step.error, step.at), EndByFailure(h, f, step.at));
    }
  }

  lemma CleanupKeepsSafe(cfg: Config, s: State, id: Id, readAt: Time)
    requires Safe(cfg, s) && Enabled(cfg, s, Cleanup(id, readAt))
    ensures Safe(cfg, Apply(cfg, s, Cleanup(id, readAt)))
  {
    CleanupKeepsSafeRows(cfg, s, id, readAt);
    CleanupKeepsKeys(cfg, s, id, readAt);
    CleanupKeepsSafeRest(cfg, s, id, readAt);
  }

  lemma CleanupKeepsSafeRest(cfg: Config, s: State, id: Id, readAt: Time)
    requires Known(s) && SafeLocks(s) && SafeCalls(s) && Enabled(cfg, s, Cleanup(id, readAt))
    ensures SafeLocks(Apply(cfg, s, Cleanup(id, readAt))) && SafeCalls(Apply(cfg, s, Cleanup(id, readAt)))
  {
    var t := Apply(cfg, s, Cleanup(id, readAt));
    SafeLocksFrame(s, t);
    SafeCallsFrame(s, t);
  }

  lemma CleanupKeepsSafeRows(cfg: Config, s: State, id: Id, readAt: Time)
    requires SafeRows(cfg, s) && Enabled(cfg, s, Cleanup(id, readAt))
    ensures SafeRows(cfg, Apply(cfg, s, Cleanup(id, readAt)))
  {
    PrunedIsSafeGone(cfg, s.clock, s.rows[id], s.history[id], readAt);
  }

  lemma PrunedIsSafeGone(cfg: Config, clock: Time, r: Row, h: History, readAt: Time)
    requires SafeRow(clock, r, h) && readAt <= clock
    requires Prunable(r, readAt - cfg.keepAcknowledged, readAt - cfg.keepUnacknowledged, readAt - cfg.keepFailed)
    ensures SafeGone(cfg, clock, h.(deletedAt := Some(clock)))
  {
    var gone := h.(deletedAt := Some(clock));
    var at := if r.status.Failed? then h.failedAt.value + cfg.keepFailed
              else if h.acknowledgedAt.Some? then h.acknowledgedAt.value + cfg.keepAcknowledged
              else h.createdAt + cfg.keepUnacknowledged;
    assert RetainedUntil(cfg, gone, at);
  }

  lemma ChannelKeepsSafe(cfg: Config, s: State, step: Step)
    requires Safe(cfg, s) && step.RecordChannel? && Enabled(cfg, s, step)
    ensures Safe(cfg, Apply(cfg, s, step))
  {
    var r, stamp := s.rows[step.id], if step.stamped then Some(s.clock) else None;
    ChannelRowFrame(r, step.channel, step.failure, s.clock, stamp);
    assert SafeRow(s.clock, r, s.history[step.id]);
    PutKeepsSafe(cfg, s, step.id, ChannelRow(r, step.channel, step.failure, s.clock, stamp), s.history[step.id]);
  }

  lemma SuccessKeepsSafe(cfg: Config, s: State, id: Id, lease: Option<Time>)
    requires Safe(cfg, s) && Unlocked(s, id) && OutcomeMatches(s.rows[id], lease)
    ensures Safe(cfg, Put(s, id, SucceedRow(s.rows[id], s.clock), End(s.history[id], Delivered, lease)))
  {
    assert SafeRow(s.clock, s.rows[id], s.history[id]);
    EndCounts(s.history[id], Delivered, lease);
    PutKeepsSafe(cfg, s, id, SucceedRow(s.rows[id], s.clock), End(s.history[id], Delivered, lease));
  }

  lemma RequeueKeepsSafe(cfg: Config, s: State, id: Id, readAt: Time, at: Time)
    requires Safe(cfg, s) && Enabled(cfg, s, Reconcile(id, readAt, at))
    ensures Safe(cfg, Apply(cfg, s, Reconcile(id, readAt, at)))
  {
    assert SafeRow(s.clock, s.rows[id], s.history[id]);
    EndCounts(s.history[id], Requeued, None);
    PutKeepsSafe(cfg, s, id, RequeueRow(s.rows[id], at), End(s.history[id], Requeued, None));
  }

  lemma AcknowledgeKeepsSafe(cfg: Config, s: State, id: Id, at: Time)
    requires Safe(cfg, s) && Enabled(cfg, s, Acknowledge(id, at))
    ensures Safe(cfg, Apply(cfg, s, Acknowledge(id, at)))
  {
    assert SafeRow(s.clock, s.rows[id], s.history[id]);
    PutKeepsSafe(cfg, s, id, AcknowledgeRow(s.rows[id], at), s.history[id].(acknowledgedAt := Some(at)));
  }

  lemma TickKeepsSafeRows(cfg: Config, s: State, to: Time)
    requires SafeRows(cfg, s) && s.clock <= to
    ensures SafeRows(cfg, s.(clock := to))
  {
    forall id | id in s.rows ensures SafeRow(to, s.rows[id], s.history[id]) {
      assert SafeRow(s.clock, s.rows[id], s.history[id]);
    }
  }

  lemma TickKeepsSafe(cfg: Config, s: State, to: Time)
    requires Safe(cfg, s) && s.clock <= to
    ensures Safe(cfg, s.(clock := to))
  {
    TickKeepsSafeRows(cfg, s, to);
    SafeLocksFrame(s, s.(clock := to));
    SafeCallsFrame(s, s.(clock := to));
  }

  lemma ReadKeepsSafe(cfg: Config, s: State, step: Step)
    requires Safe(cfg, s) && step.ReadFailure? && Enabled(cfg, s, step)
    ensures Safe(cfg, Apply(cfg, s, step))
  {
    var t := Apply(cfg, s, step);
    SafeLocksFrame(s, t);
    ReadKeepsSafeCalls(cfg, s, step);
  }

  lemma ReadKeepsSafeCalls(cfg: Config, s: State, step: Step)
    requires SafeRows(cfg, s) && SafeCalls(s) && step.ReadFailure? && Enabled(cfg, s, step)
    ensures SafeCalls(Apply(cfg, s, step))
  {
    var t := Apply(cfg, s, step);
    assert SafeRow(s.clock, s.rows[step.id], s.history[step.id]);
    forall c | c in t.calls ensures SafeCall(t, t.calls[c]) {
      if c != step.call {
        assert SafeCall(s, s.calls[c]);
      }
    }
  }

  lemma AbortKeepsSafe(cfg: Config, s: State, w: Worker)
    requires Safe(cfg, s) && w in s.batches
    ensures Safe(cfg, Release(s, w))
  {
    ReleaseKeepsSafeLocks(s, w);
    SafeCallsFrame(s, Release(s, w));
  }

  lemma StepKeepsSafe(cfg: Config, s: State, step: Step)
    requires ValidConfig(cfg) && Safe(cfg, s) && Enabled(cfg, s, step)
    ensures Safe(cfg, Apply(cfg, s, step))
  {
    match step
    case Tick(to) => TickKeepsSafe(cfg, s, to);
    case Insert(id, key) => InsertKeepsSafe(cfg, s, id, key);
    case LockBatch(_, _, _, _, _) => LockKeepsSafe(cfg, s, step);
    case CommitBatch(w) => CommitKeepsSafe(cfg, s, w);
    case AbortBatch(w) => AbortKeepsSafe(cfg, s, w);
    case MarkSuccess(id, lease) =>
      if id in s.rows && OutcomeMatches(s.rows[id], lease) {
        SuccessKeepsSafe(cfg, s, id, lease);
      }
    case ReadFailure(_, _, _, _) => ReadKeepsSafe(cfg, s, step);
    case WriteFailure(_, _, _) => WriteKeepsSafe(cfg, s, step);
    case Reconcile(id, readAt, at) => RequeueKeepsSafe(cfg, s, id, readAt, at);
    case RecordChannel(_, _, _, _) => ChannelKeepsSafe(cfg, s, step);
    case Acknowledge(id, at) => AcknowledgeKeepsSafe(cfg, s, id, at);
    case Cleanup(id, readAt) => CleanupKeepsSafe(cfg, s, id, readAt);
  }

  lemma {:induction false} TraceKeepsSafe(cfg: Config, s: State, steps: seq<Step>)
    requires ValidConfig(cfg) && Safe(cfg, s) && IsTrace(cfg, s, steps)
    ensures Safe(cfg, Exec(cfg, s, steps))
    decreases |steps|
  {
    if steps != [] {
      StepKeepsSafe(cfg, s, steps[0]);
      TraceKeepsSafe(cfg, Apply(cfg, s, steps[0]), steps[1..]);
    }
  }

  lemma ReachableIsSafe(cfg: Config, s: State)
    requires ValidConfig(cfg) && Reachable(cfg, s)
    ensures Safe(cfg, s)
  {
    var s0: State, steps: seq<Step> :| Initial(s0) && IsTrace(cfg, s0, steps) && s == Exec(cfg, s0, steps);
    TraceKeepsSafe(cfg, s0, steps);
  }

  // ------------------------------------------------------------ batches

  /** Claims in flight never share a row. */
  lemma ConcurrentBatchesAreDisjoint(cfg: Config, s: State, w: Worker, v: Worker)
    requires ValidConfig(cfg) && Reachable(cfg, s) && w in s.batches && v in s.batches && w != v
    ensures s.batches[w].ids !! s.batches[v].ids
  {
    ReachableIsSafe(cfg, s);
    forall id | id in s.batches[w].ids ensures id !in s.batches[v].ids {
      assert s.locks[id] == w;
    }
  }

  // ------------------------------------------------------------ no event is lost

  lemma TerminalChannel(cfg: Config, s: State, step: Step, id: Id)
    requires Known(s) && step.RecordChannel? && Enabled(cfg, s, step) && id in s.rows
    ensures id in Apply(cfg, s, step).rows && Apply(cfg, s, step).rows[id].status == s.rows[id].status
  {
    ChannelRowFrame(s.rows[step.id], step.channel, step.failure, s.clock, if step.stamped then Some(s.clock) else None);
  }

  lemma TerminalStep(cfg: Config, s: State, step: Step, id: Id)
    requires Known(s) && SafeLocks(s) && Enabled(cfg, s, step) && id in s.rows && !Open(s.rows[id])
    ensures id in Apply(cfg, s, step).history
    ensures id in Apply(cfg, s, step).rows ==> Apply(cfg, s, step).rows[id].status == s.rows[id].status
  {
    match step
    case CommitBatch(w) => assert id !in s.batches[w].ids;
    case RecordChannel(_, _, _, _) => TerminalChannel(cfg, s, step, id);
    case _ =>
  }

  lemma {:induction false} GoneStaysGone(cfg: Config, s: State, steps: seq<Step>, id: Id)
    requires Known(s) && IsTrace(cfg, s, steps) && id in s.history && id !in s.rows
    ensures id !in Exec(cfg, s, steps).rows
    decreases |steps|
  {
    if steps != [] {
      assert id in Apply(cfg, s, steps[0]).history && id !in Apply(cfg, s, steps[0]).rows;
      GoneStaysGone(cfg, Apply(cfg, s, steps[0]), steps[1..], id);
    }
  }

  lemma {:induction false} TerminalFromSafe(cfg: Config, s: State, steps: seq<Step>, id: Id)
    requires ValidConfig(cfg) && Safe(cfg, s) && IsTrace(cfg, s, steps)
    requires id in s.rows && !Open(s.rows[id]) && id in Exec(cfg, s, steps).rows
    ensures Exec(cfg, s, steps).rows[id].status == s.rows[id].status
    decreases |steps|
  {
    if steps != [] {
      var t := Apply(cfg, s, steps[0]);
      StepKeepsSafe(cfg, s, steps[0]);
      TerminalStep(cfg, s, steps[0], id);
      if id in t.rows {
        TerminalFromSafe(cfg, t, steps[1..], id);
      } else {
        GoneStaysGone(cfg, t, steps[1..], id);
      }
    }
  }

  /** Over any continuation a SENT or FAILED row keeps its status for as long as it exists. */
  lemma TerminalIsAbsorbing(cfg: Config, s: State, steps: seq<Step>, id: Id)
    requires ValidConfig(cfg) && Reachable(cfg, s) && Known(s) && IsTrace(cfg, s, steps)
    requires id in s.rows && !Open(s.rows[id]) && id in Exec(cfg, s, steps).rows
    ensures Exec(cfg, s, steps).rows[id].status == s.rows[id].status
  {
    ReachableIsSafe(cfg, s);
    TerminalFromSafe(cfg, s, steps, id);
  }

  predicate FinishedAfter(cfg: Config, s: State, steps: seq<Step>, k: nat, id: Id)
    requires Known(s) && IsTrace(cfg, s, steps) && k <= |steps|
    decreases k
  {
    if k == 0 then id in s.rows && !Open(s.rows[id])
    else FinishedAfter(cfg, Apply(cfg, s, steps[0]), steps[1..], k - 1, id)
  }

  /** A row disappears only after it was SENT or FAILED. */
  lemma {:induction false} PrunedOnlyWhenFinished(cfg: Config, s: State, steps: seq<Step>, id: Id)
    requires Known(s) && IsTrace(cfg, s, steps) && id in s.rows && id !in Exec(cfg, s, steps).rows
    ensures exists k :: 0 <= k <= |steps| && FinishedAfter(cfg, s, steps, k, id)
    decreases |steps|
  {
    var t := Apply(cfg, s, steps[0]);
    if id in t.rows {
      PrunedOnlyWhenFinished(cfg, t, steps[1..], id);
      var k :| 0 <= k <= |steps| - 1 && FinishedAfter(cfg, t, steps[1..], k, id);
      assert FinishedAfter(cfg, s, steps, k + 1, id);
    } else {
      assert FinishedAfter(cfg, s, steps, 0, id);
    }
  }

  /** Left alone, an open event has an attempt left and can be claimed once max(300 s, stale threshold) has passed. */
  lemma OpenEventsBecomeClaimable(cfg: Config, s: State, id: Id, later: Time)
    requires ValidConfig(cfg) && Reachable(cfg, s) && id in s.rows && Open(s.rows[id])
    requires s.clock + Max(MAX_BACKOFF, cfg.stale) <= later
    ensures Claimable(s.rows[id], later, later - cfg.stale)
    ensures s.rows[id].attempts < s.rows[id].maxAttempts
    ensures s.rows[id].status.Processing? ==> s.rows[id].availableAt <= s.rows[id].updatedAt
  {
    ReachableIsSafe(cfg, s);
    assert SafeRow(s.clock, s.rows[id], s.history[id]);
  }

  /**
   A SENT event that was never acknowledged is not deleted before its creation plus the retention for
   unacknowledged ones, an acknowledged one not before its acknowledgement plus the retention
   for those, and a FAILED one not before its failure plus the retention for failures.
   */
  lemma RetentionIsKept(cfg: Config, s: State, id: Id)
    requires ValidConfig(cfg) && Reachable(cfg, s) && id in s.history && id !in s.rows
    ensures var h := s.history[id];
      && h.deletedAt.Some? && (Finished(h, Delivered) || Finished(h, Rejected))
      && (Finished(h, Delivered) && h.acknowledgedAt.None? ==> h.createdAt + cfg.keepUnacknowledged <= h.deletedAt.value)
      && (Finished(h, Delivered) && h.acknowledgedAt.Some? ==> h.acknowledgedAt.value + cfg.keepAcknowledged <= h.deletedAt.value)
      && (Finished(h, Rejected) ==> h.failedAt.Some? && h.failedAt.value + cfg.keepFailed <= h.deletedAt.value)
  {
    ReachableIsSafe(cfg, s);
    assert SafeGone(cfg, s.clock, s.history[id]);
  }

  /**
   A finished event that is still there can be deleted by a cleanup that reads the clock at `later` if and
   only if the retention of its kind is over by then; FAILED always has failed_at.
   */
  lemma DeletableIff(cfg: Config, s: State, id: Id, later: Time)
    requires ValidConfig(cfg) && Reachable(cfg, s) && id in s.rows && id in s.history && !Open(s.rows[id])
    ensures var r, h := s.rows[id], s.history[id];
      && (r.status.Sent? || r.status.Failed?) && r.acknowledgedAt == h.acknowledgedAt
      && (r.status.Failed? ==> r.failedAt.Some? && r.failedAt == h.failedAt)
      && (Prunable(r, later - cfg.keepAcknowledged, later - cfg.keepUnacknowledged, later - cfg.keepFailed) <==>
          if r.status.Failed? then r.failedAt.value + cfg.keepFailed <= later
          else if r.acknowledgedAt.Some? then r.acknowledgedAt.value + cfg.keepAcknowledged <= later
          else r.createdAt + cfg.keepUnacknowledged <= later)
  {
    ReachableIsSafe(cfg, s);
    assert SafeRow(s.clock, s.rows[id], s.history[id]);
  }

  /** One row per idempotency key at a time, and insertions under one key at least the shortest retention apart. */
  lemma IdempotencyWindow(cfg: Config, s: State, i: Id, j: Id)
    requires ValidConfig(cfg) && Reachable(cfg, s) && i != j && i in s.history && j in s.history
    requires s.history[i].key == s.history[j].key && s.history[i].createdAt <= s.history[j].createdAt
    ensures !(i in s.rows && j in s.rows)
    ensures s.history[i].createdAt + ShortestRetention(cfg) <= s.history[j].createdAt
  {
    ReachableIsSafe(cfg, s);
    assert Apart(cfg, s.history[i], s.history[j]);
  }
}
