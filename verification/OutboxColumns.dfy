/**
 Which step writes which column of an outbox row, and what it writes there; the
 channels of an event over whole traces.
 */
module OutboxColumns {
  import opened Options
  import opened OutboxTable
  import opened OutboxProtocol
  import opened OutboxTraces

  /** The step is the write of a failure call for this event. */
  predicate FailureOf(s: State, step: Step, id: Id) {
    step.WriteFailure? && step.call in s.calls && s.calls[step.call].id == id
  }

  predicate Records(step: Step, id: Id, channel: Channel) {
    step.RecordChannel? && step.id == id && step.channel == channel
  }

  /** A step that turned row `o` into `n` was entitled to: each column has its own writers, and three have none. */
  predicate Entitled(s: State, step: Step, id: Id, o: Row, n: Row) {
    && n.key == o.key && n.createdAt == o.createdAt && n.maxAttempts == o.maxAttempts
    && (n.socket != o.socket ==> Records(step, id, Socket))
    && (n.fcm != o.fcm ==> Records(step, id, Fcm))
    && (n.attempts != o.attempts || n.availableAt != o.availableAt || n.failedAt != o.failedAt || n.lastError != o.lastError
        ==> FailureOf(s, step, id))
    && (n.processedAt != o.processedAt ==> step.MarkSuccess? && step.id == id)
    && (n.acknowledgedAt != o.acknowledgedAt ==> step.Acknowledge? && step.id == id)
    && (n.status != o.status ==>
          || (step.CommitBatch? && step.worker in s.batches && id in s.batches[step.worker].ids)
          || (step.MarkSuccess? && step.id == id) || (step.Reconcile? && step.id == id) || FailureOf(s, step, id))
  }

  lemma SuccessIsEntitled(cfg: Config, s: State, step: Step, id: Id)
    requires Known(s) && step.MarkSuccess? && Enabled(cfg, s, step) && id in s.rows
    ensures id in Apply(cfg, s, step).rows && Entitled(s, step, id, s.rows[id], Apply(cfg, s, step).rows[id])
  {
    if step.id == id {
      MarksWrite(cfg, s, step);
    } else {
      assert Apply(cfg, s, step).rows[id] == s.rows[id];
    }
  }

  lemma FailureIsEntitled(cfg: Config, s: State, step: Step, id: Id)
    requires Known(s) && step.WriteFailure? && Enabled(cfg, s, step) && id in s.rows
    ensures id in Apply(cfg, s, step).rows && Entitled(s, step, id, s.rows[id], Apply(cfg, s, step).rows[id])
  {
    var f := s.calls[step.call];
    if f.id in s.rows && OutcomeMatches(s.rows[f.id], f.lease) {
      FailureWrites(cfg, s, step);
    }
  }

  lemma MaintenanceIsEntitled(cfg: Config, s: State, step: Step, id: Id)
    requires Known(s) && (step.Reconcile? || step.RecordChannel? || step.Acknowledge?) && Enabled(cfg, s, step) && id in s.rows
    ensures id in Apply(cfg, s, step).rows && Entitled(s, step, id, s.rows[id], Apply(cfg, s, step).rows[id])
  {
    if step.RecordChannel? {
      ChannelWriters(cfg, s, step, id);
    }
  }

  /** Every column of a row has its own writers, and three of them have none. */
  lemma ColumnsHaveTheirWriters(cfg: Config, s: State, step: Step, id: Id)
    requires Known(s) && Enabled(cfg, s, step) && id in s.rows && id in Apply(cfg, s, step).rows
    ensures Entitled(s, step, id, s.rows[id], Apply(cfg, s, step).rows[id])
  {
    if step.MarkSuccess? {
      SuccessIsEntitled(cfg, s, step, id);
    } else if step.WriteFailure? {
      FailureIsEntitled(cfg, s, step, id);
    } else if step.Reconcile? || step.RecordChannel? || step.Acknowledge? {
      MaintenanceIsEntitled(cfg, s, step, id);
    } else if step.CommitBatch? && id in s.batches[step.worker].ids {
      ClaimWrites(cfg, s, step.worker, id);
    } else {
      assert Apply(cfg, s, step).rows[id] == s.rows[id];
    }
  }

  lemma ChannelWriters(cfg: Config, s: State, step: Step, id: Id)
    requires Known(s) && step.RecordChannel? && Enabled(cfg, s, step) && id in s.rows
    ensures var o, n := s.rows[id], Apply(cfg, s, step).rows[id];
      && n == o.(socket := n.socket, fcm := n.fcm, updatedAt := n.updatedAt)
      && (n.socket != o.socket ==> step.id == id && step.channel.Socket?)
      && (n.fcm != o.fcm ==> step.id == id && step.channel.Fcm?)
  {
  }

  /** What a claim writes: status and lease, nothing else. */
  lemma ClaimWrites(cfg: Config, s: State, w: Worker, id: Id)
    requires Known(s) && w in s.batches && id in s.rows && id in s.batches[w].ids
    ensures var n := Apply(cfg, s, CommitBatch(w)).rows;
      id in n && n[id] == s.rows[id].(status := Processing, updatedAt := s.batches[w].now)
  {
  }

  /** What a success, a reconciliation and an acknowledgement write. */
  lemma MarksWrite(cfg: Config, s: State, step: Step)
    requires Known(s) && (step.MarkSuccess? || step.Reconcile? || step.Acknowledge?) && Enabled(cfg, s, step) && step.id in s.rows
    ensures var o, t := s.rows[step.id], Apply(cfg, s, step);
      && step.id in t.rows
      && t.rows[step.id] == match step
           case MarkSuccess(_, lease) =>
             if (o.status.Pending? || o.status.Processing?) && (lease.None? || o.updatedAt == lease.value)
             then o.(status := Sent, processedAt := Some(s.clock), updatedAt := s.clock) else o
           case Reconcile(_, _, at) => o.(status := Pending, updatedAt := at)
           case Acknowledge(_, at) => o.(acknowledgedAt := Some(at), updatedAt := at)
           case _ => o
  {
  }

  /** What a recording writes: SENT with its instant and no error, or FAILED with the error and the instant kept. */
  lemma RecordingWrites(cfg: Config, s: State, step: Step)
    requires Known(s) && step.RecordChannel? && Enabled(cfg, s, step)
    ensures var o, t := s.rows[step.id], Apply(cfg, s, step);
      && step.id in t.rows
      && var n := t.rows[step.id];
      && (step.channel.Socket? && step.failure.None? ==> n.socket == ChannelState(ChannelSent, Some(s.clock), None))
      && (step.channel.Socket? && step.failure.Some? ==> n.socket == ChannelState(ChannelFailed, o.socket.sentAt, step.failure))
      && (step.channel.Fcm? && step.failure.None? ==> n.fcm == ChannelState(ChannelSent, Some(s.clock), None))
      && (step.channel.Fcm? && step.failure.Some? ==> n.fcm == ChannelState(ChannelFailed, o.fcm.sentAt, step.failure))
      && n.updatedAt == (if step.stamped then s.clock else o.updatedAt)
  {
  }

  /** The delays of the retries: 15 s, 45 s, 135 s and then 300 s. */
  function RetryDelay(attempt: nat): Time {
    if attempt == 1 then 15_000 else if attempt == 2 then 45_000 else if attempt == 3 then 135_000 else 300_000
  }

  lemma BackoffIsRetryDelay(attempt: nat)
    requires attempt >= 1
    ensures Backoff(attempt) == RetryDelay(attempt)
  {
    assert Pow3(1) == 3 && Pow3(2) == 9 && Pow3(3) == 27 && Pow3(4) == 81;
    if attempt >= 4 {
      Pow3Monotone(4, attempt);
    }
  }

  /** What a failure that takes effect writes. */
  lemma FailureWrites(cfg: Config, s: State, step: Step)
    requires Known(s) && step.WriteFailure? && Enabled(cfg, s, step)
    requires var f := s.calls[step.call];
      f.id in s.rows && OutcomeMatches(s.rows[f.id], f.lease)
    ensures var f, t := s.calls[step.call], Apply(cfg, s, step);
      && f.id in t.rows
      && t.rows[f.id] ==
           if f.permanent || f.attempts + 1 >= f.maxAttempts
           then s.rows[f.id].(status := Failed, attempts := f.attempts + 1, failedAt := Some(step.at), lastError := Some(step.error), updatedAt := step.at)
           else s.rows[f.id].(status := Pending, attempts := f.attempts + 1, availableAt := step.at + RetryDelay(f.attempts + 1),
                              lastError := Some(step.error), updatedAt := step.at)
  {
    BackoffIsRetryDelay(s.calls[step.call].attempts + 1);
  }

  // ------------------------------------------------------------ channels over traces

  function ChannelOf(r: Row, channel: Channel): ChannelState {
    match channel case Socket => r.socket case Fcm => r.fcm
  }

  /**
   Over any trace, guarded or not, a channel of an event is what the last recording of that event and that
   channel left: a SENT channel stays SENT across failures, takeovers, reconciliations and
   claims until one comes.
   */
  lemma {:induction false} ChannelsChangeOnlyByRecording(cfg: Config, s: State, steps: seq<Step>, id: Id, channel: Channel)
    requires Known(s) && IsTrace(cfg, s, steps) && id in s.rows && id in Exec(cfg, s, steps).rows
    requires forall i :: 0 <= i < |steps| ==> !Records(steps[i], id, channel)
    ensures ChannelOf(Exec(cfg, s, steps).rows[id], channel) == ChannelOf(s.rows[id], channel)
    decreases |steps|
  {
    if steps != [] {
      var t := Apply(cfg, s, steps[0]);
      if id !in t.rows {
        assert id in t.history;
        GoneStaysGone(cfg, t, steps[1..], id);
        assert false;
      }
      ColumnsHaveTheirWriters(cfg, s, steps[0], id);
      ChannelsChangeOnlyByRecording(cfg, t, steps[1..], id, channel);
    }
  }
}
