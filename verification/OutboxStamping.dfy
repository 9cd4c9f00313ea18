/**
 Channel recording by an ORM that stamps @updatedAt, met by workers that present
 their lease: the recording costs the worker the lease it is about to present.
 */
module OutboxStamping {
  import opened Options
  import opened OutboxTable
  import opened OutboxProtocol
  import opened OutboxTheorems

  /** The leases under which a stamped recording was made, later than the claim itself. */
  function Stamped(s: State, step: Step, id: Id, stamped: set<Time>): set<Time> {
    if step.RecordChannel? && step.id == id && step.stamped && id in s.rows && id in s.history
       && s.rows[id].status.Processing? && s.history[id].tokens != [] && Last(s.history[id].tokens) < s.clock
    then stamped + {Last(s.history[id].tokens)} else stamped
  }

  /** An outcome of the event is reported only under a lease that a stamped recording was made under. */
  predicate RecordsFirst(step: Step, id: Id, stamped: set<Time>) {
    match step
    case MarkSuccess(i, lease) => i == id ==> lease.Some? && lease.value in stamped
    case ReadFailure(_, i, lease, _) => i == id ==> lease.Some? && lease.value in stamped
    case _ => true
  }

  /** A run in which whoever holds a claim of the event records a channel before it reports the outcome. */
  predicate IsRecordingRun(cfg: Config, s: State, steps: seq<Step>, id: Id, stamped: set<Time>)
    requires Known(s)
    decreases |steps|
  {
    steps == [] ||
    (Enabled(cfg, s, steps[0]) && Guarded(s, steps[0]) && RecordsFirst(steps[0], id, stamped)
     && IsRecordingRun(cfg, Apply(cfg, s, steps[0]), steps[1..], id, Stamped(s, steps[0], id, stamped)))
  }

  /** Only a claim opens a generation; nothing else moves updated_at of a PROCESSING row back. */
  lemma OnlyClaimsBegin(cfg: Config, s: State, step: Step, id: Id)
    requires Known(s) && Enabled(cfg, s, step) && id in s.rows && id in Apply(cfg, s, step).rows && s.rows[id].updatedAt <= s.clock
    requires !(step.CommitBatch? && id in s.batches[step.worker].ids)
    ensures var t := Apply(cfg, s, step);
      && t.history[id].tokens == s.history[id].tokens
      && (t.rows[id].status.Processing? ==> s.rows[id].status.Processing? && s.rows[id].updatedAt <= t.rows[id].updatedAt)
  {
    if step.RecordChannel? {
      ChannelStep(cfg, s, step, id);
    }
  }

  lemma ChannelStep(cfg: Config, s: State, step: Step, id: Id)
    requires Known(s) && step.RecordChannel? && Enabled(cfg, s, step) && id in s.rows && s.rows[id].updatedAt <= s.clock
    ensures var t := Apply(cfg, s, step);
      && id in t.rows && t.history == s.history && t.calls == s.calls
      && t.rows[id].status == s.rows[id].status && t.rows[id].attempts == s.rows[id].attempts
      && s.rows[id].updatedAt <= t.rows[id].updatedAt
      && (step.id == id && step.stamped ==> t.rows[id].updatedAt == s.clock)
  {
    ChannelRowFrame(s.rows[step.id], step.channel, step.failure, s.clock, if step.stamped then Some(s.clock) else None);
  }

  /** A lease that no longer matches its row never matches it again. */
  lemma DeadLeaseStaysDead(cfg: Config, s: State, step: Step, id: Id, lease: Time)
    requires ValidConfig(cfg) && Inv(cfg, s) && Enabled(cfg, s, step) && Guarded(s, step)
    requires id in s.rows && id in Apply(cfg, s, step).rows && lease in s.history[id].tokens
    requires !OutcomeMatches(s.rows[id], Some(lease))
    ensures lease in Apply(cfg, s, step).history[id].tokens && !OutcomeMatches(Apply(cfg, s, step).rows[id], Some(lease))
  {
    var t := Apply(cfg, s, step);
    StepKeepsInv(cfg, s, step);
    assert RowInv(cfg, s.clock, s.rows[id], s.history[id]) && RowInv(cfg, t.clock, t.rows[id], t.history[id]);
    if step.CommitBatch? && id in s.batches[step.worker].ids {
      ClaimRevivesNothing(s.rows[id], s.history[id], s.batches[step.worker].now);
    } else {
      OnlyClaimsBegin(cfg, s, step, id);
      if OutcomeMatches(t.rows[id], Some(lease)) {
        LeaseIsLive(cfg, t.clock, t.rows[id], t.history[id], lease);
        assert false;
      }
    }
  }

  /** The event is open, nobody is about to fail it, and the stamped leases are dead. */
  ghost predicate Stuck(cfg: Config, s: State, id: Id, attempts: nat, stamped: set<Time>) {
    && Inv(cfg, s) && id in s.rows && Open(s.rows[id]) && s.rows[id].attempts == attempts
    && (forall c :: c in s.calls ==> s.calls[c].id != id)
    && (forall lease :: lease in stamped ==> lease in s.history[id].tokens && !OutcomeMatches(s.rows[id], Some(lease)))
  }

  lemma StuckRow(cfg: Config, s: State, step: Step, id: Id, attempts: nat, stamped: set<Time>)
    requires Known(s) && id in s.rows && Open(s.rows[id]) && s.rows[id].attempts == attempts && s.rows[id].updatedAt <= s.clock
    requires forall c :: c in s.calls ==> s.calls[c].id != id
    requires forall lease :: lease in stamped ==> !OutcomeMatches(s.rows[id], Some(lease))
    requires Enabled(cfg, s, step) && RecordsFirst(step, id, stamped)
    ensures var t := Apply(cfg, s, step);
      && id in t.rows && Open(t.rows[id]) && t.rows[id].attempts == attempts
      && forall c :: c in t.calls ==> t.calls[c].id != id
  {
    if step.RecordChannel? {
      ChannelStep(cfg, s, step, id);
    }
  }

  lemma StampKillsLease(cfg: Config, s: State, step: Step, id: Id)
    requires Known(s) && step.RecordChannel? && step.stamped && step.id == id && Enabled(cfg, s, step) && s.rows[id].updatedAt <= s.clock
    requires s.rows[id].status.Processing? && s.history[id].tokens != [] && Last(s.history[id].tokens) < s.clock
    ensures var t := Apply(cfg, s, step);
      && id in t.rows && id in t.history && Last(s.history[id].tokens) in t.history[id].tokens
      && !OutcomeMatches(t.rows[id], Some(Last(s.history[id].tokens)))
  {
    ChannelStep(cfg, s, step, id);
  }

  lemma StuckStep(cfg: Config, s: State, step: Step, id: Id, attempts: nat, stamped: set<Time>)
    requires ValidConfig(cfg) && Stuck(cfg, s, id, attempts, stamped)
    requires Enabled(cfg, s, step) && Guarded(s, step) && RecordsFirst(step, id, stamped)
    ensures Stuck(cfg, Apply(cfg, s, step), id, attempts, Stamped(s, step, id, stamped))
  {
    StepKeepsInv(cfg, s, step);
    assert RowInv(cfg, s.clock, s.rows[id], s.history[id]);
    StuckRow(cfg, s, step, id, attempts, stamped);
    var t := Apply(cfg, s, step);
    forall lease | lease in Stamped(s, step, id, stamped)
      ensures lease in t.history[id].tokens && !OutcomeMatches(t.rows[id], Some(lease))
    {
      if lease in stamped {
        DeadLeaseStaysDead(cfg, s, step, id, lease);
      } else {
        StampKillsLease(cfg, s, step, id);
      }
    }
  }

  lemma {:induction false} StuckRun(cfg: Config, s: State, steps: seq<Step>, id: Id, attempts: nat, stamped: set<Time>)
    requires ValidConfig(cfg) && Stuck(cfg, s, id, attempts, stamped) && IsRecordingRun(cfg, s, steps, id, stamped)
    ensures IsTrace(cfg, s, steps) && id in Exec(cfg, s, steps).rows
    ensures Open(Exec(cfg, s, steps).rows[id]) && Exec(cfg, s, steps).rows[id].attempts == attempts
    decreases |steps|
  {
    if steps != [] {
      StuckStep(cfg, s, steps[0], id, attempts, stamped);
      StuckRun(cfg, Apply(cfg, s, steps[0]), steps[1..], id, attempts, Stamped(s, steps[0], id, stamped));
    }
  }

  /**
   If recordings stamp updated_at and every worker records a channel before it presents its lease,
   no run ever finishes the event or spends an attempt on it: it is retaken for ever.
   */
  lemma RecordedFirstIsNeverFinished(cfg: Config, s: State, steps: seq<Step>, id: Id)
    requires ValidConfig(cfg) && Reachable(cfg, s) && Known(s) && id in s.rows && Open(s.rows[id])
    requires (forall c :: c in s.calls ==> s.calls[c].id != id) && IsRecordingRun(cfg, s, steps, id, {})
    ensures IsTrace(cfg, s, steps) && id in Exec(cfg, s, steps).rows
    ensures Open(Exec(cfg, s, steps).rows[id]) && Exec(cfg, s, steps).rows[id].attempts == s.rows[id].attempts
  {
    ReachableInv(cfg, s);
    StuckRun(cfg, s, steps, id, s.rows[id].attempts, {});
  }

  /**
   An acknowledgement whose UPDATE waited writes an instant from before the row's last write. It
   brings a lease back to life that no longer matched if and only if the event is open and the
   instant is that lease.
   */
  lemma LateAcknowledgementRevivesIff(r: Row, h: History, at: Time)
    ensures (exists lease :: lease in h.tokens && !OutcomeMatches(r, Some(lease)) && OutcomeMatches(AcknowledgeRow(r, at), Some(lease)))
            <==> Open(r) && at in h.tokens && at != r.updatedAt
  {
    if Open(r) && at in h.tokens && at != r.updatedAt {
      assert OutcomeMatches(AcknowledgeRow(r, at), Some(at));
    }
  }
}
