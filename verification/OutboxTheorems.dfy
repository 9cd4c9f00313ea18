/**
 What the lease protocol guarantees to workers that present their lease, over
 every interleaving of any number of them.
 */
module OutboxTheorems {
  import opened Options
  import opened OutboxTable
  import opened OutboxProtocol

  /** The states reachable from an empty table by workers that present their leases. */
  ghost predicate Reachable(cfg: Config, s: State) {
    exists s0: State, steps: seq<Step> ::
      Initial(s0) && IsRun(cfg, s0, steps) && IsTrace(cfg, s0, steps) && s == Exec(cfg, s0, steps)
  }

  lemma ReachableInv(cfg: Config, s: State)
    requires ValidConfig(cfg) && Reachable(cfg, s)
    ensures Inv(cfg, s)
  {
    var s0: State, steps: seq<Step> :|
      Initial(s0) && IsRun(cfg, s0, steps) && IsTrace(cfg, s0, steps) && s == Exec(cfg, s0, steps);
    RunKeepsInv(cfg, s0, steps);
  }

  // ------------------------------------------------------------ claims

  /** The leases of one event strictly increase, so no two of its claims ever carry the same one. */
  lemma LeasesNeverRepeat(cfg: Config, s: State)
    requires ValidConfig(cfg) && Reachable(cfg, s)
    ensures forall id, i, j :: id in s.history && 0 <= i < j < |s.history[id].tokens| ==>
              s.history[id].tokens[i] < s.history[id].tokens[j]
  {
    ReachableInv(cfg, s);
    forall id, i, j | id in s.history && 0 <= i < j < |s.history[id].tokens|
      ensures s.history[id].tokens[i] < s.history[id].tokens[j]
    {
      assert Generations(s.history[id]);
    }
  }

  // ------------------------------------------------------------ outcomes

  /** A lease matches exactly while its claim is the row's open generation and nothing has stamped the row since. */
  lemma LeaseMatchesItsGenerationOnly(cfg: Config, s: State, id: Id, lease: Time)
    requires ValidConfig(cfg) && Reachable(cfg, s) && id in s.rows && id in s.history && lease in s.history[id].tokens
    ensures OutcomeMatches(s.rows[id], Some(lease)) <==>
              s.rows[id].status.Processing? && lease == Last(s.history[id].tokens) && s.rows[id].updatedAt == lease
    ensures OutcomeMatches(s.rows[id], Some(lease)) ==> |s.history[id].endings| == |s.history[id].tokens| - 1
  {
    ReachableInv(cfg, s);
    if OutcomeMatches(s.rows[id], Some(lease)) {
      LeaseIsLive(cfg, s.clock, s.rows[id], s.history[id], lease);
    }
  }

  /** The event and lease of an outcome step. */
  function OutcomeOf(s: State, step: Step): (Id, Option<Time>)
    requires step.MarkSuccess? || (step.WriteFailure? && step.call in s.calls)
  {
    if step.MarkSuccess? then (step.id, step.lease) else (s.calls[step.call].id, s.calls[step.call].lease)
  }

  lemma EndedIsNotLast(cfg: Config, s: State, id: Id, i: nat)
    requires ValidConfig(cfg) && Reachable(cfg, s) && id in s.rows && id in s.history
    requires i < |s.history[id].endings| && i < |s.history[id].tokens|
    ensures s.rows[id].status.Processing? ==> s.history[id].tokens[i] < Last(s.history[id].tokens)
  {
    ReachableInv(cfg, s);
  }

  /** A worker whose claim has ended, by an outcome, a takeover or a reconciliation, changes nothing. */
  lemma EndedClaimChangesNothing(cfg: Config, s: State, step: Step, i: nat)
    requires ValidConfig(cfg) && Reachable(cfg, s) && Known(s) && Enabled(cfg, s, step) && Guarded(s, step)
    requires step.MarkSuccess? || step.WriteFailure?
    requires var (id, lease) := OutcomeOf(s, step);
      id in s.history && i < |s.history[id].endings| && i < |s.history[id].tokens| && lease == Some(s.history[id].tokens[i])
    ensures Apply(cfg, s, step).rows == s.rows && Apply(cfg, s, step).history == s.history
  {
    var (id, lease) := OutcomeOf(s, step);
    if id in s.rows && OutcomeMatches(s.rows[id], lease) {
      LeaseMatchesItsGenerationOnly(cfg, s, id, lease.value);
      EndedIsNotLast(cfg, s, id, i);
      assert false;
    }
  }

  lemma EffectiveOutcomeMatches(cfg: Config, s: State, step: Step)
    requires Known(s) && Enabled(cfg, s, step) && (step.MarkSuccess? || step.WriteFailure?)
    requires Apply(cfg, s, step).rows != s.rows
    ensures var (id, lease) := OutcomeOf(s, step);
      id in s.rows && OutcomeMatches(s.rows[id], lease)
  {
  }

  lemma MatchingOutcomeIsCurrent(cfg: Config, s: State, step: Step)
    requires ValidConfig(cfg) && Reachable(cfg, s) && Known(s) && Enabled(cfg, s, step) && Guarded(s, step)
    requires step.MarkSuccess? || step.WriteFailure?
    requires var (id, lease) := OutcomeOf(s, step);
      id in s.rows && OutcomeMatches(s.rows[id], lease)
    ensures var (id, lease) := OutcomeOf(s, step);
      var h := s.history[id];
      && h.tokens != [] && lease == Some(Last(h.tokens)) && h.current == Some(|h.tokens| - 1)
      && (step.WriteFailure? ==> s.calls[step.call].attempts == s.rows[id].attempts)
  {
    ReachableInv(cfg, s);
    var (id, lease) := OutcomeOf(s, step);
    if step.WriteFailure? {
      assert ReadInv(s, s.calls[step.call]);
    }
    LeaseIsLive(cfg, s.clock, s.rows[id], s.history[id], lease.value);
  }

  lemma OutcomeEffect(cfg: Config, s: State, step: Step)
    requires Known(s) && Enabled(cfg, s, step) && (step.MarkSuccess? || step.WriteFailure?)
    requires var (id, lease) := OutcomeOf(s, step);
      && id in s.rows && OutcomeMatches(s.rows[id], lease)
      && (step.WriteFailure? ==> s.calls[step.call].attempts == s.rows[id].attempts)
    ensures var (id, lease) := OutcomeOf(s, step);
      var t := Apply(cfg, s, step);
      && id in t.rows && t.rows == s.rows[id := t.rows[id]]
      && t.history[id].tokens == s.history[id].tokens
      && t.history[id].endings == s.history[id].endings +
           [Ending(s.history[id].current, if step.MarkSuccess? then Delivered else Rejected, lease)]
      && t.rows[id].attempts == s.rows[id].attempts + (if step.MarkSuccess? then 0 else 1)
  {
  }

  /**
   An outcome that does take effect ends the open generation, which is the one it was claimed
   under, and a failure adds exactly one attempt to the attempts the row has now, although it
   counts from what it read before.
   */
  lemma EffectiveOutcomeEndsItsClaim(cfg: Config, s: State, step: Step)
    requires ValidConfig(cfg) && Reachable(cfg, s) && Known(s) && Enabled(cfg, s, step) && Guarded(s, step)
    requires step.MarkSuccess? || step.WriteFailure?
    requires Apply(cfg, s, step).rows != s.rows
    ensures var (id, lease) := OutcomeOf(s, step);
      var t := Apply(cfg, s, step);
      && id in s.rows && id in t.rows && s.history[id].tokens != [] && lease == Some(Last(s.history[id].tokens))
      && t.history[id].tokens == s.history[id].tokens
      && t.history[id].endings == s.history[id].endings +
           [Ending(Some(|s.history[id].tokens| - 1), if step.MarkSuccess? then Delivered else Rejected, lease)]
      && t.rows[id].attempts == s.rows[id].attempts + (if step.MarkSuccess? then 0 else 1)
      && t.rows == s.rows[id := t.rows[id]]
  {
    EffectiveOutcomeMatches(cfg, s, step);
    MatchingOutcomeIsCurrent(cfg, s, step);
    OutcomeEffect(cfg, s, step);
  }

  /** Each claim has at most one ending, and an outcome ending is by the lease of that claim. */
  lemma OneEndingPerClaim(cfg: Config, s: State, id: Id, i: nat, j: nat)
    requires ValidConfig(cfg) && Reachable(cfg, s) && id in s.history && i < j < |s.history[id].endings|
    ensures s.history[id].endings[i].claim.Some? && s.history[id].endings[i].claim != s.history[id].endings[j].claim
    ensures var h, e := s.history[id], s.history[id].endings[i];
      e.claim.value < |h.tokens| && (e.cause.Delivered? || e.cause.Rejected? ==> e.presented == Some(h.tokens[e.claim.value]))
  {
    ReachableInv(cfg, s);
    assert Generations(s.history[id]);
  }

  // ------------------------------------------------------------ accounting

  lemma {:induction false} CausesPartition(endings: seq<Ending>)
    ensures |endings| == Count(endings, Delivered) + Count(endings, Rejected) + Count(endings, TakenOver) + Count(endings, Requeued)
  {
    if endings != [] {
      CausesPartition(endings[..|endings| - 1]);
    }
  }

  /**
   Every claim is accounted for; attempts count exactly the effective failures, so a takeover
   or a reconciliation costs none; an event still in play has an attempt left.
   */
  lemma Accounting(cfg: Config, s: State, id: Id)
    requires ValidConfig(cfg) && Reachable(cfg, s) && id in s.rows && id in s.history
    ensures var h := s.history[id];
      |h.tokens| == Count(h.endings, Delivered) + Count(h.endings, Rejected) + Count(h.endings, TakenOver)
                    + Count(h.endings, Requeued) + (if s.rows[id].status.Processing? then 1 else 0)
    ensures s.rows[id].attempts == Count(s.history[id].endings, Rejected)
    ensures Open(s.rows[id]) ==> s.rows[id].attempts < s.rows[id].maxAttempts
  {
    ReachableInv(cfg, s);
    CausesPartition(s.history[id].endings);
  }

  // ------------------------------------------------------------ no event is lost

  /** An event that is gone from the table was delivered or rejected before it was pruned. */
  lemma NoEventIsLost(cfg: Config, s: State, id: Id)
    requires ValidConfig(cfg) && Reachable(cfg, s) && id in s.history
    ensures id in s.rows ||
      (s.history[id].endings != [] && (Last(s.history[id].endings).cause.Delivered? || Last(s.history[id].endings).cause.Rejected?))
  {
    ReachableInv(cfg, s);
    if id !in s.rows {
      assert GoneInv(cfg, s.clock, s.history[id]);
    }
  }
}
