/**
 Outcome calls without expectedClaimedAt, as the delivery loop makes them: what
 they still cannot do, exactly when they do no harm, and what they can lose.
 */
module OutboxUnguarded {
  import opened Options
  import opened OutboxTable
  import opened OutboxProtocol
  import opened OutboxTraces

  // ------------------------------------------------------------ attempts

  /**
   In every interleaving no failure is counted twice, and every effective failure is counted if
   and only if none of them took effect after another one had since it read the row.
   */
  lemma AttemptsAreExactIff(cfg: Config, s: State, id: Id)
    requires ValidConfig(cfg) && Reachable(cfg, s) && id in s.rows && id in s.history
    ensures s.rows[id].attempts <= Failures(s.history[id])
    ensures s.rows[id].attempts == Failures(s.history[id]) <==> s.history[id].overlapping == 0
  {
    ReachableIsSafe(cfg, s);
    assert SafeRow(s.clock, s.rows[id], s.history[id]);
  }

  /** The failure call finds its row open and under the lease it shows, if it shows one. */
  predicate TakesEffect(s: State, f: FailureRead) {
    f.id in s.rows && OutcomeMatches(s.rows[f.id], f.lease)
  }

  lemma WriteEffect(cfg: Config, s: State, step: Step)
    requires Known(s) && step.WriteFailure? && Enabled(cfg, s, step) && TakesEffect(s, s.calls[step.call])
    ensures var f, t := s.calls[step.call], Apply(cfg, s, step);
      && f.id in t.rows && t.rows[f.id].attempts == f.attempts + 1
      && t.history[f.id] == EndByFailure(s.history[f.id], f, step.at)
  {
  }

  /**
   A failure that does not overlap another adds exactly one attempt; one that does leaves the event
   with fewer attempts than failures, for good. As long as none has been lost, adding exactly
   one and not overlapping are the same.
   */
  lemma FailureAddsOneIff(cfg: Config, s: State, step: Step)
    requires ValidConfig(cfg) && Reachable(cfg, s) && Known(s)
    requires step.WriteFailure? && Enabled(cfg, s, step) && TakesEffect(s, s.calls[step.call])
    ensures var f, t := s.calls[step.call], Apply(cfg, s, step);
      var h := s.history[f.id];
      && f.id in t.rows
      && (!Overlaps(h, f) ==> t.rows[f.id].attempts == s.rows[f.id].attempts + 1)
      && (Overlaps(h, f) ==> t.rows[f.id].attempts < Failures(t.history[f.id]))
      && (h.overlapping == 0 ==> (t.rows[f.id].attempts == s.rows[f.id].attempts + 1 <==> !Overlaps(h, f)))
  {
    ReachableIsSafe(cfg, s);
    var f := s.calls[step.call];
    assert SafeCall(s, f);
    assert SafeRow(s.clock, s.rows[f.id], s.history[f.id]);
    WriteEffect(cfg, s, step);
    EndCounts(s.history[f.id], Rejected, f.lease);
  }

  // ------------------------------------------------------------ claims

  /** An outcome call without a lease, on this event. */
  predicate WithoutLease(s: State, step: Step, id: Id) {
    || step == MarkSuccess(id, None)
    || (step.WriteFailure? && step.call in s.calls && s.calls[step.call].id == id && s.calls[step.call].lease.None?)
  }

  /** The step ended no more than claim `i` of the event. */
  predicate EndsAtMost(before: History, after: History, i: nat) {
    after.endings == before.endings || (|after.endings| == |before.endings| + 1 && Last(after.endings).claim == Some(i))
  }

  /** The step ended another claim than `i` of the event. */
  predicate EndsAnother(before: History, after: History, i: nat) {
    |after.endings| == |before.endings| + 1 && Last(after.endings).claim.Some? && Last(after.endings).claim != Some(i)
  }

  lemma UnguardedEffect(cfg: Config, s: State, step: Step, id: Id)
    requires Known(s) && Enabled(cfg, s, step) && WithoutLease(s, step, id) && id in s.history
    ensures var t := Apply(cfg, s, step);
      && id in t.history
      && (id in s.rows && Open(s.rows[id]) ==>
            |t.history[id].endings| == |s.history[id].endings| + 1 && Last(t.history[id].endings).claim == s.history[id].current)
      && (!(id in s.rows && Open(s.rows[id])) ==> t.history[id].endings == s.history[id].endings)
  {
  }

  /**
   An outcome by the worker of claim `i` that shows no lease ends nothing but that claim if and
   only if the event is finished already or that claim is still the open one; it ends somebody
   else's claim if and only if the row is PROCESSING under a later one.
   */
  lemma EndsOnlyItsClaimIff(cfg: Config, s: State, step: Step, id: Id, i: nat)
    requires ValidConfig(cfg) && Reachable(cfg, s) && Known(s) && Enabled(cfg, s, step) && WithoutLease(s, step, id)
    requires id in s.history && i < |s.history[id].tokens|
    ensures var h, t := s.history[id], Apply(cfg, s, step);
      && id in t.history
      && (EndsAtMost(h, t.history[id], i) <==> !(id in s.rows && Open(s.rows[id])) || h.current == Some(i))
      && (EndsAnother(h, t.history[id], i) <==> id in s.rows && s.rows[id].status.Processing? && i < |h.tokens| - 1)
  {
    ReachableIsSafe(cfg, s);
    UnguardedEffect(cfg, s, step, id);
    if id in s.rows {
      assert SafeRow(s.clock, s.rows[id], s.history[id]);
    }
  }

  /** `steps` is a trace from `s` to `t`. */
  predicate Reaches(cfg: Config, s: State, steps: seq<Step>, t: State) {
    Known(s) && IsTrace(cfg, s, steps) && Exec(cfg, s, steps) == t
  }

  predicate Follows(cfg: Config, s: State, step: Step, t: State) {
    Known(s) && Enabled(cfg, s, step) && Apply(cfg, s, step) == t
  }

  lemma {:induction false} Extend(cfg: Config, s: State, steps: seq<Step>, t: State, step: Step, u: State)
    requires Reaches(cfg, s, steps, t) && Follows(cfg, t, step, u)
    ensures Reaches(cfg, s, steps + [step], u)
    decreases |steps|
  {
    var all := steps + [step];
    if steps == [] {
      assert all[1..] == [];
      assert Reaches(cfg, u, [], u);
    } else {
      Extend(cfg, Apply(cfg, s, steps[0]), steps[1..], t, step, u);
      assert all[1..] == steps[1..] + [step];
    }
  }

  const EXAMPLE := Config(300_000, 15_000, 0, 0, 0)
  const EMPTY := State(0, map[], map[], map[], map[], map[])

  /** Event 0, inserted at time 0, with its past and the calls that have read it. */
  function Only(clock: Time, r: Row, h: History, calls: map<Call, FailureRead>): State {
    State(clock, map[0 := r], map[0 := h], map[], map[], calls)
  }

  const ROW := NewRow("k", 0)
  const FRESH := NewHistory("k", 0)
  const HELD := FRESH.(tokens := [0], current := Some(0))

  lemma LockFollows(s: State, w: Worker, now: Time)
    requires s.rows.Keys == {0} && Known(s) && s.locks == map[] && s.batches == map[] && s.clock == now
    requires Claimable(s.rows[0], now, now - EXAMPLE.stale)
    ensures Follows(EXAMPLE, s, LockBatch(w, now, now, 1, {0}), s.(locks := map[0 := w], batches := map[w := Batch(now, {0})]))
  {
  }

  lemma CommitFollows(s: State, w: Worker, now: Time, t: State)
    requires s.rows.Keys == s.history.Keys == {0} && s.locks == map[0 := w] && s.batches == map[w := Batch(now, {0})]
    requires t == State(s.clock, map[0 := ClaimRow(s.rows[0], now)], map[0 := Begin(s.rows[0], s.history[0], now)], map[], map[], s.calls)
    ensures Follows(EXAMPLE, s, CommitBatch(w), t)
  {
    var u := Apply(EXAMPLE, s, CommitBatch(w));
    assert u.rows == t.rows;
    assert u.history == t.history;
    assert u.locks == t.locks && u.batches == t.batches;
  }

  /** A claim of event 0 by a worker that nobody competes with. */
  lemma ClaimHappens(s0: State, steps: seq<Step>, s: State, w: Worker) returns (longer: seq<Step>, t: State)
    requires Reaches(EXAMPLE, s0, steps, s) && s.rows.Keys == s.history.Keys == {0} && s.locks == map[] && s.batches == map[]
    requires Claimable(s.rows[0], s.clock, s.clock - EXAMPLE.stale)
    ensures Reaches(EXAMPLE, s0, longer, t)
    ensures t == State(s.clock, map[0 := ClaimRow(s.rows[0], s.clock)], map[0 := Begin(s.rows[0], s.history[0], s.clock)], map[], map[], s.calls)
  {
    var locked := s.(locks := map[0 := w], batches := map[w := Batch(s.clock, {0})]);
    LockFollows(s, w, s.clock);
    Extend(EXAMPLE, s0, steps, s, LockBatch(w, s.clock, s.clock, 1, {0}), locked);
    t := State(s.clock, map[0 := ClaimRow(s.rows[0], s.clock)], map[0 := Begin(s.rows[0], s.history[0], s.clock)], map[], map[], s.calls);
    CommitFollows(locked, w, s.clock, t);
    longer := steps + [LockBatch(w, s.clock, s.clock, 1, {0})] + [CommitBatch(w)];
    Extend(EXAMPLE, s0, steps + [LockBatch(w, s.clock, s.clock, 1, {0})], locked, CommitBatch(w), t);
  }

  lemma InsertHappens() returns (steps: seq<Step>)
    ensures Reaches(EXAMPLE, EMPTY, steps, Only(0, ROW, FRESH, map[]))
  {
    assert Reaches(EXAMPLE, EMPTY, [], EMPTY);
    assert Follows(EXAMPLE, EMPTY, Insert(0, "k"), Only(0, ROW, FRESH, map[]));
    Extend(EXAMPLE, EMPTY, [], EMPTY, Insert(0, "k"), Only(0, ROW, FRESH, map[]));
    steps := [] + [Insert(0, "k")];
  }

  /** Event 0 inserted and claimed at time 0, and the clock moved to `now`. */
  lemma FirstClaimHappens(now: Time) returns (steps: seq<Step>)
    requires now >= 0
    ensures Reaches(EXAMPLE, EMPTY, steps, Only(now, ClaimRow(ROW, 0), HELD, map[]))
  {
    var inserted := InsertHappens();
    var claimed, s := ClaimHappens(EMPTY, inserted, Only(0, ROW, FRESH, map[]), 1);
    assert s.history[0].tokens == [0];
    assert s == Only(0, ClaimRow(ROW, 0), HELD, map[]);
    Extend(EXAMPLE, EMPTY, claimed, s, Tick(now), s.(clock := now));
    steps := claimed + [Tick(now)];
  }

  /** Event 0 is alone in the table, open and not locked. */
  predicate Solo(s: State) {
    && s.rows.Keys == s.history.Keys == {0} && s.locks == map[] && Open(s.rows[0])
    && s.rows[0].maxAttempts == DEFAULT_MAX_ATTEMPTS
  }

  /** What a failure call without the lease reads now. */
  function ReadNow(s: State): FailureRead
    requires Solo(s)
  {
    FailureRead(0, None, s.rows[0].attempts, DEFAULT_MAX_ATTEMPTS, false, s.clock, Failures(s.history[0]))
  }

  lemma ReadHappens(steps: seq<Step>, s: State, call: Call) returns (longer: seq<Step>, t: State)
    requires Reaches(EXAMPLE, EMPTY, steps, s) && Solo(s) && call !in s.calls
    ensures Reaches(EXAMPLE, EMPTY, longer, t) && Solo(t) && t == s.(calls := s.calls[call := ReadNow(s)])
  {
    t := s.(calls := s.calls[call := ReadNow(s)]);
    assert Follows(EXAMPLE, s, ReadFailure(call, 0, None, false), t);
    Extend(EXAMPLE, EMPTY, steps, s, ReadFailure(call, 0, None, false), t);
    longer := steps + [ReadFailure(call, 0, None, false)];
  }

  lemma WriteFollows(s: State, call: Call) returns (t: State)
    requires Solo(s) && call in s.calls
    requires var f := s.calls[call];
      f.id == 0 && f.lease.None? && !f.permanent && f.attempts + 1 < f.maxAttempts && f.at <= s.clock
    ensures Known(s) && Follows(EXAMPLE, s, WriteFailure(call, "e", s.clock), t)
    ensures Solo(t) && t.clock == s.clock && t.calls == s.calls - {call}
    ensures t.rows[0].attempts == s.calls[call].attempts + 1 && Failures(t.history[0]) == Failures(s.history[0]) + 1
  {
    var f := s.calls[call];
    EndCounts(s.history[0], Rejected, f.lease);
    t := Put(s.(calls := s.calls - {call}), 0, FailRow(s.rows[0], f.attempts, f.maxAttempts, f.permanent, "e", s.clock), EndByFailure(s.history[0], f, s.clock));
  }

  lemma WriteHappens(steps: seq<Step>, s: State, call: Call) returns (longer: seq<Step>, t: State)
    requires Reaches(EXAMPLE, EMPTY, steps, s) && Solo(s) && call in s.calls
    requires var f := s.calls[call];
      f.id == 0 && f.lease.None? && !f.permanent && f.attempts + 1 < f.maxAttempts && f.at <= s.clock
    ensures Reaches(EXAMPLE, EMPTY, longer, t)
    ensures Solo(t) && t.clock == s.clock && t.calls == s.calls - {call}
    ensures t.rows[0].attempts == s.calls[call].attempts + 1 && Failures(t.history[0]) == Failures(s.history[0]) + 1
  {
    t := WriteFollows(s, call);
    Extend(EXAMPLE, EMPTY, steps, s, WriteFailure(call, "e", s.clock), t);
    longer := steps + [WriteFailure(call, "e", s.clock)];
  }

  /** Event 0 claimed once, and failure calls 1 and 2 that have both read it. */
  lemma TwoReadsHappen() returns (steps: seq<Step>, s: State)
    ensures Reaches(EXAMPLE, EMPTY, steps, s) && Solo(s) && s.rows[0].attempts == 0 && Failures(s.history[0]) == 0
    ensures s.calls.Keys == {1, 2} && s.calls[1] == s.calls[2] == ReadNow(s)
  {
    steps := FirstClaimHappens(1);
    s := Only(1, ClaimRow(ROW, 0), HELD, map[]);
    steps, s := ReadHappens(steps, s, 1);
    steps, s := ReadHappens(steps, s, 2);
  }

  /** Two failure calls without the lease both take effect and the event has spent only one attempt. */
  lemma UnguardedFailuresLoseAnAttempt() returns (steps: seq<Step>, t: State)
    ensures Reaches(EXAMPLE, EMPTY, steps, t)
    ensures 0 in t.rows && 0 in t.history && t.rows[0].attempts == 1 && Failures(t.history[0]) == 2
  {
    steps, t := TwoReadsHappen();
    steps, t := WriteHappens(steps, t, 1);
    steps, t := WriteHappens(steps, t, 2);
  }

  /** Once an attempt has been lost, a failure that overlaps another may still add exactly one. */
  lemma OverlappingFailureCanAddOne() returns (steps: seq<Step>, s: State, t: State)
    ensures Reaches(EXAMPLE, EMPTY, steps, s) && Follows(EXAMPLE, s, WriteFailure(3, "e", s.clock), t)
    ensures 3 in s.calls && 0 in s.history && Overlaps(s.history[0], s.calls[3])
    ensures 0 in s.rows && 0 in t.rows && t.rows[0].attempts == s.rows[0].attempts + 1
  {
    steps, s := TwoReadsHappen();
    steps, s := WriteHappens(steps, s, 2);
    steps, s := ReadHappens(steps, s, 3);
    steps, s := WriteHappens(steps, s, 1);
    t := WriteFollows(s, 3);
  }

  lemma TakeoverRecorded(r: Row, h: History, now: Time)
    requires r.status.Processing? && h == HELD
    ensures Begin(r, h, now) == h.(tokens := [0, now], current := Some(1), endings := [Ending(Some(0), TakenOver, None)])
  {
    assert h.tokens + [now] == [0, now];
  }

  /** A worker that lost its row to a takeover ends the new claimer's generation when it shows no lease. */
  lemma UnguardedWorkerEndsAnotherClaim() returns (steps: seq<Step>, t: State)
    ensures Reaches(EXAMPLE, EMPTY, steps, t)
    ensures 0 in t.rows && 0 in t.history && t.rows[0].status.Sent?
    ensures t.history[0].endings == [Ending(Some(0), TakenOver, None), Ending(Some(1), Delivered, None)]
  {
    steps := FirstClaimHappens(300_000);
    var s := Only(300_000, ClaimRow(ROW, 0), HELD, map[]);
    TakeoverRecorded(s.rows[0], s.history[0], 300_000);
    steps, s := ClaimHappens(EMPTY, steps, s, 2);
    t := Put(s, 0, SucceedRow(s.rows[0], s.clock), End(s.history[0], Delivered, None));
    assert Follows(EXAMPLE, s, MarkSuccess(0, None), t);
    Extend(EXAMPLE, EMPTY, steps, s, MarkSuccess(0, None), t);
    steps := steps + [MarkSuccess(0, None)];
  }
}
