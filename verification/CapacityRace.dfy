/**
 N booking transactions race for the free slots of one requirement row. Each
 reads the row, checks the capacity it read, increments the counter (taking the
 row lock until it ends), inserts its booking and commits, in any interleaving.
 The increment works on the last committed value and the CHECK constraint
 worker_count_filled <= worker_count_needed is tested on it.
 */
module CapacityRace {
  import opened Options
  import opened Numbers

  type Txn = nat

  datatype Phase = Started | Checked | Incremented | Booked | Committed | Rejected | Aborted

  /** `constrained` says whether the CHECK constraint is in place. */
  datatype Race = Race(constrained: bool, needed: nat, filled: nat, lock: Option<Txn>, phases: map<Txn, Phase>, bookings: set<Txn>)

  datatype Step = Read(txn: Txn) | Increment(txn: Txn) | Book(txn: Txn) | Commit(txn: Txn) | Abort(txn: Txn)

  predicate Enabled(s: Race, step: Step) {
    step.txn in s.phases &&
    match step
    case Read(t) => s.phases[t].Started?
    case Increment(t) => s.phases[t].Checked? && s.lock.None?
    case Book(t) => s.phases[t].Incremented?
    case Commit(t) => s.phases[t].Booked?
    case Abort(t) => !Ended(s.phases[t])
  }

  predicate Ended(p: Phase) {
    p.Committed? || p.Rejected? || p.Aborted?
  }

  function Move(s: Race, t: Txn, p: Phase): Race {
    s.(phases := s.phases[t := p])
  }

  function Apply(s: Race, step: Step): Race
    requires Enabled(s, step)
  {
    match step
    case Read(t) => Move(s, t, if s.filled >= s.needed then Rejected else Checked)
    case Increment(t) =>
      if s.constrained && s.filled + 1 > s.needed then Move(s, t, Rejected)
      else Move(s, t, Incremented).(lock := Some(t))
    case Book(t) => Move(s, t, Booked)
    case Commit(t) => Move(s, t, Committed).(filled := s.filled + 1, lock := None, bookings := s.bookings + {t})
    case Abort(t) => Move(s, t, Aborted).(lock := if s.lock == Some(t) then None else s.lock)
  }

  predicate IsTrace(s: Race, steps: seq<Step>)
    decreases |steps|
  {
    steps == [] || (Enabled(s, steps[0]) && IsTrace(Apply(s, steps[0]), steps[1..]))
  }

  function Exec(s: Race, steps: seq<Step>): Race
    requires IsTrace(s, steps)
    decreases |steps|
  {
    if steps == [] then s else Exec(Apply(s, steps[0]), steps[1..])
  }

  predicate Initial(s: Race) {
    s.filled <= s.needed && s.lock.None? && s.bookings == {} && forall t :: t in s.phases ==> s.phases[t].Started?
  }

  /** `initial` is the filled count before the race. */
  ghost predicate Inv(s: Race, initial: nat) {
    && (forall t :: t in s.phases ==> (s.lock == Some(t) <==> s.phases[t].Incremented? || s.phases[t].Booked?))
    && (s.lock.Some? ==> s.lock.value in s.phases)
    && (forall t :: t in s.bookings <==> t in s.phases && s.phases[t].Committed?)
    && s.filled == initial + |s.bookings|
    && (s.constrained ==>
          && s.filled <= s.needed
          && (s.lock.Some? ==> s.filled < s.needed)
          && forall t :: t in s.phases && s.phases[t].Rejected? ==> s.filled == s.needed)
  }

  lemma StepKeepsInv(s: Race, step: Step, initial: nat)
    requires Inv(s, initial) && Enabled(s, step)
    ensures Inv(Apply(s, step), initial)
    ensures Apply(s, step).needed == s.needed && Apply(s, step).constrained == s.constrained
    ensures Apply(s, step).phases.Keys == s.phases.Keys
  {
  }

  lemma {:induction false} RunKeepsInv(s: Race, steps: seq<Step>, initial: nat)
    requires Inv(s, initial) && IsTrace(s, steps)
    ensures var t := Exec(s, steps);
      Inv(t, initial) && t.needed == s.needed && t.constrained == s.constrained && t.phases.Keys == s.phases.Keys
    decreases |steps|
  {
    if steps != [] {
      StepKeepsInv(s, steps[0], initial);
      RunKeepsInv(Apply(s, steps[0]), steps[1..], initial);
    }
  }

  /** At every moment of every interleaving the committed count is the committed bookings and never above capacity. */
  lemma NeverOverbooked(s: Race, steps: seq<Step>)
    requires Initial(s) && s.constrained && IsTrace(s, steps)
    ensures var t := Exec(s, steps);
      t.filled == s.filled + |t.bookings| && t.filled <= s.needed && t.bookings <= s.phases.Keys
  {
    RunKeepsInv(s, steps, s.filled);
  }

  /** Once all have ended, none for an unrelated reason, exactly min(N, free slots) have succeeded. */
  lemma ExactlyTheFreeSlotsAreTaken(s: Race, steps: seq<Step>)
    requires Initial(s) && s.constrained && IsTrace(s, steps)
    requires forall t :: t in Exec(s, steps).phases ==> Exec(s, steps).phases[t].Committed? || Exec(s, steps).phases[t].Rejected?
    ensures |Exec(s, steps).bookings| == Min(|s.phases|, s.needed - s.filled)
  {
    RunKeepsInv(s, steps, s.filled);
    var e := Exec(s, steps);
    assert e.bookings <= e.phases.Keys;
    assert |e.phases.Keys - e.bookings| == |e.phases.Keys| - |e.bookings|;
    assert |s.phases| == |s.phases.Keys|;
    if e.bookings != e.phases.Keys {
      var t :| t in e.phases.Keys - e.bookings;
      assert e.phases[t].Rejected?;
    }
  }

  /** The gate's own check: 20 contenders for one slot give one success, 19 rejections and one booking row. */
  lemma GateSixPasses(s: Race, steps: seq<Step>)
    requires Initial(s) && s.constrained && s.needed == 1 && s.filled == 0 && |s.phases| == 20 && IsTrace(s, steps)
    requires forall t :: t in Exec(s, steps).phases ==> Exec(s, steps).phases[t].Committed? || Exec(s, steps).phases[t].Rejected?
    ensures |Exec(s, steps).bookings| == 1
    ensures |set t | t in Exec(s, steps).phases && Exec(s, steps).phases[t].Rejected?| == 19
  {
    ExactlyTheFreeSlotsAreTaken(s, steps);
    RunKeepsInv(s, steps, 0);
    var e := Exec(s, steps);
    var rejected := set t | t in e.phases && e.phases[t].Rejected?;
    assert rejected == e.phases.Keys - e.bookings;
    assert |e.phases.Keys - e.bookings| == |e.phases.Keys| - |e.bookings|;
  }

  lemma Prepend(s: Race, step: Step, rest: seq<Step>)
    requires Enabled(s, step) && IsTrace(Apply(s, step), rest)
    ensures IsTrace(s, [step] + rest) && Exec(s, [step] + rest) == Exec(Apply(s, step), rest)
  {
    assert ([step] + rest)[1..] == rest;
  }

  /** The capacity check alone does not suffice: two stale reads overbook a row that has no CHECK constraint. */
  lemma ConstraintIsNeeded() returns (s: Race, steps: seq<Step>)
    ensures Initial(s) && !s.constrained && IsTrace(s, steps) && Exec(s, steps).filled > s.needed
  {
    s := Race(false, 1, 0, None, map[1 := Started, 2 := Started], {});
    var s1 := Apply(s, Read(1));
    var s2 := Apply(s1, Read(2));
    var s3 := Apply(s2, Increment(1));
    var s4 := Apply(s3, Book(1));
    var s5 := Apply(s4, Commit(1));
    var s6 := Apply(s5, Increment(2));
    var s7 := Apply(s6, Book(2));
    Prepend(s7, Commit(2), []);
    var r := [Commit(2)] + [];
    Prepend(s6, Book(2), r);
    r := [Book(2)] + r;
    Prepend(s5, Increment(2), r);
    r := [Increment(2)] + r;
    Prepend(s4, Commit(1), r);
    r := [Commit(1)] + r;
    Prepend(s3, Book(1), r);
    r := [Book(1)] + r;
    Prepend(s2, Increment(1), r);
    r := [Increment(1)] + r;
    Prepend(s1, Read(2), r);
    r := [Read(2)] + r;
    Prepend(s, Read(1), r);
    steps := [Read(1)] + r;
  }

  /** The row, its lock and the bookings, as the statements of the transactions change them. */
  class Requirement {
    const needed: nat
    var filled: nat
    var lock: Option<Txn>
    var phases: map<Txn, Phase>
    var bookings: set<Txn>

    constructor (needed: nat, filled: nat, txns: set<Txn>)
      requires filled <= needed
      ensures Initial(View()) && this.needed == needed && this.filled == filled && phases.Keys == txns
    {
      this.needed := needed;
      this.filled := filled;
      lock := None;
      phases := map t | t in txns :: Started;
      bookings := {};
    }

    ghost function View(): Race
      reads this
    {
      Race(true, needed, filled, lock, phases, bookings)
    }

    /** findUnique and the capacity check. */
    method CheckCapacity(t: Txn)
      requires Enabled(View(), Read(t))
      modifies this
      ensures View() == Apply(old(View()), Read(t))
      ensures phases[t] == (if old(filled) < needed then Checked else Rejected) && filled == old(filled) && bookings == old(bookings)
    {
      if filled >= needed {
        phases := phases[t := Rejected];
      } else {
        phases := phases[t := Checked];
      }
    }

    /** update with increment: 1; a violated constraint rolls the transaction back. */
    method IncrementFilled(t: Txn)
      requires Enabled(View(), Increment(t))
      modifies this
      ensures View() == Apply(old(View()), Increment(t))
      ensures phases[t] == (if old(filled) < needed then Incremented else Rejected) && lock == (if old(filled) < needed then Some(t) else None)
    {
      if filled + 1 > needed {
        phases := phases[t := Rejected];
      } else {
        phases := phases[t := Incremented];
        lock := Some(t);
      }
    }

    method CreateBooking(t: Txn)
      requires Enabled(View(), Book(t))
      modifies this
      ensures View() == Apply(old(View()), Book(t))
    {
      phases := phases[t := Booked];
    }

    method CommitTransaction(t: Txn)
      requires Enabled(View(), Commit(t))
      modifies this
      ensures View() == Apply(old(View()), Commit(t))
      ensures filled == old(filled) + 1 && bookings == old(bookings) + {t} && lock.None? && phases[t].Committed?
    {
      filled := filled + 1;
      bookings := bookings + {t};
      lock := None;
      phases := phases[t := Committed];
    }

    method AbortTransaction(t: Txn)
      requires Enabled(View(), Abort(t))
      modifies this
      ensures View() == Apply(old(View()), Abort(t))
      ensures filled == old(filled) && bookings == old(bookings) && lock != Some(t) && phases[t].Aborted?
    {
      phases := phases[t := Aborted];
      if lock == Some(t) {
        lock := None;
      }
    }
  }
}
