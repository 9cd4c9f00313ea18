/** Runs in which reconciliation reports, or does, what it should not. */
module PaymentRuns {
  import opened Options
  import opened PaymentReconciliation

  predicate Reaches(s: State, steps: seq<Step>, t: State) {
    IsTrace(s, steps) && Exec(s, steps) == t
  }

  lemma {:induction false} Extend(s: State, steps: seq<Step>, t: State, step: Step)
    requires Reaches(s, steps, t) && Enabled(t, step)
    ensures Reaches(s, steps + [step], Apply(t, step))
    decreases |steps|
  {
    var all := steps + [step];
    if steps == [] {
      assert all[1..] == [];
      assert IsTrace(Apply(s, step), []) && Exec(Apply(s, step), []) == Apply(s, step);
    } else {
      Extend(Apply(s, steps[0]), steps[1..], t, step);
      assert all[1..] == steps[1..] + [step];
    }
  }

  /** One worker, and one stale payment of 100 under order "a". */
  function OneStale(): State {
    State(map[1 := Payment(Pending, "a", Some(100), "INR", None, 0)], map[1 := Life(1, 0, 0, 0, 0)], {"a"}, multiset{}, [Worker([], ZERO)],
          NOTHING_YET)
  }

  /** The worker has selected the payment. */
  lemma Selection() returns (s: State, steps: seq<Step>, t: State)
    ensures Initial(s) && Reaches(s, steps, t)
    ensures s == OneStale() && t == s.(workers := [Worker([Item(1, s.rows[1], 0)], ZERO.(totalEvaluated := 1))])
  {
    s := OneStale();
    var select := Select(0, 1, [1]);
    assert Reaches(s, [], s);
    assert Items(s, [1]) == [Item(1, s.rows[1], 0)];
    Extend(s, [], s, select);
    steps := [] + [select];
    t := Apply(s, select);
  }

  const PAID := Replied(Order(Paid, 100, "INR", 1))

  lemma OneTally(ws: seq<Worker>, field: nat)
    requires |ws| == 1
    ensures Sum(ws, field) == Field(ws[0].tally, field)
  {
    assert ws[1..] == [];
  }

  /** The payment fails, is retried for 200, and is not yet with the provider when the worker's turn comes. */
  lemma RetryHappens(s: State, steps: seq<Step>, t: State) returns (longer: seq<Step>, u: State)
    requires Reaches(s, steps, t) && 1 in t.rows && t.rows[1] == Payment(Pending, "a", Some(100), "INR", None, 0) && t.claimants == multiset{}
    requires t.lives == map[1 := Life(1, 0, 0, 0, 0)]
    ensures Reaches(s, longer, u) && u.workers == t.workers && u.audit == t.audit && u.orders == t.orders
    ensures 1 in u.rows && u.rows[1] == Payment(Pending, "", Some(200), "INR", None, 0)
    ensures 1 in u.claimants && LifeOf(u, 1) == Life(1, 1, 0, 1, 1)
  {
    Extend(s, steps, t, Webhook(1, Failed));
    var failed := Apply(t, Webhook(1, Failed));
    Extend(s, steps + [Webhook(1, Failed)], failed, Retry(1, 200, "INR"));
    longer := steps + [Webhook(1, Failed)] + [Retry(1, 200, "INR")];
    u := Apply(failed, Retry(1, 200, "INR"));
  }

  /**
   A worker with an old snapshot completes a payment that has been retried, for 200, on the paid order
   of 100; then the retry's own write, which looks at no status, puts the completed payment
   back to PENDING.
   */
  lemma RetriedPaymentCompletesOnOldOrder() returns (s: State, steps: seq<Step>, t: State, reopened: State)
    ensures Initial(s) && Reaches(s, steps, t)
    ensures 1 in t.rows && t.rows[1].status.Completed? && |t.audit.completions| == 1
    ensures var c := t.audit.completions[0];
      !OnItsOrder(c) && c.changes == 1 && c.order.amount == 100 && c.row.amount == Some(200)
    ensures Enabled(t, Persist(1, "b", 200, "INR")) && reopened == Apply(t, Persist(1, "b", 200, "INR"))
    ensures 1 in reopened.rows && reopened.rows[1].status.Pending? && LifeOf(reopened, 1).overwrites == 1
  {
    s, steps, t := Selection();
    steps, t := RetryHappens(s, steps, t);
    Extend(s, steps, t, Evaluate(0, PAID, Fine));
    steps, t := steps + [Evaluate(0, PAID, Fine)], Apply(t, Evaluate(0, PAID, Fine));
    reopened := Apply(t, Persist(1, "b", 200, "INR"));
  }

  /** reconciledFailed counts a payment that the provider's webhook completed in the meantime. */
  lemma FailuresAreOverreported() returns (s: State, steps: seq<Step>, t: State)
    ensures Initial(s) && Reaches(s, steps, t)
    ensures Sum(t.workers, 2) == 1 && t.audit.rejections == []
  {
    s, steps, t := Selection();
    Extend(s, steps, t, Webhook(1, Completed));
    steps, t := steps + [Webhook(1, Completed)], Apply(t, Webhook(1, Completed));
    var turn := Evaluate(0, Replied(Order(Created, 100, "INR", 4)), Fine);
    Extend(s, steps, t, turn);
    steps, t := steps + [turn], Apply(t, turn);
    OneTally(t.workers, 2);
  }

  /** reconciledCompleted counts a completion whose transaction was rolled back, and counts it under errors too. */
  lemma RolledBackCompletionIsReported() returns (s: State, steps: seq<Step>, t: State)
    ensures Initial(s) && Reaches(s, steps, t)
    ensures Sum(t.workers, 1) == 1 && Sum(t.workers, 5) == 1 && Sum(t.workers, 0) == 1 && t.audit.completions == [] && t.rows == s.rows
  {
    s, steps, t := Selection();
    var turn := Evaluate(0, PAID, RollsBack);
    Extend(s, steps, t, turn);
    steps, t := steps + [turn], Apply(t, turn);
    OneTally(t.workers, 0);
    OneTally(t.workers, 1);
    OneTally(t.workers, 5);
  }
}
