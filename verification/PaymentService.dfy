/** One run of the reconciliation, as the loop it is. */
module PaymentService {
  import opened Options
  import opened PaymentReconciliation
  import opened Selections

  /** A payment as it was selected. */
  type Picked = (Id, Payment)

  function Pairs(items: seq<Item>): (ps: seq<Picked>)
    ensures |ps| == |items| && forall i :: 0 <= i < |items| ==> ps[i] == (items[i].id, items[i].snapshot)
  {
    seq(|items|, i requires 0 <= i < |items| => (items[i].id, items[i].snapshot))
  }

  function Turn(rows: Table, p: Picked, provider: string -> Answer, db: Db, tally: Tally): (Table, Tally) {
    if p.0 !in rows then (rows, tally)
    else
      var action := Decide(p.1, provider(p.1.orderId));
      (rows[p.0 := ActOn(rows[p.0], action, db)], Record(tally, action, rows[p.0].status.Pending?, db))
  }

  /**
   What a turn does to the payment `o` and the tally `t`, said without the decision: a paid order that agrees with
   the selected payment completes it if it is PENDING, one that differs quarantines it, and an
   unpaid one of more than three attempts fails it if it is PENDING, all of these if the write
   is applied; nothing else changes it. Each outcome has its count; a write whose success is not seen
   is an error, and a transition that began is counted in any case.
   */
  predicate TurnIs(p: Payment, a: Answer, db: Db, o: Payment, n: Payment, t: Tally, u: Tally) {
    var known := p.orderId != "" && a.Replied?;
    var agrees := known && a.order.status.Paid? && AmountAgrees(p, a.order) && CurrencyAgrees(p, a.order);
    var differs := known && a.order.status.Paid? && !agrees;
    var givenUp := known && a.order.status.Created? && a.order.attempts > 3;
    var fault := if db.Fine? then 0 else 1;
    var begun := if db.FailsBefore? then 0 else 1;
    && (agrees && o.status.Pending? && Applied(db) ==> n == o.(status := Completed))
    && (givenUp && o.status.Pending? && Applied(db) ==> n == o.(status := Failed))
    && (differs && Applied(db) ==>
          n == o.(quarantine := Some(if !AmountAgrees(p, a.order) then AmountMismatch(p.amount.value, a.order.amount)
                                     else CurrencyMismatch(p.currency, a.order.currency))))
    && (!Applied(db) || !(differs || (o.status.Pending? && (agrees || givenUp))) ==> n == o)
    && u.totalEvaluated == t.totalEvaluated
    && u.completed == t.completed + (if agrees && o.status.Pending? then begun else 0)
    && u.failed == t.failed + (if givenUp then begun else 0)
    && u.quarantined == t.quarantined + (if differs then 1 - fault else 0)
    && u.skipped == t.skipped + (if p.orderId == "" || (known && !agrees && !differs && !givenUp) then 1 else 0)
    && u.errors == t.errors + (if agrees || differs || givenUp then fault else if p.orderId != "" && a.Unreachable? then 1 else 0)
  }

  lemma TurnMeans(rows: Table, p: Picked, provider: string -> Answer, db: Db, tally: Tally)
    requires p.0 in rows
    ensures var (r, t) := Turn(rows, p, provider, db, tally);
      && r.Keys == rows.Keys && (forall id :: id in rows && id != p.0 ==> r[id] == rows[id])
      && TurnIs(p.1, provider(p.1.orderId), db, rows[p.0], r[p.0], tally, t)
  {
    DecisionIff(p.1, provider(p.1.orderId));
  }

  /** The rows and the tally after a worker, undisturbed, has evaluated the payments in order. */
  function EvaluateAll(rows: Table, picked: seq<Picked>, provider: string -> Answer, db: Id -> Db, tally: Tally): (Table, Tally) {
    if picked == [] then (rows, tally)
    else
      var (r, t) := EvaluateAll(rows, picked[..|picked| - 1], provider, db, tally);
      var last := picked[|picked| - 1];
      Turn(r, last, provider, db(last.0), t)
  }

  lemma OneMoreTurn(rows: Table, picked: seq<Picked>, n: nat, provider: string -> Answer, db: Id -> Db, tally: Tally)
    requires n < |picked|
    ensures var (r, t) := EvaluateAll(rows, picked[..n], provider, db, tally);
      EvaluateAll(rows, picked[..n + 1], provider, db, tally) == Turn(r, picked[n], provider, db(picked[n].0), t)
  {
    assert picked[..n + 1][..n] == picked[..n];
  }

  lemma {:induction false} EvaluateAllCons(rows: Table, picked: seq<Picked>, provider: string -> Answer, db: Id -> Db, tally: Tally)
    requires picked != []
    ensures var (r, t) := Turn(rows, picked[0], provider, db(picked[0].0), tally);
      EvaluateAll(rows, picked, provider, db, tally) == EvaluateAll(r, picked[1..], provider, db, t)
    decreases |picked|
  {
    if |picked| > 1 {
      var front := picked[..|picked| - 1];
      EvaluateAllCons(rows, front, provider, db, tally);
      assert front[1..] == picked[1..][..|picked| - 2];
    }
  }

  /** The evaluations of a worker that nobody disturbs. */
  function Evaluations(w: nat, items: seq<Item>, provider: string -> Answer, db: Id -> Db): seq<Step> {
    if items == [] then []
    else [Evaluate(w, provider(items[0].snapshot.orderId), db(items[0].id))] + Evaluations(w, items[1..], provider, db)
  }

  /** The loop over a batch is the trace in which nobody comes between its turns. */
  lemma {:induction false} UndisturbedRunIsATrace(s: State, w: nat, provider: string -> Answer, db: Id -> Db)
    requires w < |s.workers| && forall i :: 0 <= i < |s.workers[w].todo| ==> s.workers[w].todo[i].id in s.rows
    ensures var steps := Evaluations(w, s.workers[w].todo, provider, db);
      && IsTrace(s, steps) && w < |Exec(s, steps).workers| && Exec(s, steps).workers[w].todo == []
      && (Exec(s, steps).rows, Exec(s, steps).workers[w].tally)
         == EvaluateAll(s.rows, Pairs(s.workers[w].todo), provider, db, s.workers[w].tally)
    decreases |s.workers[w].todo|
  {
    var todo := s.workers[w].todo;
    if todo != [] {
      var steps := Evaluations(w, todo, provider, db);
      var t := EvaluateStep(s, w, provider(todo[0].snapshot.orderId), db(todo[0].id));
      assert t.workers[w].todo == todo[1..];
      UndisturbedRunIsATrace(t, w, provider, db);
      EvaluateAllCons(s.rows, Pairs(todo), provider, db, s.workers[w].tally);
      assert Pairs(todo)[1..] == Pairs(todo[1..]);
      assert steps[1..] == Evaluations(w, todo[1..], provider, db);
    }
  }

  /** What findMany may return: the oldest stale payments, oldest first, none of them twice, as many as there are up to 50. */
  ghost predicate IsSelection(rows: Table, cutoff: Time, ids: seq<Id>) {
    && |ids| <= 50
    && (forall i :: 0 <= i < |ids| ==> ids[i] in rows && IsStale(rows[ids[i]], cutoff))
    && (forall i, j :: 0 <= i < j < |ids| ==> ids[i] != ids[j] && rows[ids[i]].createdAt <= rows[ids[j]].createdAt)
    && (forall id :: id in rows && IsStale(rows[id], cutoff) && id !in ids ==>
          |ids| == 50 && forall i :: 0 <= i < |ids| ==> rows[ids[i]].createdAt <= rows[id].createdAt)
  }

  /** The stale payments are those taken so far, oldest first, and those of the pool, none of which is older. */
  ghost predicate Taken(rows: Table, cutoff: Time, ids: seq<Id>, pool: set<Id>) {
    && (forall id :: id in pool ==> id in rows && IsStale(rows[id], cutoff) && id !in ids)
    && (forall id :: id in rows && IsStale(rows[id], cutoff) ==> id in pool || id in ids)
    && (forall i :: 0 <= i < |ids| ==> ids[i] in rows && IsStale(rows[ids[i]], cutoff))
    && (forall i, j :: 0 <= i < j < |ids| ==> ids[i] != ids[j] && rows[ids[i]].createdAt <= rows[ids[j]].createdAt)
    && (forall i, id :: 0 <= i < |ids| && id in pool ==> rows[ids[i]].createdAt <= rows[id].createdAt)
  }

  lemma TakeOldest(rows: Table, cutoff: Time, ids: seq<Id>, pool: set<Id>, next: Id, created: Id -> Time)
    requires Taken(rows, cutoff, ids, pool) && next in pool
    requires forall id :: id in rows ==> created(id) == rows[id].createdAt
    requires forall id :: id in pool ==> created(next) <= created(id)
    ensures Taken(rows, cutoff, ids + [next], pool - {next})
  {
    assert forall id :: id in pool ==> rows[next].createdAt <= rows[id].createdAt;
  }

  function Snapshots(rows: Table, ids: seq<Id>): seq<Picked>
    requires forall i :: 0 <= i < |ids| ==> ids[i] in rows
  {
    seq(|ids|, i requires 0 <= i < |ids| => (ids[i], rows[ids[i]]))
  }

  class PaymentReconciliationService {
    var rows: Table

    constructor (rows: Table)
      ensures this.rows == rows
    {
      this.rows := rows;
    }

    method FindStale(cutoff: Time) returns (ids: seq<Id>)
      ensures IsSelection(rows, cutoff, ids)
    {
      var pool := set id | id in rows && rows[id].status.Pending? && rows[id].createdAt < cutoff && rows[id].quarantine.None?;
      var table := rows;
      var created := id => if id in table then table[id].createdAt else 0;
      ids := [];
      while |ids| < BATCH && pool != {}
        invariant Taken(rows, cutoff, ids, pool) && |ids| <= BATCH
        decreases pool
      {
        var next := Oldest(pool, created);
        TakeOldest(rows, cutoff, ids, pool, next, created);
        pool := pool - {next};
        ids := ids + [next];
      }
    }

    /** One turn of the loop, from the payment as it was selected; `db` is what becomes of its write. */
    method ReconcilePayment(id: Id, payment: Payment, provider: string -> Answer, db: Db, result: Tally) returns (next: Tally)
      requires id in rows
      modifies this
      ensures (rows, next) == Turn(old(rows), (id, payment), provider, db, result)
      ensures rows.Keys == old(rows).Keys && forall i :: i in rows && i != id ==> rows[i] == old(rows)[i]
      ensures TurnIs(payment, provider(payment.orderId), db, old(rows)[id], rows[id], result, next)
    {
      var start := rows;
      assert start[id := start[id]] == start;
      TurnMeans(start, (id, payment), provider, db, result);
      next := result;
      if payment.orderId == "" {
        return next.(skipped := next.skipped + 1);
      }
      var answer := provider(payment.orderId);
      if answer.Unreachable? {
        return next.(errors := next.errors + 1);
      }
      var order := answer.order;
      if order.status.Paid? {
        if payment.amount.Some? && order.amount != payment.amount.value {
          next := WriteQuarantine(id, AmountMismatch(payment.amount.value, order.amount), db, next);
          return;
        }
        if payment.currency != "" && Upper(order.currency) != Upper(payment.currency) {
          next := WriteQuarantine(id, CurrencyMismatch(payment.currency, order.currency), db, next);
          return;
        }
        var transitioned := rows[id].status.Pending? && !db.FailsBefore?;
        if transitioned {
          rows := rows[id := rows[id].(status := Completed)];
          next := next.(completed := next.completed + 1);
        }
      } else if order.status.Created? && order.attempts > 3 {
        if !db.FailsBefore? {
          if rows[id].status.Pending? {
            rows := rows[id := rows[id].(status := Failed)];
          }
          next := next.(failed := next.failed + 1);
        }
      } else {
        return next.(skipped := next.skipped + 1);
      }
      if db.RollsBack? {
        rows := start;
      }
      if !db.Fine? {
        next := next.(errors := next.errors + 1);
      }
    }

    method WriteQuarantine(id: Id, reason: Reason, db: Db, result: Tally) returns (next: Tally)
      requires id in rows
      modifies this
      ensures rows == old(rows)[id := ActOn(old(rows)[id], Quarantine(reason), db)]
      ensures next == if db.Fine? then result.(quarantined := result.quarantined + 1) else result.(errors := result.errors + 1)
    {
      next := result;
      if Applied(db) {
        rows := rows[id := rows[id].(quarantine := Some(reason))];
      }
      if db.Fine? {
        next := next.(quarantined := next.quarantined + 1);
      } else {
        next := next.(errors := next.errors + 1);
      }
    }

    /** The whole run: the payments are those findMany selects, and each is judged by its snapshot, in order. */
    method ReconcileStalePayments(cutoff: Time, provider: string -> Answer, db: Id -> Db) returns (result: Tally, ghost ids: seq<Id>)
      modifies this
      ensures IsSelection(old(rows), cutoff, ids) && result.totalEvaluated == |ids|
      ensures (rows, result) == EvaluateAll(old(rows), Snapshots(old(rows), ids), provider, db, ZERO.(totalEvaluated := |ids|))
      ensures rows.Keys == old(rows).Keys
    {
      var selected := FindStale(cutoff);
      ids := selected;
      var stale := Snapshots(rows, selected);
      result := ZERO.(totalEvaluated := |stale|);
      for n := 0 to |stale|
        invariant (rows, result) == EvaluateAll(old(rows), stale[..n], provider, db, ZERO.(totalEvaluated := |stale|))
        invariant rows.Keys == old(rows).Keys && result.totalEvaluated == |stale|
      {
        OneMoreTurn(old(rows), stale, n, provider, db, ZERO.(totalEvaluated := |stale|));
        result := ReconcilePayment(stale[n].0, stale[n].1, provider, db(stale[n].0), result);
      }
      assert stale[..|stale|] == stale;
    }
  }
}
