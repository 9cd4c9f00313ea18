/**
 Reconciliation of stale PENDING payments against the provider, by any number of
 workers at once, while orders are created, retried and persisted, webhooks
 arrive, refunds are made and the database may fail. A worker evaluates the rows
 it selected from the snapshot it took; its writes meet the rows as they are by
 then.
 */
module PaymentReconciliation {
  import opened Options

  type Id = nat
  type Time = int

  datatype Status = Pending | Completed | Failed | RefundPending | Refunded | RefundFailed | RefundUnknown
  datatype Reason = AmountMismatch(local: int, provider: int) | CurrencyMismatch(localCode: string, providerCode: string) | OrderNotCreated

  /** orderId is "" as long as the provider's order is not known. */
  datatype Payment = Payment(status: Status, orderId: string, amount: Option<int>, currency: string, quarantine: Option<Reason>, createdAt: Time)
  type Table = map<Id, Payment>

  datatype OrderStatus = Paid | Created | OtherStatus
  datatype Order = Order(status: OrderStatus, amount: int, currency: string, attempts: int)

  /** fetchOrder: whatever the provider says, or an error. */
  datatype Answer = Replied(order: Order) | Unreachable

  /**
   What becomes of a turn's write: it is made; it fails at once; the transaction runs to its end and is
   rolled back; or it is made and the answer is lost. All but the first end in the loop's catch.
   */
  datatype Db = Fine | FailsBefore | RollsBack | AnswerLost

  datatype Tally = Tally(totalEvaluated: nat, completed: nat, failed: nat, quarantined: nat, skipped: nat, errors: nat)

  const BATCH: nat := 50
  const ZERO := Tally(0, 0, 0, 0, 0, 0)

  function UpperChar(c: char): char {
    if 'a' <= c <= 'z' then c - 32 as char else c
  }

  function Upper(s: string): string {
    seq(|s|, i requires 0 <= i < |s| => UpperChar(s[i]))
  }

  predicate AmountAgrees(p: Payment, o: Order) {
    p.amount.Some? ==> o.amount == p.amount.value
  }

  predicate CurrencyAgrees(p: Payment, o: Order) {
    p.currency != "" ==> Upper(o.currency) == Upper(p.currency)
  }

  datatype Action = Skip | Fault | Quarantine(reason: Reason) | Complete | Reject

  /** What one turn of the loop decides, from its snapshot of the payment. */
  function Decide(p: Payment, a: Answer): Action {
    if p.orderId == "" then Skip
    else if a.Unreachable? then Fault
    else if a.order.status.Paid? then
      if p.amount.Some? && a.order.amount != p.amount.value then Quarantine(AmountMismatch(p.amount.value, a.order.amount))
      else if p.currency != "" && Upper(a.order.currency) != Upper(p.currency) then Quarantine(CurrencyMismatch(p.currency, a.order.currency))
      else Complete
    else if a.order.status.Created? && a.order.attempts > 3 then Reject
    else Skip
  }

  /** The decision, outcome by outcome. */
  lemma DecisionIff(p: Payment, a: Answer)
    ensures var d := Decide(p, a);
      var known := p.orderId != "" && a.Replied?;
      && (d.Complete? <==> known && a.order.status.Paid? && AmountAgrees(p, a.order) && CurrencyAgrees(p, a.order))
      && (d.Quarantine? <==> known && a.order.status.Paid? && !(AmountAgrees(p, a.order) && CurrencyAgrees(p, a.order)))
      && (d.Quarantine? ==> d.reason == if !AmountAgrees(p, a.order) then AmountMismatch(p.amount.value, a.order.amount)
                                        else CurrencyMismatch(p.currency, a.order.currency))
      && (d.Reject? <==> known && a.order.status.Created? && a.order.attempts > 3)
      && (d.Fault? <==> p.orderId != "" && a.Unreachable?)
      && (d.Skip? <==> p.orderId == "" || (a.Replied? && !a.order.status.Paid? && !(a.order.status.Created? && a.order.attempts > 3)))
  {
  }

  /** Two letters are the same but for their case. */
  predicate SameLetter(c: char, d: char) {
    c == d || ('a' <= c <= 'z' && c as int - 32 == d as int) || ('a' <= d <= 'z' && d as int - 32 == c as int)
  }

  /** Currencies are compared without regard to case. */
  lemma UpperIgnoresCase(s: string, t: string)
    ensures Upper(s) == Upper(t) <==> |s| == |t| && forall i :: 0 <= i < |s| ==> SameLetter(s[i], t[i])
  {
    if |s| == |t| {
      if Upper(s) == Upper(t) {
        forall i | 0 <= i < |s| ensures SameLetter(s[i], t[i]) {
          assert Upper(s)[i] == Upper(t)[i];
        }
      } else {
        var i :| 0 <= i < |s| && Upper(s)[i] != Upper(t)[i];
        assert !SameLetter(s[i], t[i]);
      }
    } else {
      assert |Upper(s)| != |Upper(t)|;
    }
  }

  predicate Applied(db: Db) { db.Fine? || db.AnswerLost? }

  /** The row after a turn; transitionPaymentStatus is a compare-and-set on PENDING. */
  function ActOn(p: Payment, action: Action, db: Db): Payment {
    if !Applied(db) then p
    else match action
      case Quarantine(reason) => p.(quarantine := Some(reason))
      case Complete => if p.status.Pending? then p.(status := Completed) else p
      case Reject => if p.status.Pending? then p.(status := Failed) else p
      case _ => p
  }

  /** The counters are moved inside the transaction, before it is known to commit. */
  function Record(t: Tally, action: Action, moved: bool, db: Db): Tally {
    match action
    case Skip => t.(skipped := t.skipped + 1)
    case Fault => t.(errors := t.errors + 1)
    case Quarantine(_) => if db.Fine? then t.(quarantined := t.quarantined + 1) else t.(errors := t.errors + 1)
    case Complete =>
      var u := if moved && !db.FailsBefore? then t.(completed := t.completed + 1) else t;
      if db.Fine? then u else u.(errors := u.errors + 1)
    case Reject =>
      var u := if !db.FailsBefore? then t.(failed := t.failed + 1) else t;
      if db.Fine? then u else u.(errors := u.errors + 1)
  }

  /** PENDING since before the cutoff, and not quarantined. */
  predicate IsStale(p: Payment, cutoff: Time) {
    p.status.Pending? && p.createdAt < cutoff && p.quarantine.None?
  }

  // ------------------------------------------------------------ interleaved workers

  /** version: how often the payment's order had been replaced when it was selected. */
  datatype Item = Item(id: Id, snapshot: Payment, version: nat)

  /** A worker: what is left of its batch, and its tallies summed over its runs. */
  datatype Worker = Worker(todo: seq<Item>, tally: Tally)

  /**
   The life of a payment: begun, 1 if it was created, or found, PENDING; how often it was retried; how
   often a late persist put it back to PENDING; how often it left PENDING; how often its
   order was replaced.
   */
  datatype Life = Life(begun: nat, retries: nat, overwrites: nat, left: nat, version: nat)

  /** A completion by this service: the order that justified it, the row it met, and the order changes since the selection. */
  datatype Completion = Completion(id: Id, snapshot: Payment, order: Order, row: Payment, changes: nat)

  /** A rejection by this service and the order that justified it. */
  datatype Rejection = Rejection(id: Id, snapshot: Payment, order: Order)

  /** A quarantine by this service, its reason and the order that justified it. */
  datatype Quarantining = Quarantining(id: Id, snapshot: Payment, order: Order, reason: Reason)

  /**
   silent: completions that came too late, which nothing counts; twice: turns counted under errors as
   well; undone: transitions that were counted and rolled back; late: counted, but too late; unreported:
   quarantines that were made and counted under errors.
   */
  datatype Audit = Audit(completions: seq<Completion>, rejections: seq<Rejection>, quarantines: seq<Quarantining>, silent: nat, twice: nat,
                         undoneCompletions: nat, undoneRejections: nat, lateRejections: nat, unreported: nat)

  const NOTHING_YET := Audit([], [], [], 0, 0, 0, 0, 0, 0)

  /** orders: the provider's order ids so far; claimants: createOrder calls between their claim and their last write. */
  datatype State = State(rows: Table, lives: map<Id, Life>, orders: set<string>, claimants: multiset<Id>, workers: seq<Worker>, audit: Audit)

  datatype Step =
    | Select(worker: nat, cutoff: Time, ids: seq<Id>)
    | Evaluate(worker: nat, answer: Answer, db: Db)
    | Create(id: Id, amount: int, currency: string, at: Time)
    | Retry(id: Id, amount: int, currency: string)
    | Persist(id: Id, orderId: string, amount: int, currency: string)
    | OrderFails(id: Id)
    | Webhook(id: Id, to: Status)
    | Flag(id: Id, reason: Reason)
    | Refund(id: Id, to: Status)

  /** The guards of the source; a webhook's own checks and the order of a refund's writes are left open. */
  predicate Enabled(s: State, step: Step) {
    match step
    case Select(w, cutoff, ids) =>
      && w < |s.workers| && s.workers[w].todo == [] && |ids| <= BATCH
      && forall i :: 0 <= i < |ids| ==> ids[i] in s.rows && IsStale(s.rows[ids[i]], cutoff)
    case Evaluate(w, _, _) => w < |s.workers| && s.workers[w].todo != []
    case Create(id, _, _, _) => id !in s.rows
    case Retry(id, _, _) => id in s.rows && s.rows[id].status.Failed?
    case Persist(id, orderId, _, _) => id in s.rows && id in s.claimants && orderId != "" && orderId !in s.orders
    case OrderFails(id) => id in s.rows && id in s.claimants
    case Webhook(id, to) => id in s.rows && s.rows[id].status.Pending? && (to.Completed? || to.Failed?)
    case Flag(id, _) => id in s.rows
    case Refund(id, to) => id in s.rows && !to.Pending? && !to.Completed? && !to.Failed?
  }

  function LifeOf(s: State, id: Id): Life {
    if id in s.lives then s.lives[id] else Life(0, 0, 0, 0, 0)
  }

  function Items(s: State, ids: seq<Id>): seq<Item>
    requires forall i :: 0 <= i < |ids| ==> ids[i] in s.rows
  {
    seq(|ids|, i requires 0 <= i < |ids| => Item(ids[i], s.rows[ids[i]], LifeOf(s, ids[i]).version))
  }

  /** A write that keeps the payment's order; leaving PENDING is counted. */
  function Write(s: State, id: Id, p: Payment): State
    requires id in s.rows
  {
    var l := LifeOf(s, id);
    var leaves := s.rows[id].status.Pending? && !p.status.Pending?;
    s.(rows := s.rows[id := p], lives := s.lives[id := l.(left := l.left + if leaves then 1 else 0)])
  }

  /** A write that replaces the payment's order and leaves it PENDING. */
  function Replace(s: State, id: Id, p: Payment, l: Life): State {
    s.(rows := s.rows[id := p], lives := s.lives[id := l.(version := l.version + 1)])
  }

  function AuditTurn(a: Audit, item: Item, answer: Answer, db: Db, row: Payment, version: nat): Audit {
    var action, moved := Decide(item.snapshot, answer), row.status.Pending?;
    match action
    case Complete =>
      if db.FailsBefore? then a
      else if !moved then (if db.Fine? then a.(silent := a.silent + 1) else a)
      else if db.RollsBack? then a.(undoneCompletions := a.undoneCompletions + 1, twice := a.twice + 1)
      else if answer.Unreachable? then a
      else
        var c := Completion(item.id, item.snapshot, answer.order, row, if version >= item.version then version - item.version else 0);
        a.(completions := a.completions + [c], twice := a.twice + if db.Fine? then 0 else 1)
    case Reject =>
      if db.FailsBefore? then a
      else
        var b := a.(twice := a.twice + if db.Fine? then 0 else 1);
        if !moved then b.(lateRejections := b.lateRejections + 1)
        else if db.RollsBack? then b.(undoneRejections := b.undoneRejections + 1)
        else if answer.Unreachable? then b
        else b.(rejections := b.rejections + [Rejection(item.id, item.snapshot, answer.order)])
    case Quarantine(reason) =>
      if !Applied(db) || answer.Unreachable? then a
      else a.(quarantines := a.quarantines + [Quarantining(item.id, item.snapshot, answer.order, reason)],
              unreported := a.unreported + if db.Fine? then 0 else 1)
    case _ => a
  }

  function EvaluateStep(s: State, w: nat, answer: Answer, db: Db): State
    requires w < |s.workers| && s.workers[w].todo != []
  {
    var worker := s.workers[w];
    var item := worker.todo[0];
    if item.id !in s.rows then s
    else
      var row, action := s.rows[item.id], Decide(item.snapshot, answer);
      Write(s, item.id, ActOn(row, action, db)).(
        workers := s.workers[w := Worker(worker.todo[1..], Record(worker.tally, action, row.status.Pending?, db))],
        audit := AuditTurn(s.audit, item, answer, db, row, LifeOf(s, item.id).version))
  }

  /** What a step that keeps every order writes, and where; None for the others. */
  function Written(s: State, step: Step): (w: Option<(Id, Payment)>)
    requires Enabled(s, step)
    ensures step.OrderFails? || step.Webhook? || step.Flag? || step.Refund? ==> w.Some?
    ensures w.Some? ==> w.value.0 in s.rows
  {
    match step
    case Evaluate(w, answer, db) =>
      var item := s.workers[w].todo[0];
      if item.id in s.rows then Some((item.id, ActOn(s.rows[item.id], Decide(item.snapshot, answer), db))) else None
    case OrderFails(id) =>
      var p := s.rows[id];
      Some((id, if p.orderId == "" then p.(status := Failed, quarantine := Some(OrderNotCreated)) else p))
    case Webhook(id, to) => Some((id, s.rows[id].(status := to)))
    case Flag(id, reason) => Some((id, s.rows[id].(quarantine := Some(reason))))
    case Refund(id, to) => Some((id, s.rows[id].(status := to)))
    case _ => None
  }

  function Apply(s: State, step: Step): State
    requires Enabled(s, step)
  {
    match step
    case Select(w, _, ids) =>
      var t := s.workers[w].tally;
      s.(workers := s.workers[w := Worker(Items(s, ids), t.(totalEvaluated := t.totalEvaluated + |ids|))])
    case Evaluate(w, answer, db) => EvaluateStep(s, w, answer, db)
    case Create(id, amount, currency, at) =>
      s.(rows := s.rows[id := Payment(Pending, "", Some(amount), currency, None, at)],
         lives := s.lives[id := Life(1, 0, 0, 0, 0)], claimants := s.claimants[id := 1])
    case Retry(id, amount, currency) =>
      var l := LifeOf(s, id);
      Replace(s, id, s.rows[id].(status := Pending, orderId := "", amount := Some(amount), currency := currency),
              l.(retries := l.retries + 1)).(claimants := s.claimants + multiset{id})
    case Persist(id, orderId, amount, currency) =>
      var l := LifeOf(s, id);
      Replace(s, id, s.rows[id].(status := Pending, orderId := orderId, amount := Some(amount), currency := currency),
              l.(overwrites := l.overwrites + if s.rows[id].status.Pending? then 0 else 1))
        .(orders := s.orders + {orderId}, claimants := s.claimants - multiset{id})
    case _ =>
      var (id, p) := Written(s, step).value;
      Write(s, id, p).(claimants := if step.OrderFails? then s.claimants - multiset{id} else s.claimants)
  }

  predicate IsTrace(s: State, steps: seq<Step>)
    decreases |steps|
  {
    steps == [] || (Enabled(s, steps[0]) && IsTrace(Apply(s, steps[0]), steps[1..]))
  }

  function Exec(s: State, steps: seq<Step>): State
    requires IsTrace(s, steps)
    decreases |steps|
  {
    if steps == [] then s else Exec(Apply(s, steps[0]), steps[1..])
  }

  /** Any table, with no call under way and no worker at work. */
  predicate Initial(s: State) {
    && s.audit == NOTHING_YET && s.claimants == multiset{}
    && s.lives == (map id | id in s.rows :: Life(if s.rows[id].status.Pending? then 1 else 0, 0, 0, 0, 0))
    && (forall id :: id in s.rows && s.rows[id].orderId != "" ==> s.rows[id].orderId in s.orders)
    && forall w :: 0 <= w < |s.workers| ==> s.workers[w] == Worker([], ZERO)
  }

  // ------------------------------------------------------------ sums over workers

  /** The six fields of a tally, in the order of the result record. */
  function Field(t: Tally, field: nat): nat {
    match field
    case 0 => t.totalEvaluated
    case 1 => t.completed
    case 2 => t.failed
    case 3 => t.quarantined
    case 4 => t.skipped
    case _ => t.errors
  }

  function Sum(ws: seq<Worker>, field: nat): nat {
    if ws == [] then 0 else Field(ws[0].tally, field) + Sum(ws[1..], field)
  }

  function Open(ws: seq<Worker>): nat {
    if ws == [] then 0 else |ws[0].todo| + Open(ws[1..])
  }

  lemma {:induction false} SumUpdate(ws: seq<Worker>, w: nat, next: Worker, field: nat)
    requires w < |ws|
    ensures Sum(ws[w := next], field) == Sum(ws, field) - Field(ws[w].tally, field) + Field(next.tally, field)
    ensures Open(ws[w := next]) == Open(ws) - |ws[w].todo| + |next.todo|
    decreases w
  {
    if w == 0 {
      assert ws[w := next][1..] == ws[1..];
    } else {
      SumUpdate(ws[1..], w - 1, next, field);
      assert ws[w := next][1..] == ws[1..][w - 1 := next];
    }
  }

  lemma {:induction false} SumOfZero(ws: seq<Worker>, field: nat)
    requires forall w :: 0 <= w < |ws| ==> ws[w] == Worker([], ZERO)
    ensures Sum(ws, field) == 0 && Open(ws) == 0
  {
    if ws != [] {
      SumOfZero(ws[1..], field);
    }
  }

  lemma UpdateSums(ws: seq<Worker>, w: nat, next: Worker)
    requires w < |ws|
    ensures forall f :: 0 <= f < 6 ==> Sum(ws[w := next], f) == Sum(ws, f) - Field(ws[w].tally, f) + Field(next.tally, f)
    ensures Open(ws[w := next]) == Open(ws) - |ws[w].todo| + |next.todo|
  {
    SumUpdate(ws, w, next, 0);
    forall f | 0 <= f < 6 ensures Sum(ws[w := next], f) == Sum(ws, f) - Field(ws[w].tally, f) + Field(next.tally, f) {
      SumUpdate(ws, w, next, f);
    }
  }

  // ------------------------------------------------------------ the invariant

  predicate SameTerms(p: Payment, q: Payment) {
    p.orderId == q.orderId && p.amount == q.amount && p.currency == q.currency
  }

  /** A selected payment still has the terms of its snapshot, or its order has been replaced since. */
  ghost predicate ItemInv(s: State, item: Item) {
    && item.id in s.rows && item.version <= LifeOf(s, item.id).version
    && (item.snapshot.orderId != "" ==> item.snapshot.orderId in s.orders)
    && (if item.version == LifeOf(s, item.id).version then SameTerms(item.snapshot, s.rows[item.id])
        else item.snapshot.orderId != "" ==> item.snapshot.orderId != s.rows[item.id].orderId)
  }

  ghost predicate ItemsInv(s: State) {
    && (forall id :: id in s.rows && s.rows[id].orderId != "" ==> s.rows[id].orderId in s.orders)
    && (forall w, i :: 0 <= w < |s.workers| && 0 <= i < |s.workers[w].todo| ==> ItemInv(s, s.workers[w].todo[i]))
  }

  /** Every return to PENDING is a retry or a late persist, and every late persist belongs to a claim of its own. */
  ghost predicate LifeInv(p: Payment, l: Life, claims: nat) {
    && l.begun <= 1
    && l.left + (if p.status.Pending? then 1 else 0) == l.begun + l.retries + l.overwrites
    && l.overwrites + claims <= l.begun + l.retries
  }

  ghost predicate LivesInv(s: State) {
    && s.lives.Keys == s.rows.Keys
    && (forall id :: id in s.claimants ==> id in s.rows)
    && (forall id :: id in s.rows ==> LifeInv(s.rows[id], LifeOf(s, id), s.claimants[id]))
  }

  /** The completion was made on the payment's own order, and on its terms. */
  predicate OnItsOrder(c: Completion) {
    c.row.orderId == c.snapshot.orderId && AmountAgrees(c.row, c.order) && CurrencyAgrees(c.row, c.order)
  }

  /** A completion agrees with its snapshot, and with the row if and only if the order was not replaced in between. */
  predicate SoundCompletion(c: Completion) {
    && c.snapshot.orderId != "" && c.order.status.Paid? && AmountAgrees(c.snapshot, c.order) && CurrencyAgrees(c.snapshot, c.order)
    && (OnItsOrder(c) <==> c.changes == 0)
  }

  /** A rejection is on an order that is still unpaid after more than three attempts. */
  predicate SoundRejection(r: Rejection) {
    r.snapshot.orderId != "" && r.order.status.Created? && r.order.attempts > 3
  }

  /** A quarantine is on a paid order that differs from the selected payment in what its reason says. */
  predicate SoundQuarantining(q: Quarantining) {
    && q.snapshot.orderId != "" && q.order.status.Paid?
    && match q.reason
       case AmountMismatch(local, provider) => q.snapshot.amount == Some(local) && q.order.amount == provider && local != provider
       case CurrencyMismatch(local, provider) =>
         && AmountAgrees(q.snapshot, q.order) && q.snapshot.currency == local && local != "" && q.order.currency == provider
         && Upper(local) != Upper(provider)
       case OrderNotCreated => false
  }

  ghost predicate SoundAudit(a: Audit) {
    && (forall i :: 0 <= i < |a.completions| ==> SoundCompletion(a.completions[i]))
    && (forall i :: 0 <= i < |a.rejections| ==> SoundRejection(a.rejections[i]))
    && (forall i :: 0 <= i < |a.quarantines| ==> SoundQuarantining(a.quarantines[i]))
  }

  ghost predicate AuditInv(s: State) {
    SoundAudit(s.audit)
  }

  ghost predicate SumsInv(s: State) {
    && Sum(s.workers, 1) == |s.audit.completions| + s.audit.undoneCompletions
    && Sum(s.workers, 2) == |s.audit.rejections| + s.audit.lateRejections + s.audit.undoneRejections
    && Sum(s.workers, 3) + s.audit.unreported == |s.audit.quarantines|
    && Sum(s.workers, 0) + s.audit.twice
       == Open(s.workers) + Sum(s.workers, 1) + Sum(s.workers, 2) + Sum(s.workers, 3) + Sum(s.workers, 4) + Sum(s.workers, 5) + s.audit.silent
  }

  ghost predicate Inv(s: State) {
    ItemsInv(s) && LivesInv(s) && AuditInv(s) && SumsInv(s)
  }

  /**
   What the steps of createOrder, the webhooks and the refunds write: a new payment is PENDING without an order; a retry
   makes a failed one PENDING on fresh terms, without an order; a persist writes the provider's
   order and PENDING over whatever is there; an order that could not be created fails and
   quarantines a payment that has none; the others write what they are told and nothing else.
   */
  lemma OtherWrites(s: State, step: Step)
    requires Enabled(s, step) && !step.Select? && !step.Evaluate?
    ensures var t := Apply(s, step);
      && t.workers == s.workers && t.audit == s.audit && step.id in t.rows
      && (forall id :: id in s.rows && id != step.id ==> id in t.rows && t.rows[id] == s.rows[id])
      && t.rows[step.id] == match step
           case Create(_, amount, currency, at) => Payment(Pending, "", Some(amount), currency, None, at)
           case Retry(id, amount, currency) =>
             Payment(Pending, "", Some(amount), currency, s.rows[id].quarantine, s.rows[id].createdAt)
           case Persist(id, orderId, amount, currency) =>
             Payment(Pending, orderId, Some(amount), currency, s.rows[id].quarantine, s.rows[id].createdAt)
           case OrderFails(id) =>
             if s.rows[id].orderId == "" then s.rows[id].(status := Failed, quarantine := Some(OrderNotCreated)) else s.rows[id]
           case Webhook(id, to) => s.rows[id].(status := to)
           case Flag(id, reason) => s.rows[id].(quarantine := Some(reason))
           case Refund(id, to) => s.rows[id].(status := to)
           case _ => t.rows[step.id]
  {
  }

  /** What a step may do to a payment: keep its order's terms, or replace the order by one that is new. */
  ghost predicate RowEvolves(s: State, t: State, id: Id)
    requires id in s.rows
  {
    && id in t.rows && t.rows[id].createdAt == s.rows[id].createdAt
    && (s.rows[id].quarantine.Some? ==> t.rows[id].quarantine.Some?)
    && (if LifeOf(t, id).version == LifeOf(s, id).version then SameTerms(s.rows[id], t.rows[id])
        else LifeOf(s, id).version < LifeOf(t, id).version && (t.rows[id].orderId == "" || t.rows[id].orderId !in s.orders))
    && LifeOf(s, id).begun == LifeOf(t, id).begun && LifeOf(s, id).left <= LifeOf(t, id).left
    && LifeOf(s, id).retries <= LifeOf(t, id).retries && LifeOf(s, id).overwrites <= LifeOf(t, id).overwrites
  }

  /** A write that is not a new order: the terms stay, and so does a quarantine. */
  predicate KeepsTerms(p: Payment, q: Payment) {
    SameTerms(p, q) && q.createdAt == p.createdAt && (p.quarantine.Some? ==> q.quarantine.Some?)
  }

  lemma WriteEvolves(s: State, id: Id, p: Payment, other: Id)
    requires id in s.rows && other in s.rows && KeepsTerms(s.rows[id], p)
    ensures RowEvolves(s, Write(s, id, p), other)
  {
  }

  lemma ReplaceEvolves(s: State, step: Step, other: Id)
    requires (step.Retry? || step.Persist? || step.Create?) && Enabled(s, step) && other in s.rows
    ensures RowEvolves(s, Apply(s, step), other)
  {
  }

  lemma WrittenIsApplied(s: State, step: Step)
    requires Enabled(s, step)
    ensures var w, t := Written(s, step), Apply(s, step);
      if w.None? then step.Retry? || step.Persist? || step.Create? || (t.rows == s.rows && t.lives == s.lives && t.claimants == s.claimants)
      else
        && w.value.0 in s.rows && KeepsTerms(s.rows[w.value.0], w.value.1)
        && t.rows == Write(s, w.value.0, w.value.1).rows && t.lives == Write(s, w.value.0, w.value.1).lives
        && t.claimants <= s.claimants
  {
  }

  lemma StepEvolves(s: State, step: Step, id: Id)
    requires Enabled(s, step) && id in s.rows
    ensures RowEvolves(s, Apply(s, step), id)
  {
    WrittenIsApplied(s, step);
    var w := Written(s, step);
    if w.Some? {
      WriteEvolves(s, w.value.0, w.value.1, id);
    } else if step.Retry? || step.Persist? || step.Create? {
      ReplaceEvolves(s, step, id);
    }
  }

  lemma ItemFrame(s: State, t: State, item: Item)
    requires ItemInv(s, item) && RowEvolves(s, t, item.id) && s.orders <= t.orders
    ensures ItemInv(t, item)
  {
  }

  lemma StepKeepsOrders(s: State, step: Step)
    requires ItemsInv(s) && Enabled(s, step)
    ensures var t := Apply(s, step);
      s.orders <= t.orders && forall id :: id in t.rows && t.rows[id].orderId != "" ==> t.rows[id].orderId in t.orders
  {
    WrittenIsApplied(s, step);
    if step.Retry? || step.Persist? || step.Create? {
      ReplaceKeepsOrders(s, step);
    } else {
      assert Apply(s, step).orders == s.orders;
    }
  }

  lemma ReplaceKeepsOrders(s: State, step: Step)
    requires (step.Retry? || step.Persist? || step.Create?) && Enabled(s, step)
    requires forall id :: id in s.rows && s.rows[id].orderId != "" ==> s.rows[id].orderId in s.orders
    ensures var t := Apply(s, step);
      s.orders <= t.orders && forall id :: id in t.rows && t.rows[id].orderId != "" ==> t.rows[id].orderId in t.orders
  {
  }

  /** Where the todo of a worker after a step comes from. */
  lemma TodoOrigin(s: State, step: Step, w: nat, i: nat)
    requires ItemsInv(s) && Enabled(s, step) && w < |Apply(s, step).workers| && i < |Apply(s, step).workers[w].todo|
    ensures var item := Apply(s, step).workers[w].todo[i];
      ItemInv(s, item)
  {
    if step.Evaluate? && step.worker == w && s.workers[w].todo[0].id in s.rows {
      assert Apply(s, step).workers[w].todo[i] == s.workers[w].todo[i + 1];
    } else if step.Select? && step.worker == w {
      assert Apply(s, step).workers[w].todo[i] == Items(s, step.ids)[i];
    } else {
      assert Apply(s, step).workers[w] == s.workers[w];
    }
  }

  lemma StepKeepsItems(s: State, step: Step)
    requires ItemsInv(s) && Enabled(s, step)
    ensures ItemsInv(Apply(s, step))
  {
    var t := Apply(s, step);
    StepKeepsOrders(s, step);
    forall w, i | 0 <= w < |t.workers| && 0 <= i < |t.workers[w].todo| ensures ItemInv(t, t.workers[w].todo[i]) {
      var item := t.workers[w].todo[i];
      TodoOrigin(s, step, w, i);
      StepEvolves(s, step, item.id);
      ItemFrame(s, t, item);
    }
  }

  lemma WriteKeepsLives(s: State, id: Id, p: Payment, t: State)
    requires LivesInv(s) && id in s.rows && (p.status.Pending? ==> s.rows[id].status.Pending?)
    requires t.rows == Write(s, id, p).rows && t.lives == Write(s, id, p).lives && t.claimants <= s.claimants
    ensures LivesInv(t)
  {
    forall i | i in t.rows ensures LifeInv(t.rows[i], LifeOf(t, i), t.claimants[i]) {
      assert LifeInv(s.rows[i], LifeOf(s, i), s.claimants[i]);
    }
  }

  lemma ReplaceKeepsLives(s: State, step: Step)
    requires LivesInv(s) && (step.Retry? || step.Persist? || step.Create?) && Enabled(s, step)
    ensures LivesInv(Apply(s, step))
  {
    ReplacedLife(s, step);
    OthersAreKept(s, step);
    OneLifeChanges(s, Apply(s, step), step.id);
  }

  lemma OthersAreKept(s: State, step: Step)
    requires s.lives.Keys == s.rows.Keys && (step.Retry? || step.Persist? || step.Create?) && Enabled(s, step)
    ensures var t := Apply(s, step);
      && t.rows.Keys == t.lives.Keys == s.rows.Keys + {step.id}
      && (forall i :: i in s.rows && i != step.id ==> t.rows[i] == s.rows[i] && t.lives[i] == s.lives[i])
      && (forall i :: i != step.id ==> t.claimants[i] == s.claimants[i])
  {
  }

  lemma ReplacedLife(s: State, step: Step)
    requires LivesInv(s) && (step.Retry? || step.Persist? || step.Create?) && Enabled(s, step)
    ensures var t := Apply(s, step);
      step.id in t.rows && LifeInv(t.rows[step.id], LifeOf(t, step.id), t.claimants[step.id])
  {
    if step.id in s.rows {
      assert LifeInv(s.rows[step.id], LifeOf(s, step.id), s.claimants[step.id]);
    }
  }

  lemma OneLifeChanges(s: State, t: State, id: Id)
    requires LivesInv(s) && t.rows.Keys == t.lives.Keys == s.rows.Keys + {id}
    requires LifeInv(t.rows[id], LifeOf(t, id), t.claimants[id])
    requires forall i :: i in s.rows && i != id ==> t.rows[i] == s.rows[i] && t.lives[i] == s.lives[i]
    requires forall i :: i != id ==> t.claimants[i] == s.claimants[i]
    ensures LivesInv(t)
  {
    forall i | i in t.rows ensures LifeInv(t.rows[i], LifeOf(t, i), t.claimants[i]) {
      if i != id {
        assert LifeInv(s.rows[i], LifeOf(s, i), s.claimants[i]);
      }
    }
  }

  lemma StepKeepsLives(s: State, step: Step)
    requires LivesInv(s) && Enabled(s, step)
    ensures LivesInv(Apply(s, step))
  {
    WrittenIsApplied(s, step);
    var w := Written(s, step);
    if w.Some? {
      WriteKeepsLives(s, w.value.0, w.value.1, Apply(s, step));
    } else if step.Retry? || step.Persist? || step.Create? {
      ReplaceKeepsLives(s, step);
    } else {
      var t := Apply(s, step);
      forall id | id in t.rows ensures LifeInv(t.rows[id], LifeOf(t, id), t.claimants[id]) {
        assert LifeInv(s.rows[id], LifeOf(s, id), s.claimants[id]);
      }
    }
  }

  lemma TurnKeepsAudit(a: Audit, item: Item, answer: Answer, db: Db, row: Payment, version: nat)
    requires SoundAudit(a) && item.version <= version
    requires if item.version == version then SameTerms(item.snapshot, row)
             else item.snapshot.orderId != "" ==> item.snapshot.orderId != row.orderId
    ensures SoundAudit(AuditTurn(a, item, answer, db, row, version))
  {
  }

  lemma StepKeepsAudit(s: State, step: Step)
    requires ItemsInv(s) && AuditInv(s) && Enabled(s, step)
    ensures AuditInv(Apply(s, step))
  {
    if step.Evaluate? {
      var item := s.workers[step.worker].todo[0];
      assert ItemInv(s, item);
      TurnKeepsAudit(s.audit, item, step.answer, step.db, s.rows[item.id], LifeOf(s, item.id).version);
    }
  }

  /** What a turn adds to the counters and to the audit keeps them in balance. */
  lemma TurnBalances(t: Tally, a: Audit, item: Item, answer: Answer, db: Db, row: Payment, version: nat)
    ensures var action, moved := Decide(item.snapshot, answer), row.status.Pending?;
      var u, b := Record(t, action, moved, db), AuditTurn(a, item, answer, db, row, version);
      && u.totalEvaluated == t.totalEvaluated
      && u.completed - t.completed == |b.completions| + b.undoneCompletions - |a.completions| - a.undoneCompletions
      && u.failed - t.failed == |b.rejections| + b.lateRejections + b.undoneRejections - |a.rejections| - a.lateRejections - a.undoneRejections
      && u.quarantined - t.quarantined == |b.quarantines| - b.unreported - |a.quarantines| + a.unreported
      && Counted(u) - Counted(t) + b.silent - a.silent == 1 + b.twice - a.twice
  {
  }

  /** The evaluated payments that the counters account for. */
  function Counted(t: Tally): nat {
    t.completed + t.failed + t.quarantined + t.skipped + t.errors
  }

  /** A turn is counted exactly once unless a completion came too late, or a transition's end was not seen to succeed. */
  lemma CountedOnceIff(t: Tally, action: Action, moved: bool, db: Db)
    ensures Counted(Record(t, action, moved, db)) == Counted(t) + 1
            <==> !(action.Complete? && !moved && db.Fine?)
                 && !((action.Reject? || (action.Complete? && moved)) && (db.RollsBack? || db.AnswerLost?))
  {
  }

  lemma StepKeepsSums(s: State, step: Step)
    requires ItemsInv(s) && SumsInv(s) && Enabled(s, step)
    ensures SumsInv(Apply(s, step))
  {
    match step
    case Select(w, _, ids) => UpdateSums(s.workers, w, Apply(s, step).workers[w]);
    case Evaluate(w, answer, db) =>
      assert ItemInv(s, s.workers[w].todo[0]);
      EvaluateKeepsSums(s, w, answer, db);
    case _ =>
  }

  lemma EvaluateKeepsSums(s: State, w: nat, answer: Answer, db: Db)
    requires SumsInv(s) && w < |s.workers| && s.workers[w].todo != [] && s.workers[w].todo[0].id in s.rows
    ensures SumsInv(EvaluateStep(s, w, answer, db))
  {
    var worker := s.workers[w];
    var item := worker.todo[0];
    var row := s.rows[item.id];
    var next := Worker(worker.todo[1..], Record(worker.tally, Decide(item.snapshot, answer), row.status.Pending?, db));
    TurnBalances(worker.tally, s.audit, item, answer, db, row, LifeOf(s, item.id).version);
    UpdateSums(s.workers, w, next);
    FieldsAddUp(worker.tally);
    FieldsAddUp(next.tally);
  }

  lemma FieldsAddUp(t: Tally)
    ensures Field(t, 0) == t.totalEvaluated && Field(t, 1) == t.completed && Field(t, 2) == t.failed && Field(t, 3) == t.quarantined
    ensures Field(t, 1) + Field(t, 2) + Field(t, 3) + Field(t, 4) + Field(t, 5) == Counted(t)
  {
  }

  lemma StepKeepsInv(s: State, step: Step)
    requires Inv(s) && Enabled(s, step)
    ensures Inv(Apply(s, step))
  {
    StepKeepsItems(s, step);
    StepKeepsLives(s, step);
    StepKeepsAudit(s, step);
    StepKeepsSums(s, step);
  }

  /** What stays of a payment over a run. */
  ghost predicate RowKept(s: State, t: State, id: Id)
    requires id in s.rows
  {
    && id in t.rows && (s.rows[id].quarantine.Some? ==> t.rows[id].quarantine.Some?)
    && LifeOf(s, id).begun == LifeOf(t, id).begun && LifeOf(s, id).left <= LifeOf(t, id).left
    && LifeOf(s, id).retries <= LifeOf(t, id).retries && LifeOf(s, id).overwrites <= LifeOf(t, id).overwrites
  }

  lemma {:induction false} RunKeepsInv(s: State, steps: seq<Step>)
    requires Inv(s) && IsTrace(s, steps)
    ensures Inv(Exec(s, steps)) && forall id :: id in s.rows ==> RowKept(s, Exec(s, steps), id)
    decreases |steps|
  {
    if steps != [] {
      var t := Apply(s, steps[0]);
      StepKeepsInv(s, steps[0]);
      RunKeepsInv(t, steps[1..]);
      forall id | id in s.rows ensures RowKept(s, Exec(s, steps), id) {
        StepEvolves(s, steps[0], id);
        assert RowKept(t, Exec(t, steps[1..]), id);
      }
    }
  }

  lemma InitialInv(s: State)
    requires Initial(s)
    ensures Inv(s)
  {
    forall f | 0 <= f < 6 ensures Sum(s.workers, f) == 0 && Open(s.workers) == 0 {
      SumOfZero(s.workers, f);
    }
    assert Sum(s.workers, 0) == Sum(s.workers, 1) == Sum(s.workers, 2) == Sum(s.workers, 3) == Sum(s.workers, 4) == Sum(s.workers, 5) == 0;
  }

  // ------------------------------------------------------------ what reconciliation guarantees

  /**
   Over any interleaving, provider answers and database failures: every completion agrees with the terms
   its worker selected, and with the payment's own order if and only if that was not replaced
   in between; every rejection is on an order unpaid after more than three attempts, and every
   quarantine on a paid one that differs. The completions reported are those made plus those rolled back, the failures
   reported those made, rolled back or too late; every evaluated payment is in one count, except
   for the silent ones and for those counted twice.
   */
  lemma ReconciliationIsSound(s: State, steps: seq<Step>)
    requires Initial(s) && IsTrace(s, steps)
    ensures var t := Exec(s, steps);
      var a := t.audit;
      && (forall i :: 0 <= i < |a.completions| ==> SoundCompletion(a.completions[i]))
      && (forall i :: 0 <= i < |a.rejections| ==> SoundRejection(a.rejections[i]))
      && (forall i :: 0 <= i < |a.quarantines| ==> SoundQuarantining(a.quarantines[i]))
      && Sum(t.workers, 1) == |a.completions| + a.undoneCompletions
      && Sum(t.workers, 2) == |a.rejections| + a.lateRejections + a.undoneRejections
      && Sum(t.workers, 3) + a.unreported == |a.quarantines|
      && Sum(t.workers, 0) + a.twice
         == Open(t.workers) + Sum(t.workers, 1) + Sum(t.workers, 2) + Sum(t.workers, 3) + Sum(t.workers, 4) + Sum(t.workers, 5) + a.silent
  {
    InitialInv(s);
    RunKeepsInv(s, steps);
  }

  /**
   How often a payment leaves PENDING: once for its creation, once for each retry and once for each persist
   that found it moved on, less one if it is PENDING now. There is at most one such persist
   for its creation and for each retry.
   */
  lemma LeavesPendingOncePerOpening(s: State, steps: seq<Step>, id: Id)
    requires Initial(s) && IsTrace(s, steps) && id in Exec(s, steps).rows
    ensures var l, p := LifeOf(Exec(s, steps), id), Exec(s, steps).rows[id];
      && l.left + (if p.status.Pending? then 1 else 0) == l.begun + l.retries + l.overwrites
      && l.begun <= 1 && l.overwrites <= l.begun + l.retries
      && (l.overwrites == 0 ==> l.left <= 1 + l.retries)
  {
    InitialInv(s);
    RunKeepsInv(s, steps);
    assert LifeInv(Exec(s, steps).rows[id], LifeOf(Exec(s, steps), id), Exec(s, steps).claimants[id]);
  }

  /** A payment that has left PENDING is PENDING again only after a retry or a late persist. */
  lemma OnlyReopeningReturnsToPending(s: State, before: seq<Step>, after: seq<Step>, id: Id)
    requires Initial(s) && IsTrace(s, before) && IsTrace(Exec(s, before), after)
    requires id in Exec(s, before).rows && !Exec(s, before).rows[id].status.Pending?
    ensures var m, t := Exec(s, before), Exec(Exec(s, before), after);
      && id in t.rows
      && (t.rows[id].status.Pending? ==>
            LifeOf(m, id).retries + LifeOf(m, id).overwrites < LifeOf(t, id).retries + LifeOf(t, id).overwrites)
  {
    InitialInv(s);
    RunKeepsInv(s, before);
    var m := Exec(s, before);
    RunKeepsInv(m, after);
    assert RowKept(m, Exec(m, after), id);
    assert LifeInv(m.rows[id], LifeOf(m, id), m.claimants[id]);
    assert LifeInv(Exec(m, after).rows[id], LifeOf(Exec(m, after), id), Exec(m, after).claimants[id]);
  }

  /** A quarantined payment is not selected by any later run. */
  lemma QuarantineIsFinal(s: State, before: seq<Step>, after: seq<Step>, id: Id, later: Step)
    requires Initial(s) && IsTrace(s, before) && IsTrace(Exec(s, before), after)
    requires id in Exec(s, before).rows && Exec(s, before).rows[id].quarantine.Some?
    requires later.Select? && Enabled(Exec(Exec(s, before), after), later)
    ensures id !in later.ids
  {
    InitialInv(s);
    RunKeepsInv(s, before);
    RunKeepsInv(Exec(s, before), after);
    assert RowKept(Exec(s, before), Exec(Exec(s, before), after), id);
  }
}
