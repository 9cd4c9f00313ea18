/**
 Read policies against query scopes: each policy decides on a loaded resource
 and also builds a filter that the database evaluates. The filters are values
 of a small language with an evaluator over rows and their relations.
 */
module Policies {
  import opened Options

  datatype Role = Admin | Customer | Worker | OtherRole
  datatype Actor = Actor(id: string, role: Role)

  /** A row with its columns and, where loaded, its related rows. */
  datatype Record = Record(columns: map<string, string>, relations: map<string, seq<Record>>)

  datatype Filter = Filter(conditions: seq<Condition>)
  datatype Condition =
    | Equals(column: string, value: string)
    | Some_(relation: string, matching: Filter)
    | Is(relation: string, matching: Filter)
    | Or(alternatives: seq<Filter>)

  predicate Eval(f: Filter, r: Record)
    decreases f
  {
    forall i :: 0 <= i < |f.conditions| ==> EvalCondition(f.conditions[i], r)
  }

  predicate EvalCondition(c: Condition, r: Record)
    decreases c
  {
    match c
    case Equals(column, value) => Is(r, column, value)
    case Some_(relation, f) => relation in r.relations && exists i :: 0 <= i < |r.relations[relation]| && Eval(f, r.relations[relation][i])
    case Is(relation, f) => relation in r.relations && |r.relations[relation]| == 1 && Eval(f, r.relations[relation][0])
    case Or(fs) => exists i :: 0 <= i < |fs| && Eval(fs[i], r)
  }

  predicate Is(r: Record, column: string, value: string) {
    column in r.columns && r.columns[column] == value
  }

  const NIL_UUID := "00000000-0000-0000-0000-000000000000"
  const NOTHING := Filter([Equals("id", NIL_UUID)])

  /** The spread of `{ column: value }`, or of nothing when the argument is missing or empty. */
  function Given(column: string, value: Option<string>): seq<Condition> {
    if value.Some? && value.value != "" then [Equals(column, value.value)] else []
  }

  predicate GivenHolds(r: Record, column: string, value: Option<string>) {
    value.Some? && value.value != "" ==> Is(r, column, value.value)
  }

  datatype Decision = Allowed | NotFound | Forbidden

  /** resource.relation?.some(x => x.column === value) */
  predicate AnyRelated(r: Record, relation: string, column: string, value: string) {
    relation in r.relations && exists i :: 0 <= i < |r.relations[relation]| && Is(r.relations[relation][i], column, value)
  }

  lemma EvalNone(r: Record)
    ensures Eval(Filter([]), r)
  {
  }

  lemma EvalOne(c: Condition, r: Record)
    ensures Eval(Filter([c]), r) <==> EvalCondition(c, r)
  {
    assert Filter([c]).conditions[0] == c;
  }

  lemma EvalAppend(a: seq<Condition>, b: seq<Condition>, r: Record)
    ensures Eval(Filter(a + b), r) <==> Eval(Filter(a), r) && Eval(Filter(b), r)
  {
    if Eval(Filter(a + b), r) {
      forall i | 0 <= i < |a| ensures EvalCondition(a[i], r) {
        assert EvalCondition((a + b)[i], r);
      }
      forall i | 0 <= i < |b| ensures EvalCondition(b[i], r) {
        assert EvalCondition((a + b)[|a| + i], r);
      }
    }
  }

  lemma EvalGiven(column: string, value: Option<string>, rest: seq<Condition>, r: Record)
    ensures Eval(Filter(Given(column, value) + rest), r) <==> GivenHolds(r, column, value) && Eval(Filter(rest), r)
  {
    EvalAppend(Given(column, value), rest, r);
    if value.Some? && value.value != "" {
      EvalOne(Equals(column, value.value), r);
    } else {
      EvalNone(r);
    }
  }

  function Related(relation: string, column: string, value: string): Filter {
    Filter([Some_(relation, Filter([Equals(column, value)]))])
  }

  lemma EvalRelated(relation: string, column: string, value: string, r: Record)
    ensures Eval(Related(relation, column, value), r) <==> AnyRelated(r, relation, column, value)
  {
    EvalOne(Some_(relation, Filter([Equals(column, value)])), r);
    if relation in r.relations {
      forall i | 0 <= i < |r.relations[relation]|
        ensures Eval(Filter([Equals(column, value)]), r.relations[relation][i]) <==> Is(r.relations[relation][i], column, value)
      {
        EvalOne(Equals(column, value), r.relations[relation][i]);
      }
    }
  }

  lemma EvalEither(a: Filter, b: Filter, r: Record)
    ensures Eval(Filter([Or([a, b])]), r) <==> Eval(a, r) || Eval(b, r)
  {
    EvalOne(Or([a, b]), r);
    assert [a, b][0] == a && [a, b][1] == b;
  }

  // ------------------------------------------------------------ jobs

  /** Some requirement of the job has a dispatch to the worker. */
  predicate HasDispatch(job: Record, worker: string) {
    "job_requirement" in job.relations &&
    exists i :: 0 <= i < |job.relations["job_requirement"]| && AnyRelated(job.relations["job_requirement"][i], "job_dispatch", "worker_id", worker)
  }

  function JobCanRead(a: Actor, job: Record): Decision {
    match a.role
    case Admin => Allowed
    case Customer => if Is(job, "customer_id", a.id) then Allowed else NotFound
    case Worker => if AnyRelated(job, "booking", "worker_id", a.id) || HasDispatch(job, a.id) then Allowed else NotFound
    case OtherRole => Forbidden
  }

  function WorkerOnJob(worker: string): seq<Condition> {
    [Or([Related("booking", "worker_id", worker),
         Filter([Some_("job_requirement", Related("job_dispatch", "worker_id", worker))])])]
  }

  function JobScopeRead(a: Actor, jobId: Option<string>): Filter {
    match a.role
    case Admin => Filter(Given("id", jobId))
    case Customer => Filter(Given("id", jobId) + [Equals("customer_id", a.id)])
    case Worker => Filter(Given("id", jobId) + WorkerOnJob(a.id))
    case OtherRole => NOTHING
  }

  function JobScopeList(a: Actor, customerId: Option<string>): Filter {
    match a.role
    case Admin => Filter(Given("customer_id", customerId))
    case Customer => Filter([Equals("customer_id", a.id)])
    case Worker => Filter(WorkerOnJob(a.id))
    case OtherRole => NOTHING
  }

  lemma EvalWorkerOnJob(worker: string, job: Record)
    ensures Eval(Filter(WorkerOnJob(worker)), job) <==> AnyRelated(job, "booking", "worker_id", worker) || HasDispatch(job, worker)
  {
    var viaBooking := Related("booking", "worker_id", worker);
    var dispatched := Related("job_dispatch", "worker_id", worker);
    var viaDispatch := Filter([Some_("job_requirement", dispatched)]);
    EvalEither(viaBooking, viaDispatch, job);
    EvalRelated("booking", "worker_id", worker, job);
    EvalOne(Some_("job_requirement", dispatched), job);
    if "job_requirement" in job.relations {
      forall i | 0 <= i < |job.relations["job_requirement"]|
        ensures Eval(dispatched, job.relations["job_requirement"][i])
                <==> AnyRelated(job.relations["job_requirement"][i], "job_dispatch", "worker_id", worker)
      {
        EvalRelated("job_dispatch", "worker_id", worker, job.relations["job_requirement"][i]);
      }
    }
  }

  /**
   The rows the read scope matches are those the policy allows (among the ones asked for), unless
   an actor of no known role meets a row that carries the nil UUID, and only then.
   */
  lemma JobScopeAgreesIff(a: Actor, job: Record, jobId: Option<string>)
    ensures (Eval(JobScopeRead(a, jobId), job) <==> GivenHolds(job, "id", jobId) && JobCanRead(a, job).Allowed?)
            <==> !(a.role.OtherRole? && Is(job, "id", NIL_UUID))
  {
    EvalNone(job);
    EvalOne(Equals("customer_id", a.id), job);
    EvalWorkerOnJob(a.id, job);
    EvalGiven("id", jobId, [], job);
    EvalGiven("id", jobId, [Equals("customer_id", a.id)], job);
    EvalGiven("id", jobId, WorkerOnJob(a.id), job);
    EvalOne(Equals("id", NIL_UUID), job);
    assert Given("id", jobId) + [] == Given("id", jobId);
  }

  /** The list scope matches exactly the readable jobs; only an admin may narrow them by customer. */
  lemma JobListAgrees(a: Actor, job: Record, customerId: Option<string>)
    requires !Is(job, "id", NIL_UUID)
    ensures Eval(JobScopeList(a, customerId), job)
            <==> JobCanRead(a, job).Allowed? && (a.role.Admin? ==> GivenHolds(job, "customer_id", customerId))
  {
    EvalNone(job);
    EvalOne(Equals("customer_id", a.id), job);
    EvalWorkerOnJob(a.id, job);
    EvalGiven("customer_id", customerId, [], job);
    EvalOne(Equals("id", NIL_UUID), job);
    assert Given("customer_id", customerId) + [] == Given("customer_id", customerId);
  }

  // ------------------------------------------------------------ requirements

  /** The to-one relation is loaded as a single row whose column has the value. */
  predicate RelatedIs(r: Record, relation: string, column: string, value: string) {
    relation in r.relations && |r.relations[relation]| == 1 && Is(r.relations[relation][0], column, value)
  }

  lemma EvalRelatedIs(relation: string, column: string, value: string, r: Record)
    ensures Eval(Filter([Condition.Is(relation, Filter([Equals(column, value)]))]), r) <==> RelatedIs(r, relation, column, value)
  {
    EvalOne(Condition.Is(relation, Filter([Equals(column, value)])), r);
    if relation in r.relations && |r.relations[relation]| == 1 {
      EvalOne(Equals(column, value), r.relations[relation][0]);
    }
  }

  function RequirementCanRead(a: Actor, requirement: Record): Decision {
    match a.role
    case Admin => Allowed
    case Customer => if RelatedIs(requirement, "job", "customer_id", a.id) then Allowed else NotFound
    case Worker =>
      if AnyRelated(requirement, "job_dispatch", "worker_id", a.id) || AnyRelated(requirement, "booking", "worker_id", a.id)
      then Allowed else NotFound
    case OtherRole => Forbidden
  }

  function RequirementScopeRead(a: Actor, id: Option<string>): Filter {
    match a.role
    case Admin => Filter(Given("id", id))
    case Customer => Filter(Given("id", id) + [Condition.Is("job", Filter([Equals("customer_id", a.id)]))])
    case Worker => Filter(Given("id", id) + [Or([Related("booking", "worker_id", a.id), Related("job_dispatch", "worker_id", a.id)])])
    case OtherRole => NOTHING
  }

  lemma RequirementScopeAgreesIff(a: Actor, r: Record, id: Option<string>)
    ensures (Eval(RequirementScopeRead(a, id), r) <==> GivenHolds(r, "id", id) && RequirementCanRead(a, r).Allowed?)
            <==> !(a.role.OtherRole? && Is(r, "id", NIL_UUID))
  {
    var booked, dispatched := Related("booking", "worker_id", a.id), Related("job_dispatch", "worker_id", a.id);
    EvalNone(r);
    EvalRelatedIs("job", "customer_id", a.id, r);
    EvalEither(booked, dispatched, r);
    EvalRelated("booking", "worker_id", a.id, r);
    EvalRelated("job_dispatch", "worker_id", a.id, r);
    EvalGiven("id", id, [], r);
    EvalGiven("id", id, [Condition.Is("job", Filter([Equals("customer_id", a.id)]))], r);
    EvalGiven("id", id, [Or([booked, dispatched])], r);
    EvalOne(Equals("id", NIL_UUID), r);
    assert Given("id", id) + [] == Given("id", id);
  }

  // ------------------------------------------------------------ bookings, conversations and dispatches

  /** The participants of a booking: its customer, its worker, or an admin. */
  predicate Participates(a: Actor, booking: Record) {
    a.role.Admin? || (a.role.Customer? && Is(booking, "customer_id", a.id)) || (a.role.Worker? && Is(booking, "worker_id", a.id))
  }

  function BookingCanRead(a: Actor, booking: Record): Decision {
    match a.role
    case Admin => Allowed
    case Customer => if Is(booking, "customer_id", a.id) then Allowed else NotFound
    case Worker => if Is(booking, "worker_id", a.id) then Allowed else NotFound
    case OtherRole => Forbidden
  }

  /** The scope shared by bookings, conversations and reviews, after the conditions on the id. */
  function ParticipantScope(a: Actor, narrowed: seq<Condition>): Filter {
    match a.role
    case Admin => Filter(narrowed)
    case Customer => Filter(narrowed + [Equals("customer_id", a.id)])
    case Worker => Filter(narrowed + [Equals("worker_id", a.id)])
    case OtherRole => NOTHING
  }

  lemma EvalParticipantScope(a: Actor, narrowed: seq<Condition>, r: Record)
    ensures Eval(ParticipantScope(a, narrowed), r) <==>
      if a.role.OtherRole? then Is(r, "id", NIL_UUID) else Eval(Filter(narrowed), r) && Participates(a, r)
  {
    EvalOne(Equals("customer_id", a.id), r);
    EvalOne(Equals("worker_id", a.id), r);
    EvalAppend(narrowed, [Equals("customer_id", a.id)], r);
    EvalAppend(narrowed, [Equals("worker_id", a.id)], r);
    EvalOne(Equals("id", NIL_UUID), r);
  }

  lemma BookingScopeAgreesIff(a: Actor, booking: Record, id: Option<string>)
    ensures (Eval(ParticipantScope(a, Given("id", id)), booking) <==> GivenHolds(booking, "id", id) && BookingCanRead(a, booking).Allowed?)
            <==> !(a.role.OtherRole? && Is(booking, "id", NIL_UUID))
  {
    EvalParticipantScope(a, Given("id", id), booking);
    EvalNone(booking);
    EvalGiven("id", id, [], booking);
    assert Given("id", id) + [] == Given("id", id);
  }

  function LowerChar(c: char): char {
    if 'A' <= c <= 'Z' then c + 32 as char else c
  }

  function Lower(s: string): string {
    seq(|s|, i requires 0 <= i < |s| => LowerChar(s[i]))
  }

  /** The chat policy lower-cases the role it is given. */
  function ChatRole(role: string): Role {
    match Lower(role)
    case "admin" => Admin
    case "customer" => Customer
    case "worker" => Worker
    case _ => OtherRole
  }

  function ChatCanRead(id: string, role: string, booking: Record): Decision {
    var r := Lower(role);
    if r == "admin" then Allowed
    else if r == "customer" && Is(booking, "customer_id", id) then Allowed
    else if r == "worker" && Is(booking, "worker_id", id) then Allowed
    else Forbidden
  }

  lemma ChatScopeAgreesIff(id: string, role: string, booking: Record, bookingId: string)
    ensures (Eval(ParticipantScope(Actor(id, ChatRole(role)), [Equals("id", bookingId)]), booking)
             <==> Is(booking, "id", bookingId) && ChatCanRead(id, role, booking).Allowed?)
            <==> !(ChatRole(role).OtherRole? && Is(booking, "id", NIL_UUID))
  {
    EvalParticipantScope(Actor(id, ChatRole(role)), [Equals("id", bookingId)], booking);
    EvalOne(Equals("id", bookingId), booking);
  }

  function DispatchCanRead(a: Actor, dispatch: Record): Decision {
    match a.role
    case Admin => Allowed
    case Worker => if Is(dispatch, "worker_id", a.id) then Allowed else NotFound
    case _ => Forbidden
  }

  function DispatchScopeRead(a: Actor, requirementId: Option<string>): Filter {
    match a.role
    case Admin => Filter(Given("requirement_id", requirementId))
    case Worker => Filter(Given("requirement_id", requirementId) + [Equals("worker_id", a.id)])
    case _ => NOTHING
  }

  lemma DispatchScopeAgreesIff(a: Actor, d: Record, requirementId: Option<string>)
    ensures (Eval(DispatchScopeRead(a, requirementId), d) <==> GivenHolds(d, "requirement_id", requirementId) && DispatchCanRead(a, d).Allowed?)
            <==> !((a.role.OtherRole? || a.role.Customer?) && Is(d, "id", NIL_UUID))
  {
    EvalNone(d);
    EvalOne(Equals("worker_id", a.id), d);
    EvalGiven("requirement_id", requirementId, [], d);
    EvalGiven("requirement_id", requirementId, [Equals("worker_id", a.id)], d);
    EvalOne(Equals("id", NIL_UUID), d);
    assert Given("requirement_id", requirementId) + [] == Given("requirement_id", requirementId);
  }

  // ------------------------------------------------------------ payments and reviews: decided on the booking

  function PaymentCanRead(a: Actor, booking: Record): Decision {
    if a.role.Admin? || (a.role.Customer? && Is(booking, "customer_id", a.id)) then Allowed else Forbidden
  }

  function PaymentScopeRead(a: Actor, bookingId: string): Filter {
    match a.role
    case Admin => Filter([Equals("booking_id", bookingId)])
    case Customer => Filter([Equals("booking_id", bookingId), Condition.Is("booking", Filter([Equals("customer_id", a.id)]))])
    case _ => NOTHING
  }

  /** The payment scope reaches through the payment to the booking the policy decides on. */
  lemma PaymentScopeAgreesIff(a: Actor, payment: Record, booking: Record, bookingId: string)
    requires "booking" in payment.relations && payment.relations["booking"] == [booking]
    ensures (Eval(PaymentScopeRead(a, bookingId), payment) <==> Is(payment, "booking_id", bookingId) && PaymentCanRead(a, booking).Allowed?)
            <==> !((a.role.OtherRole? || a.role.Worker?) && Is(payment, "id", NIL_UUID))
  {
    var through := Condition.Is("booking", Filter([Equals("customer_id", a.id)]));
    EvalOne(Equals("booking_id", bookingId), payment);
    EvalRelatedIs("booking", "customer_id", a.id, payment);
    EvalAppend([Equals("booking_id", bookingId)], [through], payment);
    assert [Equals("booking_id", bookingId), through] == [Equals("booking_id", bookingId)] + [through];
    EvalOne(Equals("id", NIL_UUID), payment);
  }

  function ReviewCanRead(a: Actor, booking: Record): Decision {
    if Participates(a, booking) then Allowed else Forbidden
  }

  ghost predicate ReviewScopeAgrees(a: Actor, review: Record, booking: Record, bookingId: string) {
    Eval(ParticipantScope(a, [Equals("booking_id", bookingId)]), review)
    <==> Is(review, "booking_id", bookingId) && ReviewCanRead(a, booking).Allowed?
  }

  /**
   The review scope looks at the review's own customer and worker, the policy at the booking's:
   they agree for every actor of a known role exactly if the two rows name the same people.
   */
  lemma ReviewScopeAgreesIff(review: Record, booking: Record, bookingId: string)
    requires Is(review, "booking_id", bookingId)
    requires forall c :: c in {"customer_id", "worker_id"} ==> c in review.columns && c in booking.columns
    ensures (forall a: Actor :: !a.role.OtherRole? ==> ReviewScopeAgrees(a, review, booking, bookingId))
            <==> review.columns["customer_id"] == booking.columns["customer_id"] && review.columns["worker_id"] == booking.columns["worker_id"]
  {
    assert "customer_id" in {"customer_id", "worker_id"} && "worker_id" in {"customer_id", "worker_id"};
    forall a: Actor | !a.role.OtherRole?
      ensures ReviewScopeAgrees(a, review, booking, bookingId) <==> (Participates(a, review) <==> Participates(a, booking))
    {
      EvalParticipantScope(a, [Equals("booking_id", bookingId)], review);
      EvalOne(Equals("booking_id", bookingId), review);
    }
    if forall a: Actor :: !a.role.OtherRole? ==> ReviewScopeAgrees(a, review, booking, bookingId) {
      assert ReviewScopeAgrees(Actor(review.columns["customer_id"], Customer), review, booking, bookingId);
      assert ReviewScopeAgrees(Actor(review.columns["worker_id"], Worker), review, booking, bookingId);
    }
  }

  // ------------------------------------------------------------ who may read, and what the others are told

  /**
   Who may read a job, in terms of its rows: an admin, its customer, and a worker with a booking on it or a dispatch
   on one of its requirements. The others of a known role are told that it does not exist.
   */
  lemma JobReaders(a: Actor, job: Record)
    ensures JobCanRead(a, job).Allowed? <==>
      || a.role.Admin?
      || (a.role.Customer? && "customer_id" in job.columns && job.columns["customer_id"] == a.id)
      || (a.role.Worker? && "booking" in job.relations &&
          exists i :: 0 <= i < |job.relations["booking"]| && Is(job.relations["booking"][i], "worker_id", a.id))
      || (a.role.Worker? && "job_requirement" in job.relations &&
          exists i :: 0 <= i < |job.relations["job_requirement"]| && AnyRelated(job.relations["job_requirement"][i], "job_dispatch", "worker_id", a.id))
    ensures !JobCanRead(a, job).Allowed? ==> JobCanRead(a, job) == if a.role.OtherRole? then Forbidden else NotFound
  {
  }

  /** Who may read a requirement: an admin, the customer of its job, and a worker dispatched to it or booked on it. */
  lemma RequirementReaders(a: Actor, r: Record)
    ensures RequirementCanRead(a, r).Allowed? <==>
      || a.role.Admin?
      || (a.role.Customer? && "job" in r.relations && |r.relations["job"]| == 1 && Is(r.relations["job"][0], "customer_id", a.id))
      || (a.role.Worker? && (AnyRelated(r, "job_dispatch", "worker_id", a.id) || AnyRelated(r, "booking", "worker_id", a.id)))
    ensures !RequirementCanRead(a, r).Allowed? ==> RequirementCanRead(a, r) == if a.role.OtherRole? then Forbidden else NotFound
  {
  }

  /**
   What those who may not read are told: that a booking or dispatch does not exist, if their role could have read it, and
   that they may not, otherwise; for payments, reviews and conversations always that they may not.
   */
  lemma Refusals(a: Actor, r: Record, role: string)
    ensures !BookingCanRead(a, r).Allowed? ==> BookingCanRead(a, r) == if a.role.OtherRole? then Forbidden else NotFound
    ensures !DispatchCanRead(a, r).Allowed? ==> DispatchCanRead(a, r) == if a.role.Worker? then NotFound else Forbidden
    ensures !PaymentCanRead(a, r).Allowed? ==> PaymentCanRead(a, r) == Forbidden
    ensures !ReviewCanRead(a, r).Allowed? ==> ReviewCanRead(a, r) == Forbidden
    ensures !ChatCanRead(a.id, role, r).Allowed? ==> ChatCanRead(a.id, role, r) == Forbidden
  {
  }

  /** Who may read the others: the participants of a booking, its review and its conversation; a dispatch's worker; a payment's customer. */
  lemma Readers(a: Actor, r: Record, role: string)
    ensures BookingCanRead(a, r).Allowed? <==> Participates(a, r)
    ensures ReviewCanRead(a, r).Allowed? <==> Participates(a, r)
    ensures ChatCanRead(a.id, role, r).Allowed? <==> Participates(Actor(a.id, ChatRole(role)), r)
    ensures DispatchCanRead(a, r).Allowed? <==> a.role.Admin? || (a.role.Worker? && Is(r, "worker_id", a.id))
    ensures PaymentCanRead(a, r).Allowed? <==> a.role.Admin? || (a.role.Customer? && Is(r, "customer_id", a.id))
  {
  }

  /** Roles are told apart without regard to case. */
  lemma LowerIgnoresCase(s: string, t: string)
    ensures Lower(s) == Lower(t) <==> |s| == |t| && forall i :: 0 <= i < |s| ==>
      s[i] == t[i] || ('A' <= s[i] <= 'Z' && s[i] as int + 32 == t[i] as int) || ('A' <= t[i] <= 'Z' && t[i] as int + 32 == s[i] as int)
  {
    if |s| == |t| {
      if Lower(s) == Lower(t) {
        forall i | 0 <= i < |s|
          ensures s[i] == t[i] || ('A' <= s[i] <= 'Z' && s[i] as int + 32 == t[i] as int) || ('A' <= t[i] <= 'Z' && t[i] as int + 32 == s[i] as int)
        {
          assert Lower(s)[i] == Lower(t)[i];
        }
      } else {
        var i :| 0 <= i < |s| && Lower(s)[i] != Lower(t)[i];
        assert s[i] != t[i];
      }
    } else {
      assert |Lower(s)| != |Lower(t)|;
    }
  }

  // ------------------------------------------------------------ whole result sets

  /** The rows a query with this filter returns. */
  function Matched(rows: seq<Record>, f: Filter): seq<Record> {
    if rows == [] then [] else (if Eval(f, rows[0]) then [rows[0]] else []) + Matched(rows[1..], f)
  }

  function ReadableJobs(a: Actor, jobs: seq<Record>): seq<Record> {
    if jobs == [] then [] else (if JobCanRead(a, jobs[0]).Allowed? then [jobs[0]] else []) + ReadableJobs(a, jobs[1..])
  }

  /** A query for jobs returns, in order, exactly the rows a filter by the policy would keep. */
  lemma {:induction false} JobQueriesReturnTheReadable(a: Actor, jobs: seq<Record>)
    requires forall i :: 0 <= i < |jobs| ==> !Is(jobs[i], "id", NIL_UUID)
    ensures Matched(jobs, JobScopeRead(a, None)) == ReadableJobs(a, jobs)
    ensures Matched(jobs, JobScopeList(a, None)) == ReadableJobs(a, jobs)
    decreases |jobs|
  {
    if jobs != [] {
      JobQueriesReturnTheReadable(a, jobs[1..]);
      JobScopeAgreesIff(a, jobs[0], None);
      JobListAgrees(a, jobs[0], None);
    }
  }
}
