/**
 The notification_outbox table: one row, and what each statement of the outbox
 service does to one row. Times are milliseconds on the clock shared by the
 worker instances. The columns that no statement ever changes (event type,
 aggregate, recipient, payload, correlation id) are not part of the model.
 */
module OutboxTable {
  import opened Options

  type Id = nat
  type Time = int

  datatype Status = Pending | Processing | Sent | Failed
  datatype Channel = Socket | Fcm
  datatype ChannelStatus = ChannelPending | ChannelSent | ChannelFailed
  datatype ChannelState = ChannelState(status: ChannelStatus, sentAt: Option<Time>, error: Option<string>)

  datatype Row = Row(
    key: string,
    status: Status,
    socket: ChannelState,
    fcm: ChannelState,
    attempts: nat,
    maxAttempts: nat,
    availableAt: Time,
    processedAt: Option<Time>,
    failedAt: Option<Time>,
    lastError: Option<string>,
    acknowledgedAt: Option<Time>,
    createdAt: Time,
    updatedAt: Time)

  type Table = map<Id, Row>

  const DEFAULT_MAX_ATTEMPTS: nat := 5
  const MAX_BACKOFF: Time := 300_000

  predicate Open(r: Row) {
    r.status.Pending? || r.status.Processing?
  }

  function NewRow(key: string, at: Time): (r: Row) {
    var untried := ChannelState(ChannelPending, None, None);
    Row(key, Pending, untried, untried, 0, DEFAULT_MAX_ATTEMPTS, at, None, None, None, None, at, at)
  }

  // ---------------------------------------------------------------- claiming

  /** The WHERE clause of the claim. */
  predicate Claimable(r: Row, now: Time, staleBefore: Time) {
    || (r.status.Pending? && r.availableAt <= now)
    || (r.status.Processing? && r.updatedAt <= staleBefore)
  }

  function ClaimRow(r: Row, now: Time): (c: Row) {
    r.(status := Processing, updatedAt := now)
  }

  // ---------------------------------------------------------------- outcomes

  /** The WHERE clause shared by the two outcome calls; `lease` is expectedClaimedAt. */
  predicate OutcomeMatches(r: Row, lease: Option<Time>) {
    Open(r) && (lease.Some? ==> r.updatedAt == lease.value)
  }

  function SucceedRow(r: Row, at: Time): (s: Row) {
    r.(status := Sent, processedAt := Some(at), updatedAt := at)
  }

  function Pow3(n: nat): (p: nat)
    ensures p >= 1
  {
    if n == 0 then 1 else 3 * Pow3(n - 1)
  }

  /** min(300, 3^attempt * 5) seconds, in milliseconds. */
  function Backoff(attempt: nat): (b: Time) {
    var seconds := Pow3(attempt) * 5;
    (if seconds < 300 then seconds else 300) * 1000
  }

  predicate IsTerminalFailure(attempts: nat, maxAttempts: nat, permanent: bool) {
    permanent || attempts + 1 >= maxAttempts
  }

  /** The UPDATE of a failure call that earlier read `attempts` and `maxAttempts`. */
  function FailRow(r: Row, attempts: nat, maxAttempts: nat, permanent: bool, error: string, at: Time): (f: Row) {
    if IsTerminalFailure(attempts, maxAttempts, permanent) then
      r.(status := Failed, attempts := attempts + 1, failedAt := Some(at), lastError := Some(error), updatedAt := at)
    else
      r.(status := Pending, attempts := attempts + 1, availableAt := at + Backoff(attempts + 1),
         lastError := Some(error), updatedAt := at)
  }

  // ------------------------------------------------- recovery, channels, pruning

  predicate Stale(r: Row, staleBefore: Time) {
    r.status.Processing? && r.updatedAt <= staleBefore
  }

  function RequeueRow(r: Row, at: Time): (q: Row) {
    r.(status := Pending, updatedAt := at)
  }

  /** `stamp` is the instant the ORM writes into the @updatedAt column, if it writes one. */
  function ChannelRow(r: Row, channel: Channel, error: Option<string>, at: Time, stamp: Option<Time>): (c: Row) {
    var before := if channel.Socket? then r.socket else r.fcm;
    var after := if error.None? then ChannelState(ChannelSent, Some(at), None)
                 else before.(status := ChannelFailed, error := error);
    var recorded := if channel.Socket? then r.(socket := after) else r.(fcm := after);
    if stamp.Some? then recorded.(updatedAt := stamp.value) else recorded
  }

  /** The acknowledgement endpoints write updated_at too, whatever the status is. */
  function AcknowledgeRow(r: Row, at: Time): (a: Row) {
    r.(acknowledgedAt := Some(at), updatedAt := at)
  }

  predicate Prunable(r: Row, ackCutoff: Time, unackCutoff: Time, failedCutoff: Time) {
    || (r.status.Sent? && r.acknowledgedAt.Some? && r.acknowledgedAt.value <= ackCutoff)
    || (r.status.Sent? && r.acknowledgedAt.None? && r.createdAt <= unackCutoff)
    || (r.status.Failed? && r.failedAt.Some? && r.failedAt.value <= failedCutoff)
  }

  // ---------------------------------------------------------------- backoff

  lemma {:induction false} Pow3Monotone(m: nat, n: nat)
    requires m <= n
    ensures Pow3(m) <= Pow3(n)
    decreases n
  {
    if m < n {
      Pow3Monotone(m, n - 1);
    }
  }

  /** The delay never shrinks from one attempt to the next and stays within 15 s and 300 s. */
  lemma BackoffBounds(m: nat, n: nat)
    requires 1 <= m <= n
    ensures 15_000 <= Backoff(m) <= Backoff(n) <= MAX_BACKOFF
  {
    Pow3Monotone(1, m);
    Pow3Monotone(m, n);
    assert Pow3(1) == 3;
  }

  function TotalBackoff(retries: nat): (t: Time) {
    if retries == 0 then 0 else TotalBackoff(retries - 1) + Backoff(retries)
  }

  /** With the default five attempts an event waits at most 495 s in backoff, and exactly that after four retries. */
  lemma TotalBackoffOfFiveAttempts(retries: nat)
    requires retries < DEFAULT_MAX_ATTEMPTS
    ensures TotalBackoff(retries) <= 495_000
    ensures TotalBackoff(4) == 495_000
  {
    assert Pow3(1) == 3 && Pow3(2) == 9 && Pow3(3) == 27 && Pow3(4) == 81;
    assert TotalBackoff(1) == 15_000 && TotalBackoff(2) == 60_000;
    assert TotalBackoff(3) == 195_000 && TotalBackoff(4) == 495_000;
  }
}
