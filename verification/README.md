# LabourBaba backend: a model of its concurrent cores

The LabourBaba backend delivers notifications through a transactional outbox
shared by many workers, limits requests with counters kept in Redis, fills the
slots of a job requirement by racing transactions, reconciles payments with the
provider, prunes and exports its tables, scopes its queries by policy, and
starts and stops its own parts in order. This project models those cores and
proves what they guarantee over every input, every interleaving and every
pattern of failures.

`dafny verify dfyconfig.toml` checks the whole project.

| file | contents |
|---|---|
| `OutboxTable.dfy` | a row of `notification_outbox` and what each statement does to it |
| `OutboxProtocol.dfy` | the lease protocol as interleaved atomic steps, and the invariant every step keeps |
| `OutboxTheorems.dfy` | what the protocol guarantees to workers that present their lease |
| `OutboxTraces.dfy` | what holds in every interleaving, lease or no lease |
| `OutboxColumns.dfy` | which step writes which column, and what; the channels of an event over whole traces |
| `OutboxUnguarded.dfy` | outcome calls without the lease: exactly when they do no harm, and what they can lose |
| `OutboxStamping.dfy` | channel recording that stamps `updated_at`, met by workers that present their lease |
| `OutboxQueue.dfy` | the order in which claims empty the queue; claim paths that agree |
| `OutboxService.dfy` | the service itself, method by method, on the table it owns |
| `RateLimiter.dfy`, `RateLimitMiddleware.dfy`, `OtpLimiter.dfy` | the counter script, traces of calls, the middleware loop, the three-dimensional OTP limiters |
| `CapacityRace.dfy` | N booking transactions against one row with a CHECK constraint |
| `PaymentReconciliation.dfy`, `PaymentRuns.dfy`, `PaymentService.dfy` | interleaved reconciliation workers among order creation, retries, webhooks and refunds; runs that go wrong; the batch loop of one worker |
| `SqlBackup.dfy`, `SqlReader.dfy`, `SqlExport.dfy` | the printing of a dump and its scanner; a reader of dumps; the round trip and the export loop |
| `LocationRetention.dfy` | the bounded-batch deletion loop |
| `Policies.dfy` | a filter language, and each read policy against its query scope |
| `Lifecycle.dfy` | startup and shutdown interleaved at their awaits |
| `Options.dfy`, `Numbers.dfy`, `Selections.dfy` | what the others share |

## What the model takes for granted

- Workers share a non-decreasing clock. From reading `now` to running the claim
  less time passes than the stale threshold (`ValidConfig`; the statement
  timeout in `src/config/databasePoolConfig.ts:75-77` supports it).
- A worker that presents its lease reports a failure after the clock has moved
  past its claim (`Guarded`). A failure call reads in one step and writes in
  another; the instants it takes for `available_at`, `failed_at` and
  `updated_at` are one instant between the two.
- An acknowledgement carries an instant that is not before the row's last write,
  every other statement the instant at which it takes effect. Rows locked by a
  claim are touched by nobody else until it commits or rolls back,
  and a statement that waited sees the latest committed row (Read Committed,
  section 13.2.1 of the PostgreSQL manual).
- The unique index on the idempotency key makes an insertion atomic, and
  `created_at` is the instant of the insertion. Identifiers are not reused.
- The Redis script is atomic. TTL rounds to the nearest second; whether a key is
  gone at the instant it expires at or a millisecond later is left open
  (`RateLimiter.EDGE`), and everything is proved for either. A call may fail
  before or after the script took effect, or bring back something that is not
  the script's pair.
- The provider never issues an order id twice.
- `provider`, `db`, `hash`, `arrivals`, `rivals`, `at` and `reply` parameters
  stand for the payment provider, the database, the digest, the other writers
  and cleaners, the clock and Redis; nothing is known of them except what a
  contract states.

## Where code and documentation disagree

The model follows the code.

- `src/services/outboxService.ts:502` announces a first backoff of 5 s; the code
  gives 15 s (`OutboxTable.BackoffBounds`).
- `src/services/outboxService.ts:304` and `:374` say that channel recording does
  not write `updated_at`; the column is declared `@updatedAt`
  (`prisma/schema.prisma:543`), so the ORM may stamp it. The recording step
  carries an optional stamp and the theorems hold either way. But a stamp costs
  the worker its lease: with leases presented, an event whose workers record a
  channel first is never finished
  (`OutboxStamping.RecordedFirstIsNeverFinished`).
- `src/workers/outboxWorker.ts:225`, `:237`, `:244` and `:251` make the outcome
  calls without `expectedClaimedAt`. `OutboxTraces` states what is guaranteed
  all the same; `OutboxUnguarded` shows what is not, and says exactly when an
  attempt is lost (`AttemptsAreExactIff`) and when somebody else's claim is ended
  (`EndsOnlyItsClaimIff`).
- The limiter promises that fail_closed keys are never bypassed
  (`src/middlewares/rateLimiter.ts:80-82`). An answer that is not an array is
  taken for a first hit (`:104`) and admitted past the limit
  (`RateLimiter.WindowBound` has the exact condition,
  `RateLimiter.GarbledAnswersOverrun` the overrun).
- Reports call the limiter a sliding window
  (`LABOURBABA_FEATURE_FORENSIC_VERIFICATION.md:70`). It is a fixed window: up
  to twice the limit within one window length, and that is reached
  (`RateLimiter.SlidingBound`, `RateLimiter.SlidingBoundIsTight`).
- `resetAfterSeconds` is sent as Retry-After (section 10.2.3 of RFC 9110), but
  TTL is rounded, so waiting that long may be too short by up to half a second
  (`RateLimiter.RetryAfterIsEnoughIff`).
- `src/middlewares/otpRateLimiter.ts:138` announces the whole window, where the
  other refusals announce what is left of it (`OtpLimiter.Announce`).
- `src/services/paymentReconciliationService.ts:130` counts a failure whether or
  not the transition took place, and `:106` and `:130` count inside a
  transaction that may still be rolled back (`PaymentRuns.FailuresAreOverreported`,
  `PaymentRuns.RolledBackCompletionIsReported`).
- The transition map says that a completed payment can only be refunded
  (`src/features/payment/paymentServices.ts:48-56`). The write that persists an
  order (`:307-315`) looks at no status, and a worker with an old snapshot
  completes a payment that has been retried since
  (`PaymentRuns.RetriedPaymentCompletesOnOldOrder`).
- The retention loop takes a short batch for the last one
  (`src/services/locationRetentionService.ts:77-80`); a second cleaner makes it
  stop early (`LocationRetention.SecondCleanerLeavesRows`).
- `src/lifecycle/lifecycleManager.ts:156` writes READY without looking at the
  shutdown flag, and what startup starts late is released by nobody
  (`Lifecycle.ReadyAfterSignalIff`, `Lifecycle.LeaksAfterSignalIff`).

## Model

| member | source | states |
|---|---|---|
| `OutboxTheorems.LeasesNeverRepeat` | src/services/outboxService.ts:141-165 | in every interleaving of claimers, with locking and committing as separate steps, the lease tokens of an event strictly increase, so no two claims of it carry the same lease |
| `OutboxTheorems.LeaseMatchesItsGenerationOnly` | src/services/outboxService.ts:424-440 | a lease ever given out for a row matches the outcome call's WHERE clause if and only if its claim is still the open one and nothing has stamped the row since |
| `OutboxTheorems.EndedClaimChangesNothing` | src/services/outboxService.ts:424-449 | a worker whose claim ended, by an outcome, a takeover or a reconciliation, changes nothing with its late outcome, whether success or failure |
| `OutboxTheorems.EffectiveOutcomeEndsItsClaim` | src/services/outboxService.ts:461-527 | an outcome that takes effect ends exactly its own claim; the read-then-update of a failure adds one attempt to the current attempts, never losing or doubling one; no other row changes |
| `OutboxTheorems.OneEndingPerClaim` | src/services/outboxService.ts:424-449 | each claim has at most one ending, and an outcome that ended a claim showed the lease of that claim |
| `OutboxTheorems.Accounting` | src/services/outboxService.ts:477-545 | claims = successes + failures + takeovers + reconciliations + 1 if PROCESSING; attempts = effective failures; an open event has an attempt left |
| `OutboxTheorems.CausesPartition` | src/services/outboxService.ts:424-545 | every ending of a claim has exactly one of the four causes |
| `OutboxTheorems.NoEventIsLost` | src/services/outboxService.ts:578-599 | an event that is no longer in the table ended by a delivery or by a final rejection |
| `OutboxUnguarded.AttemptsAreExactIff` | src/services/outboxService.ts:469-515 | in every interleaving, lease or no lease, no failure is counted twice, and every effective failure is counted if and only if none took effect after another one had since it read the row |
| `OutboxUnguarded.FailureAddsOneIff` | src/services/outboxService.ts:469-515 | a failure that overlaps no other adds exactly one attempt; one that does leaves fewer attempts than failures; as long as nothing was lost, adding exactly one and not overlapping are the same |
| `OutboxUnguarded.OverlappingFailureCanAddOne` | src/services/outboxService.ts:469-515 | a reachable run in which, an attempt having been lost, an overlapping failure adds exactly one |
| `OutboxUnguarded.EndsOnlyItsClaimIff` | src/services/outboxService.ts:424-467 | an outcome without the lease, success or failure, by the worker of claim i ends nothing but claim i if and only if the event is finished or claim i is the open one; it ends another claim if and only if the row is PROCESSING under a later one |
| `OutboxUnguarded.UnguardedFailuresLoseAnAttempt` | src/services/outboxService.ts:469-515 | a reachable run in which two failure calls without the lease both take effect and one attempt is counted |
| `OutboxUnguarded.UnguardedWorkerEndsAnotherClaim` | src/workers/outboxWorker.ts:225-251 | a reachable run in which a worker that lost its row to a takeover ends the new claimer's claim, because it shows no lease |
| `OutboxStamping.DeadLeaseStaysDead` | src/services/outboxService.ts:425-431 | in a run of workers that present their lease, a lease that no longer matches its row never matches it again |
| `OutboxStamping.RecordedFirstIsNeverFinished` | prisma/schema.prisma:543 | if recordings stamp `updated_at` and every worker records a channel before it presents its lease, no run finishes the event or spends an attempt on it |
| `OutboxStamping.LateAcknowledgementRevivesIff` | src/features/customer_notification/customer_notification.service.ts:141-149 | an acknowledgement brings a dead lease back if and only if the event is open and the instant it writes is that lease |
| `OutboxProtocol.LeaseIsLive` | src/services/outboxService.ts:425-431 | a row whose `updated_at` equals any lease it was ever given is PROCESSING under that very lease |
| `OutboxProtocol.StepKeepsInv` | src/services/outboxService.ts:137-599 | every atomic step of every worker keeps the protocol's invariant: generations, attempts, times, keys, locks and failure calls in flight |
| `OutboxProtocol.RunKeepsInv` | src/services/outboxService.ts:137-599 | the invariant holds after any run |
| `OutboxTraces.StepKeepsSafe` | src/services/outboxService.ts:137-599 | the part of the invariant that needs no lease is kept by every step of any worker |
| `OutboxTraces.ConcurrentBatchesAreDisjoint` | src/services/outboxService.ts:149-163 | claims in flight never share a row |
| `OutboxTraces.TerminalIsAbsorbing` | src/services/outboxService.ts:424-515 | a SENT or FAILED row keeps its status over any continuation, for as long as it exists |
| `OutboxTraces.GoneStaysGone` | src/services/outboxService.ts:578-599 | a pruned event never comes back |
| `OutboxTraces.PrunedOnlyWhenFinished` | src/services/outboxService.ts:555-599 | a row disappears only after it was SENT or FAILED: cleanup never removes a PENDING or PROCESSING row |
| `OutboxTraces.OpenEventsBecomeClaimable` | src/services/outboxService.ts:148-163 | an open event left alone has an attempt left and can be claimed after max(300 s, stale threshold); PROCESSING implies `available_at` <= `updated_at` |
| `OutboxTraces.RetentionIsKept` | src/services/outboxService.ts:555-599 | over every trace: a SENT event never acknowledged is not deleted before its creation + the unacknowledged retention, an acknowledged one not before its acknowledgement + the acknowledged retention, a FAILED one not before its failure + the failed retention |
| `OutboxTraces.DeletableIff` | src/services/outboxService.ts:578-599 | a finished event can be deleted at an instant if and only if the retention of its kind is over; FAILED always has `failed_at` |
| `OutboxTraces.IdempotencyWindow` | src/services/outboxService.ts:56-127 | one row per idempotency key at any time, and insertions under one key at least the shortest retention apart |
| `OutboxColumns.ChannelsChangeOnlyByRecording` | src/services/outboxService.ts:267-391 | over every trace a channel of an event changes only by a recording of that event and channel: SENT stays SENT across failures, takeovers and claims until one comes |
| `OutboxColumns.ColumnsHaveTheirWriters` | src/services/outboxService.ts:137-599 | no step writes a column that is not its own: attempts, due time, error and `failed_at` only by a failure, `processed_at` by a success, `acknowledged_at` by an acknowledgement, key, creation and maximum by none |
| `OutboxColumns.ClaimWrites` | src/services/outboxService.ts:158-163 | a claim writes status and lease and leaves the rest of the row as it was |
| `OutboxColumns.MarksWrite` | src/services/outboxService.ts:433-440 | what a success, a reconciliation and an acknowledgement write, and on which rows |
| `OutboxColumns.RecordingWrites` | src/services/outboxService.ts:304-382 | a recorded success is SENT with its instant and no error; a failure is FAILED with the error and keeps the instant; only on the channel named |
| `OutboxColumns.FailureWrites` | src/services/outboxService.ts:477-515 | what an effective failure writes: final or a retry after 15 s, 45 s, 135 s and then 300 s, the error and the instants |
| `OutboxColumns.BackoffIsRetryDelay` | src/services/outboxService.ts:502-504 | the formula gives 15 s, 45 s, 135 s and then 300 s |
| `OutboxQueue.ClaimIsLockThenCommit` | src/services/outboxService.ts:148-163 | the service's claim is the protocol's lock step followed by its commit |
| `OutboxQueue.DrainIsOldestFirst` | src/services/outboxService.ts:148-163 | n claims of size b at one instant take exactly the min(n*b, E) oldest of E eligible rows, in disjoint batches, and empty the queue if and only if n*b >= E |
| `OutboxQueue.OldestIsUnique` | src/services/outboxService.ts:154-155 | with distinct creation times ORDER BY and LIMIT have one possible answer |
| `OutboxQueue.FallbackAgreesWithCte` | src/services/outboxService.ts:206-259 | with nothing locked and distinct creation times the fallback returns the same rows and leaves the same table as the CTE |
| `OutboxQueue.ReconcileThenClaimTakesTheSame` | src/services/outboxService.ts:533-545 | in every reachable state, reconciling first, by an earlier clock, changes neither what a claim may take nor what it returns |
| `OutboxTable.BackoffBounds` | src/services/outboxService.ts:503-504 | the backoff never shrinks from attempt to attempt and stays within 15 s and 300 s |
| `OutboxTable.TotalBackoffOfFiveAttempts` | src/services/outboxService.ts:477-504 | with five attempts an event waits at most 495 s in backoff, and exactly that after four retries |
| `OutboxService.GivenKeyIsUsed` | src/services/outboxService.ts:56-58 | a key the caller gives is used as it is |
| `OutboxService.DefaultKeysAgreeIff` | src/services/outboxService.ts:56-58 | without one, two events get the same key if and only if they agree in type, aggregate and recipient |
| `OutboxService.OutboxService.FindByKey` | src/services/outboxService.ts:61-70 | an event under the key if there is one, and None only if there is none |
| `OutboxService.OutboxService.CreateOutboxEvent` | src/services/outboxService.ts:72-130 | the event found by the look-up, else the new one with every column initial, else None exactly if the key was taken meanwhile; no other row changes and keys stay unique |
| `OutboxService.OutboxService.Select` | src/services/outboxService.ts:154-155 | the loop picks min(limit, pool) rows, none of them younger than a row it leaves |
| `OutboxService.OutboxService.ClaimPendingEvents` | src/services/outboxService.ts:137-203 | the oldest due rows that are not locked become PROCESSING with the lease `now`; every other column of them, and every other row, is as it was; they are returned as stored; a due row is left only behind a full batch of no younger ones |
| `OutboxService.OutboxService.ClaimFallback` | src/services/outboxService.ts:205-259 | the same contract, column by column, as the CTE path, nothing being locked |
| `OutboxService.OutboxService.MarkEventSuccess` | src/services/outboxService.ts:424-449 | it is the protocol's success step; effective only on an open row under the lease shown, at no attempt, on no other row, and only once: afterwards no lease matches |
| `OutboxService.OutboxService.FindForFailure` | src/services/outboxService.ts:469-475 | it finds the row exactly if the protocol's read step is possible in every state with this table |
| `OutboxService.OutboxService.MarkEventFailure` | src/services/outboxService.ts:477-527 | if nothing came between read and write, one attempt more, FAILED exactly if permanent or attempts are used up, otherwise PENDING after the delay of that attempt; the error and instants written, the other columns kept |
| `OutboxService.OutboxService.ReconcileStaleEvents` | src/services/outboxService.ts:533-552 | exactly the stale rows become PENDING and lose their lease and nothing else; they are counted, none is left, and what could be claimed still can be |
| `OutboxService.OutboxService.CleanupAgedEvents` | src/services/outboxService.ts:565-609 | per kind, exactly the rows past their own cutoff go; the others are unchanged, no open row is among the deleted, and the deleted are counted |
| `OutboxService.OutboxService.RecordChannel` | src/services/outboxService.ts:304-399 | the channel named gets its status, instant and error, the other one and all other columns stay (but `updated_at` if stamped); an unknown id changes nothing |
| `RateLimiter.ScriptHeals` | src/middlewares/rateLimiter.ts:41-52 | every executed call leaves a live key that will expire; an immortal key is healed by one call |
| `RateLimiter.ScriptKeepsExpiry` | src/middlewares/rateLimiter.ts:41-52 | a call on a live key, admitted or denied, adds one and never moves the expiry |
| `RateLimiter.ScriptCases` | src/middlewares/rateLimiter.ts:41-52 | count, expiry and TTL for a key that is absent, immortal or live, and for a window that is not positive |
| `RateLimiter.VerdictIff` | src/middlewares/rateLimiter.ts:104-150 | for every call: unavailable if and only if unanswered and fail_closed, exceeded if and only if the answer counts past the limit, let through if and only if ok; what remains and what is announced |
| `RateLimiter.ResetIsTheRest` | src/middlewares/rateLimiter.ts:104-122 | the announced wait is the rest of the window to the nearest second, or the whole window when less than half a second is left |
| `RateLimiter.WindowLaw` | src/middlewares/rateLimiter.ts:86-151 | over every trace and every pattern of Redis failures and fail policies, of the calls that hit a window exactly as many as were left of its limit are answered within it or lost |
| `RateLimiter.WindowBound` | src/middlewares/rateLimiter.ts:86-151 | a window of a fail_closed key lets through at most what was left of its limit plus the late ones; at most what was left if and only if no more were late than were lost within the limit, and always if no answer is garbled |
| `RateLimiter.GarbledAnswersOverrun` | src/middlewares/rateLimiter.ts:104-122 | for every limit, window and excess there is a trace of a fail_closed key whose window lets the limit and that excess through |
| `RateLimiter.LateIsGarbled` | src/middlewares/rateLimiter.ts:104-122 | only an answer that is not the script's lets a request through past the limit |
| `RateLimiter.ClosedNeverFailsOpen` | src/middlewares/rateLimiter.ts:123-137 | a fail_closed key lets no unanswered request through |
| `RateLimiter.OpenAdmitsTheUnanswered` | src/middlewares/rateLimiter.ts:139-149 | over every trace, on a fail_open key exactly the unanswered calls are let through without an answer, all of them |
| `RateLimiter.OpenRefusesIff` | src/middlewares/rateLimiter.ts:104-149 | a call that fails open is refused if and only if its answer counts past the limit |
| `RateLimiter.WindowsAreApart` | src/middlewares/rateLimiter.ts:41-52 | the window after next opens at least one full window length after the next can |
| `RateLimiter.SlidingBound` | src/middlewares/rateLimiter.ts:86-151 | over every trace, in any interval of one window length, a fail_closed key lets through at most twice its limit and the late ones, and at most twice its limit if no answer is garbled |
| `RateLimiter.SlidingBoundIsTight` | src/middlewares/rateLimiter.ts:86-151 | for every limit and window, and either rule of expiry, there is a trace that reaches twice the limit within one window length |
| `RateLimiter.FailClosedAdmitsOnlyServed` | src/middlewares/rateLimiter.ts:123-137 | behind fail_closed no failed call to Redis is ever admitted |
| `RateLimiter.RemainingIsExact` | src/middlewares/rateLimiter.ts:104-122 | an admitted call told remaining = k is followed by exactly min(hits, k) passes in its window, less the answers lost within the limit, plus the late ones and those that fail open |
| `RateLimiter.RetryAfterIsEnoughIff` | src/middlewares/rateLimiter.ts:104-122 | the first call after exactly `resetAfterSeconds` is admitted if and only if rounding did not cut the wait short; with whole seconds left, if and only if the key is gone at its last instant |
| `RateLimitMiddleware.Redis.Eval` | src/middlewares/rateLimiter.ts:41-52 | the script, command by command, counts, expires and answers as one function of the stored entry and touches no other key |
| `RateLimitMiddleware.Redis.IncrementRateLimit` | src/middlewares/rateLimiter.ts:86-151 | the verdict for each fate of the call and each fail policy, written out: an unanswered call is let through with remaining 1 if it fails open and unavailable if it fails closed; an answered one goes by the count |
| `RateLimitMiddleware.Redis.CheckKeys` | src/middlewares/rateLimiter.ts:156-248 | the request goes on exactly if every key admits it; otherwise the keys up to the first refusal, and no others, are charged; 503 exactly if that call went unanswered, and its wait is announced |
| `RateLimitMiddleware.ChecksAreATrace` | src/middlewares/rateLimiter.ts:156-248 | the loop's answers are the outcomes of the trace of its calls, so the trace theorems apply to it |
| `RateLimitMiddleware.OnlyChargedKeysChange` | src/middlewares/rateLimiter.ts:156-248 | a key that is not charged keeps its counter |
| `OtpLimiter.PrefixesDiffer` | src/middlewares/otpRateLimiter.ts:43-154 | whatever the hash, counters of different limiters or dimensions never share a key |
| `OtpLimiter.Limit` | src/middlewares/otpRateLimiter.ts:43-276 | a request passes exactly if every dimension it has admits it; stopped early, it charges only the dimensions already checked; which refusal it gets |
| `OtpLimiter.CallsAreIpPhoneDevice` | src/middlewares/otpRateLimiter.ts:50-153 | the checks, their keys, limits and order: IP, then phone, then device, all fail_closed |
| `OtpLimiter.RefusalMeans` | src/middlewares/otpRateLimiter.ts:85-153 | 503 exactly if Redis did not answer; otherwise 429 with the refusing counter's wait, or the whole window for the send limiter's device |
| `OtpLimiter.SharedKeyBound` | src/middlewares/otpRateLimiter.ts:50-153 | for any hash, mix of the two limiters and their dimensions, interleaving and failures, the requests let through of all identifiers sharing a key keep to the dimension's limit per window, except for the late ones; there are none if no answer is garbled |
| `OtpLimiter.SharedKeySlidingBound` | src/middlewares/otpRateLimiter.ts:172-275 | the same with twice the limit in any interval of one window length |
| `OtpLimiter.PassingIsCounted` | src/middlewares/otpRateLimiter.ts:172-275 | a check that lets its request go on, on whatever answer, is counted on the key it charged, so the bound covers every passing request on each of its keys |
| `CapacityRace.StepKeepsInv` | scripts/critical-path-release-gate.ts:380-407 | every statement of every transaction keeps the count, the lock and the bookings in agreement |
| `CapacityRace.NeverOverbooked` | scripts/critical-path-release-gate.ts:380-407 | at every moment of every interleaving the committed count is the initial one plus the committed bookings, and at most needed |
| `CapacityRace.ExactlyTheFreeSlotsAreTaken` | scripts/critical-path-release-gate.ts:380-417 | once all have ended with no unrelated abort, exactly min(N, free slots) succeeded, although capacity reads may be stale |
| `CapacityRace.GateSixPasses` | scripts/critical-path-release-gate.ts:409-417 | 20 contenders for one slot end with one booking and 19 rejections |
| `CapacityRace.ConstraintIsNeeded` | prisma/migrations/20260921020000_booking_capacity_upper_bound/migration.sql:21-26 | without the CHECK constraint there is an interleaving that overbooks |
| `CapacityRace.Requirement.IncrementFilled` | scripts/critical-path-release-gate.ts:380-407 | the increment is rejected on a full row and otherwise takes the row lock |
| `PaymentReconciliation.ReconciliationIsSound` | src/services/paymentReconciliationService.ts:59-134 | over any interleaving with retries, persists, webhooks and refunds, any provider answers and database failures: every completion is on a paid order that agrees with the terms selected, and with the payment's own order if and only if that was not replaced in between; every rejection is on a created order of more than 3 attempts, every quarantine on a paid one that differs as its reason says; each count is what was made plus what was rolled back, too late or unreported |
| `PaymentReconciliation.CountedOnceIff` | src/services/paymentReconciliationService.ts:65-142 | a turn is counted exactly once unless a completion came too late, or a transition's end was not seen to succeed, and only then |
| `PaymentReconciliation.DecisionIff` | src/services/paymentReconciliationService.ts:60-134 | each outcome of a turn if and only if its condition on order id, order status, amount, currency and attempts holds |
| `PaymentReconciliation.UpperIgnoresCase` | src/services/paymentReconciliationService.ts:82-85 | currencies agree if and only if they are equal but for case |
| `PaymentReconciliation.OtherWrites` | src/features/payment/paymentServices.ts:226-315 | what creation, retry, persist, a failed order, webhooks and refunds write to the payment, and that they write nothing else |
| `PaymentReconciliation.LeavesPendingOncePerOpening` | src/features/payment/paymentServices.ts:48-125 | a payment leaves PENDING once for its creation, for each retry and for each persist that found it moved on, less one if it is PENDING; there is at most one such persist per creation and retry |
| `PaymentReconciliation.OnlyReopeningReturnsToPending` | src/features/payment/paymentServices.ts:250-315 | a payment that has left PENDING is PENDING again only after a retry or such a persist |
| `PaymentRuns.RetriedPaymentCompletesOnOldOrder` | src/features/payment/paymentServices.ts:252-315 | a run in which a payment retried for 200 is completed on the old order of 100, and the completed payment is put back to PENDING |
| `PaymentReconciliation.QuarantineIsFinal` | src/services/paymentReconciliationService.ts:40-48 | a quarantined payment is selected by no later run |
| `PaymentRuns.FailuresAreOverreported` | src/services/paymentReconciliationService.ts:121-134 | a run in which a failure is reported and no payment failed |
| `PaymentRuns.RolledBackCompletionIsReported` | src/services/paymentReconciliationService.ts:98-108 | a run in which a completion is reported, and an error for the same payment, and no payment changed |
| `PaymentService.UndisturbedRunIsATrace` | src/services/paymentReconciliationService.ts:59-147 | the loop over a batch is the trace in which nobody comes between its turns |
| `PaymentService.PaymentReconciliationService.FindStale` | src/services/paymentReconciliationService.ts:37-57 | distinct selectable payments, oldest first, at most 50, and none older left out |
| `PaymentService.TurnMeans` | src/services/paymentReconciliationService.ts:59-142 | a turn completes, fails or quarantines the payment exactly under its condition and if the write is applied, leaves it and all others alone otherwise, and moves exactly its counters |
| `PaymentService.PaymentReconciliationService.ReconcilePayment` | src/services/paymentReconciliationService.ts:59-142 | the loop body is that turn, for each fate of its write |
| `PaymentService.PaymentReconciliationService.ReconcileStalePayments` | src/services/paymentReconciliationService.ts:37-147 | the payments evaluated are those the query selects; the rows and the result record are those of judging each by its snapshot, in order |
| `SqlBackup.BodyOfDoubled` | scripts/backup-db.ts:252-259 | a quoted text ends exactly at its own closing quote, whatever it contains |
| `SqlBackup.DumpScans` | scripts/backup-db.ts:206-263 | scanning the dump by the quote-doubling rule (section 5.3 of ISO/IEC 9075-2) ends no literal early |
| `SqlExport.DumpRoundTrip` | scripts/backup-db.ts:206-263 | a reader that knows only SQL reads the dump back as the three header lines and, for every table and row in order, the table and each column name with its value: NULL for null alone, numbers and booleans as their words, texts and dates as literals, objects as jsonb |
| `SqlBackup.NameRoundTripsIff` | scripts/backup-db.ts:252-260 | a name, printed without doubling, is read back if and only if it holds no double quote |
| `SqlBackup.TableOrder` | scripts/backup-db.ts:242-246 | the export order is a permutation of the available tables with the preferred ones first, in their order |
| `SqlExport.Export` | scripts/backup-db.ts:206-265 | the chunks of the nested loops, joined and read back, are the header and every row of every table |
| `LocationRetention.LocationRetentionService.CleanupExpiredLocationHistory` | src/services/locationRetentionService.ts:47-84 | for any choice LIMIT makes, any fresh rows arriving and any other cleaners, the loop ends after deleted / b + 1 batches, deletes only rows expired from the start, and leaves none unless its last batch lost a row to another cleaner; if nobody touches an expired row, exactly these are deleted |
| `LocationRetention.ShortBatchFinishesIff` | src/services/locationRetentionService.ts:77-80 | a short batch has left no expired row if and only if all of them fitted into it or another cleaner has just deleted the others |
| `LocationRetention.SecondCleanerLeavesRows` | src/services/locationRetentionService.ts:77-80 | for every batch size there is a short batch, cut short by another cleaner, that leaves an expired row behind |
| `LocationRetention.LocationRetentionService.DeleteBatch` | src/services/locationRetentionService.ts:66-73 | min(b, expired) rows, all of them expired, are picked, and those that no other cleaner has taken are deleted and counted |
| `LocationRetention.BatchSize` | src/services/locationRetentionService.ts:48 | 1000 unless given, at least 1, at most 5000 |
| `LocationRetention.ArrivalsExpireNothing` | src/services/locationRetentionService.ts:47-84 | rows that arrive fresh add nothing to the expired ones, so the loop's measure does not grow |
| `Policies.JobScopeAgreesIff` | src/policies/job.policy.ts:188-214 | the read scope matches exactly the requested jobs that `canRead` (lines 34-73) allows, except for an actor of no known role meeting the nil UUID |
| `Policies.JobListAgrees` | src/policies/job.policy.ts:219-238 | the list scope matches exactly the readable jobs; only an admin can narrow them by customer |
| `Policies.JobQueriesReturnTheReadable` | src/policies/job.policy.ts:34-73 | over any set of rows without the nil UUID, both queries return, in order, what a filter by the policy keeps |
| `Policies.RequirementScopeAgreesIff` | src/policies/requirement.policy.ts:17-114 | scope and policy agree except for an actor of no known role meeting the nil UUID |
| `Policies.BookingScopeAgreesIff` | src/policies/booking.policy.ts:14-199 | scope and policy agree except for an actor of no known role meeting the nil UUID |
| `Policies.ChatScopeAgreesIff` | src/policies/chat.policy.ts:13-82 | for every spelling of the role and every booking id, scope and policy agree except for an unknown role meeting the nil UUID |
| `Policies.DispatchScopeAgreesIff` | src/policies/dispatch.policy.ts:15-108 | scope and policy agree except for a customer or unknown role meeting the nil UUID |
| `Policies.PaymentScopeAgreesIff` | src/policies/payment.policy.ts:40-95 | the scope on payments agrees with the policy on their booking, except for a worker or unknown role meeting the nil UUID |
| `Policies.ReviewScopeAgreesIff` | src/policies/review.policy.ts:39-98 | scope and policy agree for every known role if and only if review and booking name the same customer and worker |
| `Policies.JobReaders` | src/policies/job.policy.ts:34-73 | who may read a job, in terms of its rows; others of a known role get 404, unknown roles 403 |
| `Policies.RequirementReaders` | src/policies/requirement.policy.ts:17-54 | who may read a requirement; others of a known role get 404, unknown roles 403 |
| `Policies.Readers` | src/policies/booking.policy.ts:14-49 | who may read bookings, reviews, conversations, dispatches and payments |
| `Policies.Refusals` | src/policies/dispatch.policy.ts:15-38 | which refusals are 404 and which are 403 |
| `Policies.LowerIgnoresCase` | src/policies/chat.policy.ts:13-16 | roles are compared without regard to case |
| `Lifecycle.ShutdownRunsOnceAndInOrder` | src/lifecycle/lifecycleManager.ts:163-262 | for any signals at any time the shutdown body is entered at most once, and TERMINATED implies that every release step ran, in order |
| `Lifecycle.NothingClosesBeforeItsUsers` | src/lifecycle/lifecycleManager.ts:184-245 | in every interleaving timers and loops stop first, servers before the workers, the workers before queues, Redis and the database, the database last |
| `Lifecycle.PlanShape` | src/lifecycle/lifecycleManager.ts:184-245 | which release steps there are, in which order, and that a server is closed if and only if it is registered |
| `Lifecycle.NeverReadyAgain` | src/lifecycle/lifecycleManager.ts:163-262 | once startup has returned or thrown and a signal was taken, READY is never reported again |
| `Lifecycle.ReadyAfterSignalIff` | src/lifecycle/lifecycleManager.ts:55-158 | READY can follow the first signal if and only if startup had neither returned nor thrown when the signal came |
| `Lifecycle.LeaksAfterSignalIff` | src/lifecycle/lifecycleManager.ts:98-158 | TERMINATED can be reported with timers or workers still running if and only if startup had neither returned nor thrown when the first signal came |
| `Lifecycle.LifecycleManager.BeginShutdown` | src/lifecycle/lifecycleManager.ts:163-172 | a second signal changes nothing; the first sets the flag and the state |

## Left out

- The calls into Prisma, pg, ioredis, BullMQ, Socket.IO, FCM and Razorpay: the table, the counter store and the provider's answer stand for them.
- The outbox worker's delivery loop, the `notification_delivery` table and the acknowledgement endpoints beyond the write they make on the outbox row.
- The columns of an outbox row that no statement changes (event type, aggregate, recipient, payload, correlation id).
- An acknowledgement whose UPDATE waited so long that the row was written after its instant is not a step of the protocol; `OutboxStamping.LateAcknowledgementRevivesIff` says exactly what it can do to a lease.
- OutboxService.OutboxService.ClaimPendingEvents: ties in `created_at` are broken arbitrarily, as ORDER BY leaves them; the order of the returned rows is not modelled.
- Loss or eviction of keys by Redis, and the deprecated in-memory store of the limiter.
- How the OTP limiters normalise a phone or find a device id: a request carries the results; a route's key builder likewise gives the calls of the middleware.
- The checks a webhook makes before it completes, fails or flags a payment, and the order of a refund's writes: the model lets them happen at any time. Waiting times, logging, metrics and the audit record of the batch loop.
- SqlExport.DumpRoundTrip: names with a double quote are excluded, as `SqlBackup.NameRoundTripsIff` says they must be; how a number, date or object becomes text is not modelled, and a date is read back as the literal it is.
- The pg_dump path, checksums, encryption and upload of the backup script.
- Lifecycle: the forced exit after ten seconds and the exit code, which only cut a run short; whether a server is there to be closed is decided when the signal comes; errors in closing the sockets, which the source ignores, are not distinguished from success.
- `canReadBookings` in the job policy, whose comment and code disagree about workers, and the write permissions of all policies.
- Session rotation, dispatch acceptance, the booking and job state machines, configuration, metrics, schemas, error handling and the other scripts: thin, or easy members only.
