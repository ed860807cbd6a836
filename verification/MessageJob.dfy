/** What each transaction of the protocol does to one message, its attempts and the
    events published for it. */
module MessageJob {
  import opened SmsTypes
  import opened RetryPolicy

  const ACK_TIMEOUT_SECONDS: real := 10.0
  const LEASE_SECONDS: real := 300.0

  /** The columns an acceptance writes, one at a time or in bulk. */
  datatype Accepted = Accepted(
    tenant: TenantId,
    recipient: Recipient,
    maxAttempts: MaxAttempts,
    expiresAt: Option<Instant>,
    requestedOperator: Option<OperatorId>,
    requestedGateway: Option<GatewayId>,
    requestedSlot: Option<nat>,
    hasBody: bool)

  /** Tenant settings admit at least one attempt. */
  type MaxAttempts = n: nat | 1 <= n witness 1

  /** An error code as a device puts it on the wire. */
  datatype ReportedCode = Missing | Unknown | Known(code: ErrorCode)

  datatype DeferReason = Unavailable | AllAllowanceUsed | Busy

  function NormalizeErrorCode(code: ReportedCode): ErrorCode {
    if code.Known? then code.code else GENERIC_FAILURE
  }

  /** Some attempt's success is on record in the message row. */
  predicate WasSent(message: Message) {
    || message.status.Sent?
    || message.status.Delivered?
    || (message.status.Failed? && message.error == Some(DELIVERY_FAILED))
  }

  predicate IsExpiredAt(message: Message, now: Instant) {
    message.status.Expired? || (message.expiresAt.Some? && message.expiresAt.value <= now)
  }

  /** The latest attempt, at or below `n`, that device `g` made. */
  function LatestAttempt(attempts: map<nat, Attempt>, n: nat, g: GatewayId): (latest: Option<nat>)
    ensures latest.Some? ==> latest.value <= n && latest.value in attempts && attempts[latest.value].gateway == g
    ensures forall k :: k in attempts && attempts[k].gateway == g && k <= n ==> latest.Some? && k <= latest.value
  {
    if n in attempts && attempts[n].gateway == g then Some(n)
    else if n == 0 then None
    else LatestAttempt(attempts, n - 1, g)
  }

  /** The attempt a report by device `g` is about, if `g` took part in this message. */
  function OwnedAttempt(job: Job, g: GatewayId): (k: Option<nat>)
    ensures k.Some? ==> k.value in job.attempts && job.attempts[k.value].gateway == g
  {
    LatestAttempt(job.attempts, job.message.attempts, g)
  }

  /** The message is in flight under attempt `k`. */
  predicate IsCurrent(job: Job, k: nat)
    requires k in job.attempts
  {
    && k == job.message.attempts
    && job.message.sim == Some(job.attempts[k].sim)
    && InFlight(job.message.status)
  }

  function PutAttempt(job: Job, k: nat, status: AttemptStatus, error: Option<ErrorCode>): Job
    requires k in job.attempts
  {
    job.(attempts := job.attempts[k := job.attempts[k].(status := status, error := error)])
  }

  /** `updateCurrentAttempt`: nothing happens when the row is missing. */
  function PutCurrentAttempt(job: Job, status: AttemptStatus, error: Option<ErrorCode>): Job {
    if job.message.attempts in job.attempts then PutAttempt(job, job.message.attempts, status, error) else job
  }

  function Publish(job: Job, event: WebhookEvent): Job {
    job.(published := job.published + [event])
  }

  // ---- accept -----------------------------------------------------------------------

  function NewJob(request: Accepted): Job {
    Job(Message(request.tenant, request.recipient, Queued, None, None, 0, request.maxAttempts,
                None, None, None, request.expiresAt, request.requestedOperator,
                request.requestedGateway, request.requestedSlot, request.hasBody),
        map[], [])
  }

  // ---- dispatch ---------------------------------------------------------------------

  predicate Due(message: Message, now: Instant) {
    message.status.Queued? && (message.nextAttemptAt.None? || message.nextAttemptAt.value <= now)
  }

  function MarkExpired(job: Job): Job {
    job.(message := job.message.(status := Expired, error := Some(MESSAGE_EXPIRED)))
  }

  function MarkUndeliverable(job: Job): Job {
    job.(message := job.message.(status := Failed, error := Some(BODY_UNAVAILABLE)))
  }

  function DeferredError(error: Option<ErrorCode>, reason: DeferReason): Option<ErrorCode> {
    match reason
    case Unavailable => Some(NO_GATEWAY_AVAILABLE)
    case AllAllowanceUsed => Some(RECIPIENT_ALLOWANCE_EXHAUSTED)
    case Busy =>
      if error == Some(NO_GATEWAY_AVAILABLE) || error == Some(RECIPIENT_ALLOWANCE_EXHAUSTED) then None else error
  }

  function Defer(job: Job, until: Instant, reason: DeferReason): Job {
    job.(message := job.message.(nextAttemptAt := Some(until), error := DeferredError(job.message.error, reason)))
  }

  function Assign(job: Job, sim: SimId, gateway: GatewayId, now: Instant): Job {
    var message := job.message.(
      status := Assigned, sim := Some(sim), attempts := job.message.attempts + 1, assignedAt := Some(now),
      leaseExpiresAt := Some(now + ACK_TIMEOUT_SECONDS), nextAttemptAt := None, error := None);
    job.(message := message,
         attempts := job.attempts[message.attempts := Attempt(sim, gateway, AttemptAssigned, None, now)])
  }

  /** The socket closed before the hand-off: attempt `k` is rolled back, not counted. */
  function Requeue(job: Job, k: nat, now: Instant, random: Random): Job {
    job.(message := job.message.(
           status := Queued, sim := None, assignedAt := None, leaseExpiresAt := None,
           attempts := Max(0, job.message.attempts - 1),
           nextAttemptAt := Some(now + NoCapacityDelaySeconds(random) as real)),
         attempts := job.attempts - {k})
  }

  // ---- what devices report ----------------------------------------------------------

  function Acknowledge(job: Job, now: Instant): Job {
    PutCurrentAttempt(
      job.(message := job.message.(status := Sending, leaseExpiresAt := Some(now + LEASE_SECONDS))),
      AttemptSending, None)
  }

  /** Attempt `k` reports success while a newer attempt holds the message. */
  predicate CallsOffCurrent(job: Job, k: nat) {
    && InFlight(job.message.status)
    && job.message.attempts in job.attempts
    && job.message.attempts != k
  }

  /** A success of attempt `k`, whether it comes first, late, again, or with a delivery report. */
  function EnsureSent(job: Job, k: nat): Job
    requires k in job.attempts
  {
    if WasSent(job.message) then
      if job.attempts[k].status.AttemptSent? then job else PutAttempt(job, k, AttemptSent, None)
    else
      var settled := if CallsOffCurrent(job, k) then PutCurrentAttempt(job, AttemptFailed, Some(SUPERSEDED)) else job;
      var attempt := job.attempts[k];
      var message := job.message.(
        status := Sent, sim := Some(attempt.sim), assignedAt := Some(attempt.startedAt),
        leaseExpiresAt := None, nextAttemptAt := None, error := None, hasBody := false);
      Publish(PutAttempt(settled.(message := message), k, AttemptSent, None), SmsSent)
  }

  /** Whether a success reported by attempt `k` is counted: it is, once per attempt. */
  predicate CountsSend(job: Job, k: nat)
    requires k in job.attempts
  {
    !(WasSent(job.message) && job.attempts[k].status.AttemptSent?)
  }

  /** The message part of `retryOrFail`. */
  function RetryOrFail(job: Job, code: ErrorCode, now: Instant, random: Random): Job {
    match DecideRetry(Some(code), job.message.attempts, job.message.maxAttempts, random)
    case Retry(delay) =>
      job.(message := job.message.(
             status := Queued, sim := None, assignedAt := None, leaseExpiresAt := None,
             error := Some(code), nextAttemptAt := Some(now + delay as real)))
    case Stop(reason) =>
      Publish(job.(message := job.message.(
                     status := Failed, error := Some(if reason.Exhausted? then ATTEMPTS_EXHAUSTED else code),
                     leaseExpiresAt := None, hasBody := false)), SmsFailed)
  }

  function ApplyFailure(job: Job, code: ReportedCode, now: Instant, random: Random): Job {
    var error := NormalizeErrorCode(code);
    RetryOrFail(PutCurrentAttempt(job, AttemptFailed, Some(error)), error, now, random)
  }

  function ApplyLateFailure(job: Job, k: nat, code: ReportedCode): Job
    requires k in job.attempts
  {
    if Settled(job.attempts[k].status) then job
    else PutAttempt(job, k, AttemptFailed, Some(NormalizeErrorCode(code)))
  }

  /** A delivery report that repeats what is already on record. */
  predicate ReportIsKnown(message: Message, delivered: bool) {
    || message.status.Delivered?
    || (!delivered && message.status.Failed? && message.error == Some(DELIVERY_FAILED))
  }

  function Settle(job: Job, delivered: bool): Job {
    if delivered then
      Publish(job.(message := job.message.(status := Delivered)), SmsDelivered)
    else
      Publish(job.(message := job.message.(status := Failed, error := Some(DELIVERY_FAILED))), SmsFailed)
  }

  function DeliveryReport(job: Job, k: nat, delivered: bool): Job
    requires k in job.attempts
  {
    if ReportIsKnown(job.message, delivered) then job else Settle(EnsureSent(job, k), delivered)
  }

  // ---- sweeps, cancellation, released devices ----------------------------------------

  predicate LeaseExpired(message: Message, now: Instant) {
    && InFlight(message.status)
    && message.leaseExpiresAt.Some?
    && message.leaseExpiresAt.value <= now
  }

  function ReclaimLease(job: Job, now: Instant, random: Random): Job {
    RetryOrFail(PutCurrentAttempt(job, AttemptTimedOut, Some(LEASE_EXPIRED)), LEASE_EXPIRED, now, random)
  }

  predicate DeadlinePassed(message: Message, now: Instant) {
    IsWaiting(message.status) && message.expiresAt.Some? && message.expiresAt.value <= now
  }

  function Expire(job: Job): Job {
    Publish(job.(message := job.message.(status := Expired, error := Some(MESSAGE_EXPIRED), hasBody := false)),
            SmsExpired)
  }

  function Cancel(job: Job): Job {
    Publish(job.(message := job.message.(status := Cancelled, error := Some(CANCELLED_BY_CLIENT))), SmsCancelled)
  }

  /** It waits for a device that has stopped being its tenant's. */
  predicate Stranded(message: Message, tenant: TenantId, gateway: GatewayId) {
    message.tenant == tenant && message.requestedGateway == Some(gateway) && IsWaiting(message.status)
  }

  function FailStranded(job: Job): Job {
    Publish(job.(message := job.message.(status := Failed, error := Some(DEVICE_RELEASED), hasBody := false)),
            SmsFailed)
  }
}
