/** The vocabulary of the message delivery protocol: statuses, error codes and
    the rows of the tables that the protocol reads and writes. */
module SmsTypes {

  datatype Option<+T> = None | Some(value: T)

  type MessageId = nat
  type SimId = nat
  type GatewayId = nat
  type OperatorId = nat
  type TenantId = nat
  type Recipient = string

  /** Seconds on the platform's clock. */
  type Instant = real

  /** An operator day, as returned by the billing calendar. */
  type Day = int

  /** What `Math.random()` may return. */
  type Random = r: real | 0.0 <= r < 1.0 witness 0.0

  datatype SmsStatus =
    | Created | Queued | Assigned | Sending | Sent | Delivered | Failed | Cancelled | Expired

  datatype AttemptStatus = AttemptAssigned | AttemptSending | AttemptSent | AttemptFailed | AttemptTimedOut

  datatype ErrorCode =
    | VALIDATION_FAILED | UNAUTHENTICATED | FORBIDDEN | NOT_FOUND | RATE_LIMITED
    | IDEMPOTENCY_CONFLICT | TENANT_SUSPENDED | CLIENT_DISABLED
    | INVALID_NUMBER | MESSAGE_TOO_LONG | BLOCKED_RECIPIENT | MESSAGE_EXPIRED
    | BODY_UNAVAILABLE | DELIVERY_FAILED | SUPERSEDED | CANCELLED_BY_CLIENT
    | ATTEMPTS_EXHAUSTED | DUPLICATE_RECIPIENT
    | NO_GATEWAY_AVAILABLE | RECIPIENT_ALLOWANCE_EXHAUSTED | GATEWAY_NOT_FOUND
    | DEVICE_ALREADY_REGISTERED | DEVICE_ALREADY_CLAIMED | DEVICE_RELEASED | OPERATOR_NOT_FOUND
    | GATEWAY_OFFLINE | SIM_NOT_READY | NO_SERVICE | RADIO_OFF | SEND_TIMEOUT
    | LEASE_EXPIRED | GENERIC_FAILURE | QUOTA_EXCEEDED | PERMISSION_DENIED
    | USSD_UNSUPPORTED | USSD_FAILED | USSD_PARSE_FAILED
    | INTERNAL_ERROR | QUEUE_UNAVAILABLE

  const PERMANENT_ERROR_CODES: set<ErrorCode> := {
    INVALID_NUMBER, MESSAGE_TOO_LONG, BLOCKED_RECIPIENT, MESSAGE_EXPIRED, BODY_UNAVAILABLE,
    DELIVERY_FAILED, SUPERSEDED, DEVICE_RELEASED, CANCELLED_BY_CLIENT, ATTEMPTS_EXHAUSTED
  }

  predicate IsPermanentError(code: Option<ErrorCode>) {
    code.Some? && code.value in PERMANENT_ERROR_CODES
  }

  predicate IsTerminal(status: SmsStatus) {
    status.Delivered? || status.Failed? || status.Cancelled? || status.Expired?
  }

  /** What is not with a device yet, or is but was not acknowledged. */
  predicate IsCancellable(status: SmsStatus) {
    status.Created? || status.Queued? || status.Assigned?
  }

  predicate IsWaiting(status: SmsStatus) {
    status.Created? || status.Queued?
  }

  predicate InFlight(status: SmsStatus) {
    status.Assigned? || status.Sending?
  }

  /** An attempt that a device still holds, as far as the platform knows. */
  predicate Live(status: AttemptStatus) {
    status.AttemptAssigned? || status.AttemptSending?
  }

  /** An attempt its own device has reported on, or that was called off. */
  predicate Settled(status: AttemptStatus) {
    status.AttemptSent? || status.AttemptFailed?
  }

  /** Events published to the tenant's webhooks. */
  datatype WebhookEvent = SmsSent | SmsDelivered | SmsFailed | SmsCancelled | SmsExpired

  /** A row of `sms_messages`: the columns that decide some transition. */
  datatype Message = Message(
    tenant: TenantId,
    recipient: Recipient,
    status: SmsStatus,
    error: Option<ErrorCode>,
    sim: Option<SimId>,
    attempts: nat,
    maxAttempts: nat,
    assignedAt: Option<Instant>,
    leaseExpiresAt: Option<Instant>,
    nextAttemptAt: Option<Instant>,
    expiresAt: Option<Instant>,
    requestedOperator: Option<OperatorId>,
    requestedGateway: Option<GatewayId>,
    requestedSlot: Option<nat>,
    hasBody: bool)

  /** A row of `sms_attempts`. */
  datatype Attempt = Attempt(
    sim: SimId,
    gateway: GatewayId,
    status: AttemptStatus,
    error: Option<ErrorCode>,
    startedAt: Instant)

  /** A message row with its attempt rows, keyed by `attempt_no` as the unique index of
      `sms_attempts` keys them, and the events published for it, oldest first. */
  datatype Job = Job(message: Message, attempts: map<nat, Attempt>, published: seq<WebhookEvent>)

  /** The key of a row of `sim_daily_recipients`. */
  datatype Slot = Slot(sim: SimId, day: Day, recipient: Recipient)

  /** `sim_daily_recipients`: the rows present, with their `messages_sent`. */
  type Ledger = map<Slot, nat>

  function Max(a: int, b: int): int {
    if a >= b then a else b
  }

  function Min(a: int, b: int): int {
    if a <= b then a else b
  }
}
