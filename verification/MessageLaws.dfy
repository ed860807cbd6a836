/** Laws of one message's life: the invariant of its row and attempts, the direction it
    may move in, and the order of its published events. */
module MessageLaws {
  import opened SmsTypes
  import opened MessageJob
  import RetryPolicy

  ghost predicate HasSent(job: Job) {
    exists k :: k in job.attempts && job.attempts[k].status.AttemptSent?
  }

  /** The attempt rows: numbered 1..attempts, no SIM twice, only the last one live. */
  ghost predicate AttemptsShape(job: Job) {
    && (forall k :: k in job.attempts <==> 1 <= k <= job.message.attempts)
    && (forall i, j :: i in job.attempts && j in job.attempts && job.attempts[i].sim == job.attempts[j].sim ==> i == j)
    && (forall k :: k in job.attempts && Live(job.attempts[k].status) ==> k == job.message.attempts)
  }

  /** A lease belongs to a message in flight; one that ended may still show it. */
  predicate LeaseIsHeld(message: Message) {
    message.leaseExpiresAt.Some? ==> InFlight(message.status) || IsTerminal(message.status)
  }

  /** The message row agrees with its last attempt. */
  ghost predicate Agrees(job: Job) {
    var message, last := job.message, job.message.attempts;
    && message.attempts <= message.maxAttempts
    && LeaseIsHeld(message)
    && !message.status.Created?
    && (message.status.Queued? ==>
          && message.attempts < message.maxAttempts
          && message.sim.None? && message.assignedAt.None?
          && forall k :: k in job.attempts ==> !Live(job.attempts[k].status))
    && (InFlight(message.status) ==>
          && last in job.attempts
          && message.sim == Some(job.attempts[last].sim)
          && message.assignedAt == Some(job.attempts[last].startedAt)
          && message.leaseExpiresAt.Some?
          && job.attempts[last].status == (if message.status.Assigned? then AttemptAssigned else AttemptSending))
  }

  ghost predicate JobInv(job: Job) {
    && AttemptsShape(job)
    && Agrees(job)
    && (HasSent(job) ==> WasSent(job.message))
  }

  /** How far a message still has to go: no status change leaves it as it was. */
  function Rank(message: Message): int {
    var left := message.maxAttempts - message.attempts;
    match message.status
    case Created => 3 * left + 3
    case Queued => 3 * left + 3
    case Assigned => 3 * left + 5
    case Sending => 3 * left + 4
    case Expired => 3
    case Cancelled => 3
    case Sent => 2
    case Failed => if message.error == Some(DELIVERY_FAILED) then 1 else 3
    case Delivered => 0
  }

  ghost predicate SameRequest(a: Message, b: Message) {
    a.tenant == b.tenant && a.recipient == b.recipient && a.maxAttempts == b.maxAttempts && a.expiresAt == b.expiresAt
  }

  /** The attempts of `was` are all in `now`, and what a device settled stays settled. */
  ghost predicate AttemptsGrow(was: map<nat, Attempt>, now: map<nat, Attempt>) {
    forall k :: k in was ==>
                  && k in now
                  && now[k].sim == was[k].sim && now[k].gateway == was[k].gateway
                  && now[k].startedAt == was[k].startedAt
                  && (was[k].status.AttemptSent? ==> now[k].status.AttemptSent?)
                  && (Settled(was[k].status) ==> Settled(now[k].status))
  }

  /** What every step of every run does to every message: the one direction of its life. */
  ghost predicate Progress(was: Job, now: Job) {
    && SameRequest(was.message, now.message)
    && AttemptsGrow(was.attempts, now.attempts)
    && was.message.attempts <= now.message.attempts
    && was.published <= now.published
    && Rank(now.message) <= Rank(was.message)
    && (now.message.status != was.message.status ==> Rank(now.message) < Rank(was.message))
    && (WasSent(was.message) ==> WasSent(now.message) && now.message.attempts == was.message.attempts)
    && (WasSent(was.message) && !was.message.status.Sent? ==> !now.message.status.Sent?)
    && (was.message.status.Delivered? ==> now.message == was.message)
  }

  lemma ProgressIsReflexive(job: Job)
    ensures Progress(job, job)
  {
  }

  lemma ProgressIsTransitive(a: Job, b: Job, c: Job)
    requires Progress(a, b) && Progress(b, c)
    ensures Progress(a, c)
  {
  }

  /** One transition of a message keeps its invariant and moves it forward. */
  ghost predicate Lawful(was: Job, now: Job) {
    JobInv(was) ==> JobInv(now) && Progress(was, now)
  }

  lemma NewJobIsLawful(request: Accepted)
    ensures JobInv(NewJob(request)) && Rank(NewJob(request).message) == 3 * request.maxAttempts + 3
  {
  }

  lemma DispatchEndIsLawful(job: Job)
    requires job.message.status.Queued?
    ensures Lawful(job, MarkExpired(job)) && Lawful(job, MarkUndeliverable(job))
  {
  }

  lemma DeferIsLawful(job: Job, until: Instant, reason: DeferReason)
    requires job.message.status.Queued?
    ensures Lawful(job, Defer(job, until, reason))
  {
  }

  lemma AssignIsLawful(job: Job, sim: SimId, gateway: GatewayId, now: Instant)
    requires job.message.status.Queued?
    requires forall k :: k in job.attempts ==> job.attempts[k].sim != sim
    ensures Lawful(job, Assign(job, sim, gateway, now))
  {
  }

  /** A hand-off that fails leaves the attempts exactly as they were. */
  lemma RequeueUndoesAssign(job: Job, sim: SimId, gateway: GatewayId, now: Instant, random: Random)
    requires job.message.status.Queued? && JobInv(job)
    ensures var back := Requeue(Assign(job, sim, gateway, now), job.message.attempts + 1, now, random);
            && back.attempts == job.attempts
            && back.message == job.message.(error := None, leaseExpiresAt := None,
                                            nextAttemptAt := back.message.nextAttemptAt)
            && back.published == job.published
            && Lawful(job, back)
  {
    var back := Requeue(Assign(job, sim, gateway, now), job.message.attempts + 1, now, random);
    assert back.attempts == job.attempts;
  }

  lemma AcknowledgeIsLawful(job: Job, k: nat, now: Instant)
    requires k in job.attempts && IsCurrent(job, k) && job.message.status.Assigned?
    ensures Lawful(job, Acknowledge(job, now))
  {
  }

  /** A success always ends with a sent attempt on a message that counts as sent. */
  lemma EnsureSentSends(job: Job, k: nat)
    requires k in job.attempts && JobInv(job)
    ensures JobInv(EnsureSent(job, k))
    ensures HasSent(EnsureSent(job, k)) && WasSent(EnsureSent(job, k).message)
  {
    hide Rank;
    var sent := EnsureSent(job, k);
    assert k in sent.attempts && sent.attempts[k].status.AttemptSent?;
  }

  lemma EnsureSentProgresses(job: Job, k: nat)
    requires k in job.attempts && JobInv(job)
    ensures Progress(job, EnsureSent(job, k))
  {
    hide AttemptsShape;
  }

  lemma EnsureSentIsLawful(job: Job, k: nat)
    requires k in job.attempts
    ensures Lawful(job, EnsureSent(job, k))
    ensures JobInv(job) ==> HasSent(EnsureSent(job, k)) && WasSent(EnsureSent(job, k).message)
  {
    hide JobInv, Progress, HasSent, EnsureSent;
    if JobInv(job) {
      EnsureSentSends(job, k);
      EnsureSentProgresses(job, k);
    }
  }

  lemma RetryOrFailKeepsInv(job: Job, settled: AttemptStatus, code: ErrorCode, now: Instant, random: Random)
    requires InFlight(job.message.status) && JobInv(job)
    requires settled.AttemptFailed? || settled.AttemptTimedOut?
    ensures JobInv(RetryOrFail(PutCurrentAttempt(job, settled, Some(code)), code, now, random))
  {
    hide RetryPolicy.WithJitter, IsPermanentError;
  }

  lemma RetryOrFailProgresses(job: Job, settled: AttemptStatus, code: ErrorCode, now: Instant, random: Random)
    requires InFlight(job.message.status) && JobInv(job)
    requires settled.AttemptFailed? || settled.AttemptTimedOut?
    ensures Progress(job, RetryOrFail(PutCurrentAttempt(job, settled, Some(code)), code, now, random))
  {
    hide RetryPolicy.WithJitter, AttemptsShape;
  }

  lemma RetryOrFailIsLawful(job: Job, settled: AttemptStatus, code: ErrorCode, now: Instant, random: Random)
    requires InFlight(job.message.status)
    requires settled.AttemptFailed? || settled.AttemptTimedOut?
    ensures Lawful(job, RetryOrFail(PutCurrentAttempt(job, settled, Some(code)), code, now, random))
  {
    hide JobInv, Progress;
    if JobInv(job) {
      RetryOrFailKeepsInv(job, settled, code, now, random);
      RetryOrFailProgresses(job, settled, code, now, random);
    }
  }

  lemma LateFailureIsLawful(job: Job, k: nat, code: ReportedCode)
    requires k in job.attempts && !IsCurrent(job, k)
    ensures Lawful(job, ApplyLateFailure(job, k, code))
  {
  }

  lemma SettleIsLawful(job: Job, delivered: bool)
    requires HasSent(job) && !ReportIsKnown(job.message, delivered)
    ensures Lawful(job, Settle(job, delivered))
  {
    assert HasSent(Settle(job, delivered));
  }

  lemma DeliveryReportIsLawful(job: Job, k: nat, delivered: bool)
    requires k in job.attempts
    ensures Lawful(job, DeliveryReport(job, k, delivered))
  {
    if JobInv(job) && !ReportIsKnown(job.message, delivered) {
      var sent := EnsureSent(job, k);
      EnsureSentIsLawful(job, k);
      SettleIsLawful(sent, delivered);
      ProgressIsTransitive(job, sent, Settle(sent, delivered));
    }
  }

  lemma ExpiryIsLawful(job: Job)
    requires IsWaiting(job.message.status)
    ensures Lawful(job, Expire(job))
  {
  }

  lemma WaitingEndIsLawful(job: Job)
    requires IsWaiting(job.message.status)
    ensures Lawful(job, Expire(job)) && Lawful(job, FailStranded(job))
  {
    hide Expire;
    ExpiryIsLawful(job);
  }

  lemma CancelIsLawful(job: Job)
    requires IsCancellable(job.message.status)
    ensures Lawful(job, Cancel(job))
  {
  }
}
