/** What reports and lease sweeps come to, read off the columns: which attempt a report is about,
    which failures end a message, how long it waits for the next attempt, and what a success
    leaves behind. */
module ReportOutcomes {
  import opened SmsTypes
  import opened RetryPolicy
  import opened MessageJob
  import opened RecipientAllowance
  import opened DeliveryState
  import opened DeliveryProtocol
  import opened DispatchOutcomes

  // ---- which attempt ----------------------------------------------------------------------------------

  /** The last attempt the device made at the message. */
  predicate IsLastBy(job: Job, g: GatewayId, k: nat) {
    && k in job.attempts && job.attempts[k].gateway == g && k <= job.message.attempts
    && forall j :: j in job.attempts && job.attempts[j].gateway == g && j <= job.message.attempts ==> j <= k
  }

  /** The message is with that attempt's SIM, and has not been given out again since. */
  predicate IsWith(job: Job, k: nat)
    requires k in job.attempts
  {
    && (job.message.status.Assigned? || job.message.status.Sending?)
    && job.message.attempts == k && job.message.sim == Some(job.attempts[k].sim)
  }

  lemma ReportIsAboutLast(db: Db, g: GatewayId, m: MessageId, k: nat)
    ensures AttemptOf(db, g, m) == Some(k) <==> m in db.jobs && IsLastBy(db.jobs[m], g, k)
  {
  }

  /** A device that made no attempt at the message has nothing to report about it. */
  lemma StrangersAreIgnored(fleet: Fleet, db: Db, now: Instant, action: Action)
    requires action.Acknowledgement? || action.SendResult? || action.DeliveryStatus?
    requires action.m in db.jobs ==> forall k :: !IsLastBy(db.jobs[action.m], action.g, k)
    ensures Step(fleet, db, now, action) == db
  {
    hide RecordSuccess, RecordFailure, Settle, Acknowledge;
    var k := AttemptOf(db, action.g, action.m);
    if k.Some? { ReportIsAboutLast(db, action.g, action.m, k.value); }
  }

  // ---- failures ---------------------------------------------------------------------------------------

  /** Trying again cannot help. */
  predicate EndsAtOnce(code: ErrorCode) {
    || code.INVALID_NUMBER? || code.MESSAGE_TOO_LONG? || code.BLOCKED_RECIPIENT? || code.MESSAGE_EXPIRED?
    || code.BODY_UNAVAILABLE? || code.DELIVERY_FAILED? || code.SUPERSEDED? || code.DEVICE_RELEASED?
    || code.CANCELLED_BY_CLIENT? || code.ATTEMPTS_EXHAUSTED?
  }

  /** The wait before another attempt, in seconds: around 5, then 30, then 120, by a quarter either
      way. */
  predicate IsRetryWait(attempts: nat, seconds: real) {
    if attempts <= 1 then 4.0 <= seconds <= 6.0
    else if attempts == 2 then 23.0 <= seconds <= 37.0
    else 90.0 <= seconds <= 150.0
  }

  /** A failed attempt: the message fails with that code if it ends it, and as exhausted if there are
      no attempts left, and its tenant is told. Otherwise it is queued again, with the code on
      record and a wait. */
  predicate FailsOrWaits(was: Job, job: Job, code: ErrorCode, now: Instant) {
    var message := was.message;
    if EndsAtOnce(code) || message.attempts >= message.maxAttempts then
      && job.message == message.(
           status := Failed, error := Some(if EndsAtOnce(code) then code else ATTEMPTS_EXHAUSTED),
           leaseExpiresAt := None, hasBody := false)
      && job.published == was.published + [SmsFailed]
    else
      && job.published == was.published
      && job.message.nextAttemptAt.Some? && IsRetryWait(message.attempts, job.message.nextAttemptAt.value - now)
      && job.message == message.(
           status := Queued, sim := None, assignedAt := None, leaseExpiresAt := None, error := Some(code),
           nextAttemptAt := job.message.nextAttemptAt)
  }

  lemma BackoffIsRetryWait(attempts: nat, random: Random)
    ensures IsRetryWait(attempts, WithJitter(BACKOFF_SECONDS[BackoffIndex(attempts)], random) as real)
  {
    DrawnWaitIsWithin(5, random); DrawnWaitIsWithin(30, random); DrawnWaitIsWithin(120, random);
    hide WithJitter;
  }

  lemma PermanentIffEndsAtOnce(code: ErrorCode)
    ensures IsPermanentError(Some(code)) <==> EndsAtOnce(code)
  {
  }

  lemma RetryPolicyFailsOrWaits(was: Job, code: ErrorCode, now: Instant, random: Random)
    ensures FailsOrWaits(was, RetryOrFail(was, code, now, random), code, now)
    ensures RetryOrFail(was, code, now, random).attempts == was.attempts
  {
    hide WithJitter, IsRetryWait, IsPermanentError, EndsAtOnce;
    PermanentIffEndsAtOnce(code);
    BackoffIsRetryWait(was.message.attempts, random);
  }

  /** What is recorded of a reported code. */
  function Recorded(code: ReportedCode): ErrorCode {
    match code
    case Missing => GENERIC_FAILURE
    case Unknown => GENERIC_FAILURE
    case Known(known) => known
  }

  /** The ledger once the message has left the SIM it was with. */
  function LedgerWithout(fleet: Fleet, db: Db, m: MessageId): Ledger
    requires m in db.jobs
  {
    var message := db.jobs[m].message;
    if message.sim.None? || message.assignedAt.None? then db.ledger
    else Returned(db.jobs, db.ledger, m,
                  Slot(message.sim.value, fleet.billingDay(message.assignedAt.value), message.recipient))
  }

  lemma LedgerIsReturned(fleet: Fleet, db: Db, m: MessageId)
    requires m in db.jobs
    ensures ReturnedLedger(fleet, db, m) == LedgerWithout(fleet, db, m)
  {
    hide Returned, Release;
    var message := db.jobs[m].message;
    if message.sim.Some? && message.assignedAt.Some? {
      ReturnedIsReleased(db.jobs, db.jobs[m], db.ledger, m,
                         SlotAt(fleet, message.sim.value, message.recipient, message.assignedAt.value));
    }
  }

  /** A device reports that the attempt holding the message failed. */
  lemma FailureComesTo(fleet: Fleet, db: Db, g: GatewayId, m: MessageId, k: nat, code: ReportedCode, now: Instant,
                       random: Random)
    requires m in db.jobs && IsLastBy(db.jobs[m], g, k) && IsWith(db.jobs[m], k)
    ensures var was := db.jobs[m];
            var after := Step(fleet, db, now, SendResult(g, m, FailedVerdict(code), random));
            && m in after.jobs
            && after == db.(jobs := db.jobs[m := after.jobs[m]], ledger := LedgerWithout(fleet, db, m))
            && after.jobs[m].attempts
               == was.attempts[k := was.attempts[k].(status := AttemptFailed, error := Some(Recorded(code)))]
            && FailsOrWaits(was, after.jobs[m], Recorded(code), now)
  {
    hide RetryOrFail, FailsOrWaits, IsLastBy, OwnedAttempt, ReturnedLedger, LedgerWithout;
    ReportIsAboutLast(db, g, m, k);
    LedgerIsReturned(fleet, db, m);
    var put := PutCurrentAttempt(db.jobs[m], AttemptFailed, Some(Recorded(code)));
    RetryPolicyFailsOrWaits(put, Recorded(code), now, random);
    SameMessageFailsAlike(db.jobs[m], put, RetryOrFail(put, Recorded(code), now, random), Recorded(code), now);
  }

  lemma SameMessageFailsAlike(a: Job, b: Job, job: Job, code: ErrorCode, now: Instant)
    requires a.message == b.message && a.published == b.published
    ensures FailsOrWaits(a, job, code, now) == FailsOrWaits(b, job, code, now)
  {
    hide IsRetryWait;
  }

  /** A failure reported by a device that no longer has the message only closes its own attempt, and
      only one that is not closed yet. */
  lemma LateFailureComesTo(fleet: Fleet, db: Db, g: GatewayId, m: MessageId, k: nat, code: ReportedCode, now: Instant,
                           random: Random)
    requires m in db.jobs && IsLastBy(db.jobs[m], g, k) && !IsWith(db.jobs[m], k)
    ensures var was := db.jobs[m];
            var attempt := was.attempts[k];
            Step(fleet, db, now, SendResult(g, m, FailedVerdict(code), random))
              == if attempt.status.AttemptSent? || attempt.status.AttemptFailed? then db
                 else db.(jobs := db.jobs[m := was.(attempts := was.attempts[k := attempt.(
                            status := AttemptFailed, error := Some(Recorded(code)))])])
  {
    hide IsLastBy, OwnedAttempt;
    ReportIsAboutLast(db, g, m, k);
    assert db.jobs[m := db.jobs[m]] == db.jobs;
  }

  /** A lease that ran out is a failure of the device's silence: the attempt timed out, and the
      message is tried again, or has no attempts left. */
  lemma LeaseComesTo(fleet: Fleet, db: Db, m: MessageId, now: Instant, random: Random)
    requires m in db.jobs
    ensures var was, after := db.jobs[m], Step(fleet, db, now, SweepLease(m, random));
            if && (was.message.status.Assigned? || was.message.status.Sending?)
               && was.message.leaseExpiresAt.Some? && was.message.leaseExpiresAt.value <= now
            then
              && m in after.jobs
              && after == db.(jobs := db.jobs[m := after.jobs[m]], ledger := LedgerWithout(fleet, db, m))
              && FailsOrWaits(was, after.jobs[m], LEASE_EXPIRED, now) && !EndsAtOnce(LEASE_EXPIRED)
              && after.jobs[m].attempts
                 == if was.message.attempts !in was.attempts then was.attempts
                    else was.attempts[was.message.attempts := was.attempts[was.message.attempts].(
                           status := AttemptTimedOut, error := Some(LEASE_EXPIRED))]
            else after == db
  {
    hide RetryOrFail, FailsOrWaits, ReturnedLedger, LedgerWithout;
    LedgerIsReturned(fleet, db, m);
    var put := PutCurrentAttempt(db.jobs[m], AttemptTimedOut, Some(LEASE_EXPIRED));
    RetryPolicyFailsOrWaits(put, LEASE_EXPIRED, now, random);
    SameMessageFailsAlike(db.jobs[m], put, RetryOrFail(put, LEASE_EXPIRED, now, random), LEASE_EXPIRED, now);
  }

  // ---- successes --------------------------------------------------------------------------------------

  /** The message row says it was sent: as sent, as delivered, or as lost by the operator. */
  predicate CountsAsSent(message: Message) {
    message.status.Sent? || message.status.Delivered?
    || (message.status.Failed? && message.error == Some(DELIVERY_FAILED))
  }

  /** A newer attempt has the message. */
  predicate IsOvertaken(job: Job, k: nat) {
    && (job.message.status.Assigned? || job.message.status.Sending?)
    && job.message.attempts in job.attempts && job.message.attempts != k
  }

  function Counted(ledger: Ledger, slot: Slot): Ledger {
    ledger[slot := if slot in ledger then ledger[slot] + 1 else 1]
  }

  /** One more send of the SIM today; what was counted on another day is forgotten. */
  function CountedToday(counters: map<SimId, Counter>, sim: SimId, today: Day): map<SimId, Counter> {
    var before := if sim in counters && counters[sim].counterDate == Some(today) then counters[sim].sentToday else 0;
    counters[sim := Counter(before + 1, Some(today))]
  }

  /** The first success of a message: it is sent, by that attempt's SIM and from its moment on; an
      attempt that overtook it is called off and hands its slot back; the send is counted against
      the number's slot of the day the attempt was made, and against the quota of today. */
  lemma FirstSuccessComesTo(fleet: Fleet, db: Db, g: GatewayId, m: MessageId, k: nat, now: Instant, random: Random)
    requires m in db.jobs && IsLastBy(db.jobs[m], g, k) && !CountsAsSent(db.jobs[m].message)
    ensures var was := db.jobs[m];
            var attempt, last := was.attempts[k], was.message.attempts;
            var open := if IsOvertaken(was, k)
                        then was.attempts[last := was.attempts[last].(
                               status := AttemptFailed, error := Some(SUPERSEDED))]
                        else was.attempts;
            var kept := if IsOvertaken(was, k)
                        then Returned(db.jobs, db.ledger, m,
                                      Slot(was.attempts[last].sim, fleet.billingDay(was.attempts[last].startedAt),
                                           was.message.recipient))
                        else db.ledger;
            Step(fleet, db, now, SendResult(g, m, SentVerdict, random)) == db.(
              jobs := db.jobs[m := Job(
                was.message.(
                  status := Sent, sim := Some(attempt.sim), assignedAt := Some(attempt.startedAt),
                  leaseExpiresAt := None, nextAttemptAt := None, error := None, hasBody := false),
                open[k := attempt.(status := AttemptSent, error := None)],
                was.published + [SmsSent])],
              ledger := Counted(kept, Slot(attempt.sim, fleet.billingDay(attempt.startedAt), was.message.recipient)),
              counters := CountedToday(db.counters, attempt.sim, fleet.billingDay(now)))
  {
    hide IsLastBy, OwnedAttempt, Release, Returned;
    ReportIsAboutLast(db, g, m, k);
    var was := db.jobs[m];
    if IsOvertaken(was, k) {
      ReturnedIsReleased(db.jobs, was, db.ledger, m, AttemptSlot(fleet, was, was.message.attempts));
    }
  }

  /** Any other success leaves the message as it is. An attempt that was not on record as sent is put
      on record and counted. */
  lemma AnotherSuccessComesTo(fleet: Fleet, db: Db, g: GatewayId, m: MessageId, k: nat, now: Instant, random: Random)
    requires m in db.jobs && IsLastBy(db.jobs[m], g, k) && CountsAsSent(db.jobs[m].message)
    ensures var was := db.jobs[m];
            var attempt := was.attempts[k];
            Step(fleet, db, now, SendResult(g, m, SentVerdict, random))
              == if attempt.status.AttemptSent? then db
                 else db.(
                   jobs := db.jobs[m := was.(attempts := was.attempts[k := attempt.(
                             status := AttemptSent, error := None)])],
                   ledger := Counted(db.ledger, Slot(attempt.sim, fleet.billingDay(attempt.startedAt),
                                                     was.message.recipient)),
                   counters := CountedToday(db.counters, attempt.sim, fleet.billingDay(now)))
  {
    hide IsLastBy, OwnedAttempt, Release;
    ReportIsAboutLast(db, g, m, k);
  }

  /** A delivery report is the success it implies, and then its own verdict; one that repeats what is
      on record, or comes after a delivery, changes nothing. */
  lemma DeliveryComesTo(fleet: Fleet, db: Db, g: GatewayId, m: MessageId, k: nat, delivered: bool, now: Instant)
    requires m in db.jobs && IsLastBy(db.jobs[m], g, k)
    ensures var message := db.jobs[m].message;
            var after := Step(fleet, db, now, DeliveryStatus(g, m, delivered));
            if || message.status.Delivered?
               || (!delivered && message.status.Failed? && message.error == Some(DELIVERY_FAILED))
            then after == db
            else
              var sent := Step(fleet, db, now, SendResult(g, m, SentVerdict, 0.0));
              && m in sent.jobs
              && var job := sent.jobs[m];
                 after == sent.(jobs := sent.jobs[m := job.(
                   message := if delivered then job.message.(status := Delivered)
                              else job.message.(status := Failed, error := Some(DELIVERY_FAILED)),
                   published := job.published + [if delivered then SmsDelivered else SmsFailed])])
  {
    hide IsLastBy, OwnedAttempt, EnsureSent, SupersededLedger;
    ReportIsAboutLast(db, g, m, k);
  }

  /** A device confirms that it has the message: it gets five minutes to send it. */
  lemma AcknowledgementComesTo(fleet: Fleet, db: Db, g: GatewayId, m: MessageId, k: nat, now: Instant)
    requires m in db.jobs && IsLastBy(db.jobs[m], g, k)
    ensures var was := db.jobs[m];
            Step(fleet, db, now, Acknowledgement(g, m))
              == if !IsWith(was, k) || !was.message.status.Assigned? then db
                 else db.(jobs := db.jobs[m := was.(
                   message := was.message.(status := Sending, leaseExpiresAt := Some(now + 300.0)),
                   attempts := was.attempts[k := was.attempts[k].(status := AttemptSending, error := None)])])
  {
    hide IsLastBy, OwnedAttempt;
    ReportIsAboutLast(db, g, m, k);
  }
}
