/** The order in which a message's webhook events are published. */
module PublishedEvents {
  import opened SmsTypes
  import opened MessageJob
  import opened MessageLaws

  /** An event that says the message will not be sent. */
  predicate IsEnd(event: WebhookEvent) {
    event.SmsFailed? || event.SmsExpired? || event.SmsCancelled?
  }

  /** The events after the message left a SIM: sent, failed?, delivered? */
  predicate IsSentTail(events: seq<WebhookEvent>) {
    || events == []
    || events == [SmsSent]
    || events == [SmsSent, SmsFailed]
    || events == [SmsSent, SmsDelivered]
    || events == [SmsSent, SmsFailed, SmsDelivered]
  }

  /** `(failed or expired or cancelled)? (sent failed? delivered?)?` */
  predicate IsLifecycle(events: seq<WebhookEvent>) {
    IsSentTail(events) || (events != [] && IsEnd(events[0]) && IsSentTail(events[1..]))
  }

  function SentTail(events: seq<WebhookEvent>): seq<WebhookEvent> {
    if events != [] && IsEnd(events[0]) then events[1..] else events
  }

  /** What has been published fits the status the message is in. */
  ghost predicate EventsInv(job: Job) {
    var tail := SentTail(job.published);
    match job.message.status
    case Created => job.published == []
    case Queued => job.published == []
    case Assigned => job.published == []
    case Sending => job.published == []
    case Expired => job.published == [] || (job.published == [SmsExpired] && !job.message.hasBody)
    case Cancelled => job.published == [SmsCancelled]
    case Failed =>
      if job.message.error == Some(DELIVERY_FAILED) then tail == [SmsSent, SmsFailed]
      else job.published == [SmsFailed]
           || (job.published == [] && job.message.error == Some(BODY_UNAVAILABLE) && !job.message.hasBody)
    case Sent => tail == [SmsSent]
    case Delivered => tail == [SmsSent, SmsDelivered] || tail == [SmsSent, SmsFailed, SmsDelivered]
  }

  /** The record tells the truth: the events fit the status, and a message counts as sent
      only when some attempt sent it. */
  ghost predicate Truthful(job: Job) {
    EventsInv(job) && (WasSent(job.message) ==> HasSent(job))
  }

  lemma TruthfulIsLifecycle(job: Job)
    requires Truthful(job)
    ensures IsLifecycle(job.published)
  {
  }

  /** What a subscriber may rely on. */
  lemma LifecycleMeans(events: seq<WebhookEvent>, i: nat, j: nat)
    requires IsLifecycle(events) && i < |events| && j < |events|
    ensures events[i] == events[j] && (events[i].SmsSent? || events[i].SmsDelivered?) ==> i == j
    ensures events[i].SmsDelivered? ==> i == |events| - 1 && SmsSent in events[..i]
    ensures |events| <= 4
  {
    if events[i].SmsDelivered? {
      assert events[i - 1].SmsSent? || (i >= 2 && events[i - 2].SmsSent?);
      assert SmsSent in events[..i] by {
        assert events[..i][i - 1] == events[i - 1];
        assert i >= 2 ==> events[..i][i - 2] == events[i - 2];
      }
    }
  }

  ghost predicate KeepsTruth(was: Job, now: Job) {
    JobInv(was) && Truthful(was) ==> Truthful(now)
  }

  /** A message that ends, ends with an event. */
  ghost predicate Announced(was: Job, now: Job) {
    IsTerminal(now.message.status) && now.message.status != was.message.status ==> was.published < now.published
  }

  lemma NewJobIsTruthful(request: Accepted)
    ensures Truthful(NewJob(request))
  {
  }

  lemma DispatchKeepsTruth(job: Job, until: Instant, reason: DeferReason, sim: SimId, gateway: GatewayId, now: Instant,
                           random: Random)
    requires job.message.status.Queued?
    ensures KeepsTruth(job, MarkExpired(job)) && (!job.message.hasBody ==> KeepsTruth(job, MarkUndeliverable(job)))
    ensures KeepsTruth(job, Defer(job, until, reason))
    ensures KeepsTruth(job, Assign(job, sim, gateway, now))
    ensures KeepsTruth(job, Requeue(Assign(job, sim, gateway, now), job.message.attempts + 1, now, random))
  {
  }

  lemma AcknowledgeKeepsTruth(job: Job, now: Instant)
    requires InFlight(job.message.status)
    ensures KeepsTruth(job, Acknowledge(job, now))
  {
  }

  lemma EnsureSentKeepsTruth(job: Job, k: nat)
    requires k in job.attempts
    ensures KeepsTruth(job, EnsureSent(job, k))
  {
    EnsureSentIsLawful(job, k);
    if JobInv(job) && Truthful(job) && !WasSent(job.message) {
      assert SentTail(job.published + [SmsSent]) == SentTail(job.published) + [SmsSent];
    }
  }

  lemma SettleKeepsTruth(job: Job, delivered: bool)
    requires HasSent(job) && WasSent(job.message) && !ReportIsKnown(job.message, delivered)
    ensures KeepsTruth(job, Settle(job, delivered))
  {
    var event := if delivered then SmsDelivered else SmsFailed;
    if Truthful(job) {
      assert SentTail(job.published + [event]) == SentTail(job.published) + [event];
      assert HasSent(Settle(job, delivered));
    }
  }

  lemma DeliveryReportKeepsTruth(job: Job, k: nat, delivered: bool)
    requires k in job.attempts
    ensures KeepsTruth(job, DeliveryReport(job, k, delivered))
  {
    hide JobInv, HasSent, EventsInv, Settle;
    if JobInv(job) && Truthful(job) && !ReportIsKnown(job.message, delivered) {
      EnsureSentKeepsTruth(job, k);
      EnsureSentIsLawful(job, k);
      SettleKeepsTruth(EnsureSent(job, k), delivered);
    }
  }

  lemma LeaseKeepsTruth(job: Job, now: Instant, random: Random)
    requires InFlight(job.message.status)
    ensures KeepsTruth(job, ReclaimLease(job, now, random))
  {
  }

  lemma EndKeepsTruth(job: Job)
    requires IsCancellable(job.message.status)
    ensures KeepsTruth(job, Cancel(job))
    ensures IsWaiting(job.message.status) ==> KeepsTruth(job, Expire(job)) && KeepsTruth(job, FailStranded(job))
  {
  }

  lemma LateFailureKeepsTruth(job: Job, k: nat, code: ReportedCode)
    requires k in job.attempts
    ensures KeepsTruth(job, ApplyLateFailure(job, k, code))
  {
    if HasSent(job) {
      var s :| s in job.attempts && job.attempts[s].status.AttemptSent?;
      assert ApplyLateFailure(job, k, code).attempts[s].status.AttemptSent?;
    }
  }

  /** A failed send keeps the record truthful exactly when the device does not claim the
      operator's verdict: with DELIVERY_FAILED as a send error, a message nobody sent
      counts as sent. */
  lemma FailureKeepsTruthIff(job: Job, code: ReportedCode, now: Instant, random: Random)
    requires JobInv(job) && Truthful(job) && InFlight(job.message.status)
    ensures Truthful(ApplyFailure(job, code, now, random)) <==> code != Known(DELIVERY_FAILED)
  {
    var failed := ApplyFailure(job, code, now, random);
    assert !HasSent(job);
    assert !HasSent(failed);
  }

  /** And then the tenant is told of a delivery that no send preceded. */
  lemma ClaimedVerdictBreaksLifecycle(job: Job, now: Instant, random: Random)
    requires JobInv(job) && Truthful(job) && InFlight(job.message.status)
    ensures var failed := ApplyFailure(job, Known(DELIVERY_FAILED), now, random);
            && job.message.attempts in failed.attempts
            && DeliveryReport(failed, job.message.attempts, true).published == [SmsFailed, SmsDelivered]
            && !IsLifecycle([SmsFailed, SmsDelivered])
  {
  }
}
