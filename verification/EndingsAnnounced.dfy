/** Which endings a tenant hears about: all of them, except two that only a dispatch makes. */
module EndingsAnnounced {
  import opened SmsTypes
  import opened MessageJob
  import opened RetryPolicy
  import opened MessageLaws
  import opened PublishedEvents
  import opened DeliveryState
  import opened DeliveryProtocol
  import opened ProtocolInvariant
  import opened DeliveryRuns

  // ---- one message ------------------------------------------------------------------------------

  lemma SuccessAnnounces(job: Job, k: nat, delivered: bool)
    requires k in job.attempts
    ensures Announced(job, EnsureSent(job, k)) && Announced(job, DeliveryReport(job, k, delivered))
  {
    hide CallsOffCurrent;
  }

  lemma FailureAnnounces(job: Job, k: nat, code: ReportedCode, now: Instant, random: Random)
    requires k in job.attempts
    ensures Announced(job, ApplyFailure(job, code, now, random)) && Announced(job, ApplyLateFailure(job, k, code))
  {
    hide DecideRetry;
  }

  lemma LeaseAnnounces(job: Job, now: Instant, random: Random)
    ensures Announced(job, Acknowledge(job, now)) && Announced(job, ReclaimLease(job, now, random))
  {
    hide DecideRetry;
  }

  lemma EndsAnnounce(job: Job)
    ensures Announced(job, Expire(job)) && Announced(job, Cancel(job)) && Announced(job, FailStranded(job))
  {
  }

  /** The two endings of a dispatch are not announced; nothing else it does ends a message. */
  lemma DispatchEndsSilently(job: Job, until: Instant, reason: DeferReason, sim: SimId, gateway: GatewayId,
                             now: Instant, random: Random)
    requires job.message.status.Queued?
    ensures !Announced(job, MarkExpired(job)) && !Announced(job, MarkUndeliverable(job))
    ensures Announced(job, Defer(job, until, reason)) && Announced(job, Assign(job, sim, gateway, now))
    ensures Announced(job, Requeue(Assign(job, sim, gateway, now), job.message.attempts + 1, now, random))
  {
  }

  // ---- one step -----------------------------------------------------------------------------------

  /** A dispatch of `m` that finds it expired, or with nothing to send. */
  predicate EndsInDispatch(db: Db, now: Instant, action: Action, m: MessageId)
    requires m in db.jobs
  {
    && action.Dispatch? && action.m == m
    && Due(db.jobs[m].message, now)
    && (IsExpiredAt(db.jobs[m].message, now) || !db.jobs[m].message.hasBody)
  }

  lemma DispatchAnnouncesUnless(fleet: Fleet, db: Db, m: MessageId, now: Instant, choice: Choice)
    requires m in db.jobs
    ensures m in DispatchOne(fleet, db, m, now, choice).jobs
    ensures Announced(db.jobs[m], DispatchOne(fleet, db, m, now, choice).jobs[m])
       <==> !EndsInDispatch(db, now, Dispatch(m, choice), m)
  {
    hide Announced, IsChoice, PickRoute, Walk, Defer, MarkExpired, MarkUndeliverable, Assign, Requeue;
    var job := db.jobs[m];
    NothingToAnnounce(job);
    if Due(job.message, now) {
      DispatchEndsSilently(job, now, Busy, 0, 0, now, 0.0);
      if !IsExpiredAt(job.message, now) && job.message.hasBody && IsChoice(fleet, db, job, now, choice) {
        var d := PickRoute(fleet, db, job, now, choice);
        if d.Park? {
          DispatchEndsSilently(job, d.until, d.reason, 0, 0, now, 0.0);
        } else {
          DispatchEndsSilently(job, now, Busy, d.route.sim, fleet.sims[d.route.sim].gateway, now, choice.random);
          AssignCountsOne(job, d.route.sim, fleet.sims[d.route.sim].gateway, now);
        }
      }
    }
  }

  lemma NothingToAnnounce(job: Job)
    ensures Announced(job, job)
  {
  }

  lemma ReportStepAnnounces(fleet: Fleet, db: Db, g: GatewayId, m: MessageId, verdict: Verdict, delivered: bool,
                            now: Instant, random: Random)
    requires m in db.jobs
    ensures var after := RecordResult(fleet, db, g, m, verdict, now, random).jobs;
            m in after && Announced(db.jobs[m], after[m])
    ensures var after := RecordDelivered(fleet, db, g, m, delivered, now).jobs;
            m in after && Announced(db.jobs[m], after[m])
    ensures var after := RecordAcknowledgement(db, g, m, now).jobs;
            m in after && Announced(db.jobs[m], after[m])
  {
    hide Announced, EnsureSent, Settle, ApplyFailure, ApplyLateFailure, Acknowledge;
    var job := db.jobs[m];
    NothingToAnnounce(job);
    var owned := AttemptOf(db, g, m);
    if owned.Some? {
      SuccessOnJob(fleet, db, m, owned.value, now);
      SuccessAnnounces(job, owned.value, delivered);
      LeaseAnnounces(job, now, random);
      if verdict.FailedVerdict? { FailureAnnounces(job, owned.value, verdict.code, now, random); }
    }
  }

  lemma EndStepAnnounces(fleet: Fleet, db: Db, m: MessageId, now: Instant, random: Random, tenant: TenantId,
                         g: GatewayId, assignment: Assignment)
    requires m in db.jobs
    ensures var after := SweepExpiredLease(fleet, db, m, now, random).jobs;
            m in after && Announced(db.jobs[m], after[m])
    ensures var after := SweepExpiredMessage(db, m, now).jobs;
            m in after && Announced(db.jobs[m], after[m])
    ensures var after := CancelMessage(db, tenant, m).jobs;
            m in after && Announced(db.jobs[m], after[m])
    ensures var after := AssignDevice(db, g, assignment).jobs;
            m in after && Announced(db.jobs[m], after[m])
  {
    hide Announced, ReclaimLease, Expire, Cancel, FailStranded;
    NothingToAnnounce(db.jobs[m]);
    EndsAnnounce(db.jobs[m]);
    LeaseAnnounces(db.jobs[m], now, random);
  }

  /** In every step, of any kind and from any state, a message that ends is announced, unless
      the step is the dispatch that finds it expired or without a body: those, and only those,
      end a message in silence. */
  lemma OnlyDispatchEndsSilently(fleet: Fleet, db: Db, now: Instant, action: Action, m: MessageId)
    requires m in db.jobs
    ensures m in Step(fleet, db, now, action).jobs
    ensures !Announced(db.jobs[m], Step(fleet, db, now, action).jobs[m]) <==> EndsInDispatch(db, now, action, m)
  {
    hide Announced, DispatchOne, RecordResult, RecordDelivered, AssignDevice, CancelMessage, RecordAcknowledgement,
         SweepExpiredLease, SweepExpiredMessage, NewJob;
    NothingToAnnounce(db.jobs[m]);
    if Subject(action).Some? && Subject(action) != Some(m) {
      StepLeavesOthers(fleet, db, now, action, m);
    } else {
      match action
      case Accept(_, _) =>
      case Dispatch(_, choice) => DispatchAnnouncesUnless(fleet, db, m, now, choice);
      case Acknowledgement(g, _) => ReportStepAnnounces(fleet, db, g, m, SentVerdict, true, now, 0.0);
      case SendResult(g, _, verdict, random) => ReportStepAnnounces(fleet, db, g, m, verdict, true, now, random);
      case DeliveryStatus(g, _, delivered) => ReportStepAnnounces(fleet, db, g, m, SentVerdict, delivered, now, 0.0);
      case SweepLease(_, random) => EndStepAnnounces(fleet, db, m, now, random, 0, 0, Unassigned);
      case SweepDeadline(_) => EndStepAnnounces(fleet, db, m, now, 0.0, 0, 0, Unassigned);
      case CancelRequest(tenant, _) => EndStepAnnounces(fleet, db, m, now, 0.0, tenant, 0, Unassigned);
      case AssignGateway(g, assignment) => EndStepAnnounces(fleet, db, m, now, 0.0, 0, g, assignment);
    }
  }

  /** So in every honest run: a cancelled message has published exactly that, an expired one
      that or nothing, and an unsent failed one exactly that, unless it never had a body. */
  lemma EndedMessagesWereAnnounced(fleet: Fleet, trace: seq<Event>, m: MessageId)
    requires forall i :: 0 <= i < |trace| ==> !ClaimsVerdict(trace[i].action)
    requires m in Run(fleet, EMPTY_DB, trace).jobs
    ensures var job := Run(fleet, EMPTY_DB, trace).jobs[m];
            && (job.message.status.Cancelled? ==> job.published == [SmsCancelled])
            && (job.message.status.Expired? ==>
                  job.published == [] || (job.published == [SmsExpired] && !job.message.hasBody))
            && (job.message.status.Failed? && job.message.error != Some(DELIVERY_FAILED) ==>
                  || job.published == [SmsFailed]
                  || (job.published == [] && job.message.error == Some(BODY_UNAVAILABLE) && !job.message.hasBody))
            && (IsWaiting(job.message.status) || InFlight(job.message.status) ==> job.published == [])
  {
    hide Inv, Run, ClaimsVerdict;
    HonestRunsAreTruthful(fleet, trace);
    assert Truthful(Run(fleet, EMPTY_DB, trace).jobs[m]);
  }
}
