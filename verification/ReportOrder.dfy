/** A device's send result and its delivery report may arrive in either order. */
module ReportOrder {
  import opened SmsTypes
  import opened MessageJob
  import opened MessageLaws
  import opened RecipientAllowance
  import opened DeliveryState
  import opened DeliveryProtocol
  import opened ProtocolInvariant
  import DeliveryRuns

  ghost function SentThenReport(fleet: Fleet, db: Db, g: GatewayId, m: MessageId, delivered: bool, t1: Instant,
                                t2: Instant): Db {
    RecordDelivered(fleet, RecordResult(fleet, db, g, m, SentVerdict, t1, 0.0), g, m, delivered, t2)
  }

  ghost function ReportThenSent(fleet: Fleet, db: Db, g: GatewayId, m: MessageId, delivered: bool, t1: Instant,
                                t2: Instant): Db {
    RecordResult(fleet, RecordDelivered(fleet, db, g, m, delivered, t1), g, m, SentVerdict, t2, 0.0)
  }

  /** The delivery report is old news, but the send it implies is not counted yet. */
  predicate CountsOnlyOnResult(job: Job, k: nat, delivered: bool)
    requires k in job.attempts
  {
    ReportIsKnown(job.message, delivered) && !job.attempts[k].status.AttemptSent?
  }

  lemma OwnerAfterReport(job: Job, g: GatewayId, k: nat, delivered: bool)
    requires JobInv(job) && OwnedAttempt(job, g) == Some(k)
    ensures OwnedAttempt(EnsureSent(job, k), g) == Some(k)
    ensures OwnedAttempt(Settle(EnsureSent(job, k), delivered), g) == Some(k)
    ensures var sent := EnsureSent(job, k);
            && k in sent.attempts && WasSent(sent.message) && sent.attempts[k].status.AttemptSent?
            && (ReportIsKnown(sent.message, delivered) <==> ReportIsKnown(job.message, delivered))
  {
    hide Rank;
    EnsureSentSends(job, k);
    DeliveryRuns.SameKeysSameOwner(job, EnsureSent(job, k), g);
    DeliveryRuns.SameKeysSameOwner(job, Settle(EnsureSent(job, k), delivered), g);
  }

  lemma ResultLast(fleet: Fleet, db: Db, g: GatewayId, m: MessageId, k: nat, delivered: bool, t1: Instant, t2: Instant)
    requires m in db.jobs && JobInv(db.jobs[m]) && AttemptOf(db, g, m) == Some(k)
    requires !ReportIsKnown(db.jobs[m].message, delivered)
    ensures ReportThenSent(fleet, db, g, m, delivered, t1, t2) == RecordDelivered(fleet, db, g, m, delivered, t1)
  {
    hide EnsureSent, JobInv, SupersededLedger;
    OwnerAfterReport(db.jobs[m], g, k, delivered);
    var sent := RecordSuccess(fleet, db, m, k, t1);
    DeliveryRuns.SuccessOnJob(fleet, db, m, k, t1);
  }

  lemma ReportLast(fleet: Fleet, db: Db, g: GatewayId, m: MessageId, k: nat, delivered: bool, t1: Instant, t2: Instant)
    requires m in db.jobs && JobInv(db.jobs[m]) && AttemptOf(db, g, m) == Some(k)
    requires !ReportIsKnown(db.jobs[m].message, delivered)
    ensures SentThenReport(fleet, db, g, m, delivered, t1, t2) == RecordDelivered(fleet, db, g, m, delivered, t1)
  {
    hide EnsureSent, JobInv, SupersededLedger, Settle;
    OwnerAfterReport(db.jobs[m], g, k, delivered);
    var sent := RecordSuccess(fleet, db, m, k, t1);
    DeliveryRuns.SuccessOnJob(fleet, db, m, k, t1);
    assert RecordSuccess(fleet, sent, m, k, t2) == sent;
  }

  lemma KnownReport(fleet: Fleet, db: Db, g: GatewayId, m: MessageId, k: nat, delivered: bool, t1: Instant, t2: Instant)
    requires m in db.jobs && JobInv(db.jobs[m]) && AttemptOf(db, g, m) == Some(k)
    requires ReportIsKnown(db.jobs[m].message, delivered)
    ensures SentThenReport(fleet, db, g, m, delivered, t1, t2) == RecordSuccess(fleet, db, m, k, t1)
    ensures ReportThenSent(fleet, db, g, m, delivered, t1, t2) == RecordSuccess(fleet, db, m, k, t2)
  {
    hide EnsureSent, JobInv, SupersededLedger, Settle;
    OwnerAfterReport(db.jobs[m], g, k, delivered);
    DeliveryRuns.SuccessOnJob(fleet, db, m, k, t1);
  }

  lemma CountingDaysShow(counters: map<SimId, Counter>, sim: SimId, a: Day, b: Day)
    ensures CountAgainstDailyQuota(counters, sim, a) == CountAgainstDailyQuota(counters, sim, b) <==> a == b
  {
    assert CountAgainstDailyQuota(counters, sim, a)[sim].counterDate == Some(a);
    assert CountAgainstDailyQuota(counters, sim, b)[sim].counterDate == Some(b);
  }

  /** From any reachable state, both orders leave the same messages, attempts, events and
      ledger. The SIM counters differ exactly when the report was already known, the attempt
      was not yet counted, and the two messages arrive on different operator days. */
  lemma ReportsCommute(fleet: Fleet, db: Db, g: GatewayId, m: MessageId, k: nat, delivered: bool, t1: Instant,
                       t2: Instant)
    requires Reachable(fleet, db) && AttemptOf(db, g, m) == Some(k)
    ensures var a := SentThenReport(fleet, db, g, m, delivered, t1, t2);
            var b := ReportThenSent(fleet, db, g, m, delivered, t1, t2);
            && a.(counters := map[]) == b.(counters := map[])
            && (a.counters == b.counters <==>
                  !CountsOnlyOnResult(db.jobs[m], k, delivered) || fleet.billingDay(t1) == fleet.billingDay(t2))
  {
    hide LedgerInv, SlotsInv, InFlightInv, JobInv, KnownSims, EnsureSent, SupersededLedger, SentThenReport,
         ReportThenSent, RecordDelivered, CountAgainstDailyQuota;
    ReachableIsSound(fleet, db);
    if ReportIsKnown(db.jobs[m].message, delivered) {
      KnownReport(fleet, db, g, m, k, delivered, t1, t2);
      CountingDaysShow(db.counters, db.jobs[m].attempts[k].sim, fleet.billingDay(t1), fleet.billingDay(t2));
    } else {
      ResultLast(fleet, db, g, m, k, delivered, t1, t2);
      ReportLast(fleet, db, g, m, k, delivered, t1, t2);
    }
  }
}
