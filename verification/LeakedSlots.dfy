/** Slots that count against a SIM's cap although nothing was sent on them and nothing is in flight
    on them: how a run gets there, and how it gets out again. */
module LeakedSlots {
  import opened SmsTypes
  import opened MessageJob
  import opened MessageLaws
  import opened RecipientAllowance
  import opened DeliveryState
  import opened DeliveryProtocol
  import opened LedgerCounts
  import opened ProtocolInvariant
  import opened DeliveryRuns
  import opened SequentialFill

  /** The message is in flight on that slot. */
  predicate Holds(fleet: Fleet, job: Job, slot: Slot) {
    InFlight(job.message.status) && job.message.attempts in job.attempts && HeldSlot(fleet, job) == slot
  }

  /** Another message is on it too: the same SIM, number and day. */
  predicate SharedSlot(fleet: Fleet, jobs: Jobs, slot: Slot, m: MessageId) {
    exists o :: o in jobs && o != m && Holds(fleet, jobs[o], slot)
  }

  predicate IsUnused(ledger: Ledger, slot: Slot) {
    slot in ledger && ledger[slot] == 0
  }

  predicate Leaked(fleet: Fleet, db: Db, slot: Slot) {
    IsUnused(db.ledger, slot) && forall m :: m in db.jobs ==> !Holds(fleet, db.jobs[m], slot)
  }

  /** `m` is all that stands behind the row. */
  predicate LastOn(fleet: Fleet, db: Db, m: MessageId, slot: Slot) {
    && m in db.jobs && Holds(fleet, db.jobs[m], slot)
    && IsUnused(db.ledger, slot) && !SharedSlot(fleet, db.jobs, slot, m)
  }

  /** The dispatch gets as far as that slot. */
  ghost predicate Takes(fleet: Fleet, db: Db, m: MessageId, now: Instant, choice: Choice, slot: Slot) {
    && Routes(fleet, db, m, now, choice)
    && var d := PickRoute(fleet, db, db.jobs[m], now, choice);
       d.Take? && SlotAt(fleet, d.route.sim, db.jobs[m].message.recipient, now) == slot
  }

  /** The device's report is about the attempt that holds the message. */
  predicate ReportsCurrent(db: Db, g: GatewayId, m: MessageId) {
    var k := AttemptOf(db, g, m);
    k.Some? && IsCurrent(db.jobs[m], k.value)
  }

  /** It is about one that was given up. */
  predicate ReportsOlder(db: Db, g: GatewayId, m: MessageId) {
    var k := AttemptOf(db, g, m);
    k.Some? && !IsCurrent(db.jobs[m], k.value)
  }

  /** The step leaves the row behind: a cancel of an assigned message, which hands nothing back; or
      a hand-back that is refused for the sake of another message, on whatever day, after a
      failure, a lease that ran out, a success of an older attempt or a failed hand-off. */
  ghost predicate Abandons(fleet: Fleet, db: Db, now: Instant, action: Action, slot: Slot) {
    match action
    case CancelRequest(tenant, m) =>
      LastOn(fleet, db, m, slot) && db.jobs[m].message.tenant == tenant && db.jobs[m].message.status.Assigned?
    case SweepLease(m, _) =>
      LastOn(fleet, db, m, slot) && LeaseExpired(db.jobs[m].message, now) && HeldByOther(db.jobs, slot, m)
    case SendResult(g, m, verdict, _) =>
      && LastOn(fleet, db, m, slot) && HeldByOther(db.jobs, slot, m)
      && if verdict.SentVerdict? then ReportsOlder(db, g, m) else ReportsCurrent(db, g, m)
    case DeliveryStatus(g, m, _) =>
      LastOn(fleet, db, m, slot) && HeldByOther(db.jobs, slot, m) && ReportsOlder(db, g, m)
    case Dispatch(m, choice) =>
      && Takes(fleet, db, m, now, choice, slot) && slot !in db.ledger
      && !choice.delivered && HeldByOther(db.jobs, slot, m)
    case _ => false
  }

  /** A device reports a success of an attempt made on that slot. */
  predicate ReportsSuccessOn(fleet: Fleet, db: Db, action: Action, slot: Slot) {
    && (action.SendResult? || action.DeliveryStatus?)
    && var k := AttemptOf(db, action.g, action.m);
    && k.Some? && AttemptSlot(fleet, db.jobs[action.m], k.value) == slot
    && if action.SendResult? then action.verdict.SentVerdict?
       else !ReportIsKnown(db.jobs[action.m].message, action.delivered)
  }

  /** The step finds a use for the row, or hands it back: a dispatch takes it, or takes it and can
      hand it back, or something was sent on it after all. */
  ghost predicate Redeems(fleet: Fleet, db: Db, now: Instant, action: Action, slot: Slot) {
    || (action.Dispatch? && Takes(fleet, db, action.m, now, action.choice, slot)
        && (action.choice.delivered || !HeldByOther(db.jobs, slot, action.m)))
    || ReportsSuccessOn(fleet, db, action, slot)
  }

  // ---- one message at a time ------------------------------------------------------------------------

  lemma LeakedByParts(fleet: Fleet, db: Db, m: MessageId, slot: Slot)
    requires m in db.jobs
    ensures Leaked(fleet, db, slot)
       <==> IsUnused(db.ledger, slot) && !Holds(fleet, db.jobs[m], slot) && !SharedSlot(fleet, db.jobs, slot, m)
  {
    hide Holds, IsUnused;
  }

  lemma OthersShareAlike(fleet: Fleet, jobs: Jobs, m: MessageId, job: Job, slot: Slot)
    ensures SharedSlot(fleet, jobs[m := job], slot, m) == SharedSlot(fleet, jobs, slot, m)
  {
    hide Holds;
    var after := jobs[m := job];
    if SharedSlot(fleet, jobs, slot, m) {
      var o :| o in jobs && o != m && Holds(fleet, jobs[o], slot);
      assert o in after && after[o] == jobs[o];
    }
    if SharedSlot(fleet, after, slot, m) {
      var o :| o in after && o != m && Holds(fleet, after[o], slot);
      assert o in jobs && after[o] == jobs[o];
    }
  }

  /** What a step on `m` comes to, told from the row and `m` alone. */
  lemma LeakedAfter(fleet: Fleet, db: Db, after: Db, m: MessageId, slot: Slot)
    requires Replaces(db, after, m)
    ensures Leaked(fleet, db, slot)
       <==> IsUnused(db.ledger, slot) && !Holds(fleet, db.jobs[m], slot) && !SharedSlot(fleet, db.jobs, slot, m)
    ensures Leaked(fleet, after, slot)
       <==> IsUnused(after.ledger, slot) && !Holds(fleet, after.jobs[m], slot) && !SharedSlot(fleet, db.jobs, slot, m)
  {
    hide Leaked, Holds, IsUnused, SharedSlot;
    LeakedByParts(fleet, db, m, slot);
    LeakedByParts(fleet, after, m, slot);
    OthersShareAlike(fleet, db.jobs, m, after.jobs[m], slot);
  }

  lemma ReleaseUnused(jobs: Jobs, ledger: Ledger, released: Slot, m: MessageId, slot: Slot)
    ensures IsUnused(Release(jobs, ledger, released, m), slot)
       <==> IsUnused(ledger, slot) && (released == slot ==> HeldByOther(jobs, slot, m))
  {
    hide HeldByOther;
  }

  /** The slot a message in flight would hand back is the one it holds. */
  lemma ReturnsHeldSlot(fleet: Fleet, db: Db, m: MessageId)
    requires m in db.jobs && InFlight(db.jobs[m].message.status) && JobInv(db.jobs[m])
    ensures var job := db.jobs[m];
            && job.message.attempts in job.attempts
            && ReturnedLedger(fleet, db, m) == Release(db.jobs, db.ledger, HeldSlot(fleet, job), m)
  {
  }

  lemma ReturnLeaks(fleet: Fleet, db: Db, after: Db, m: MessageId, slot: Slot)
    requires Replaces(db, after, m) && InFlight(db.jobs[m].message.status) && JobInv(db.jobs[m])
    requires !InFlight(after.jobs[m].message.status) && after.ledger == ReturnedLedger(fleet, db, m)
    ensures Leaked(fleet, after, slot)
       <==> Leaked(fleet, db, slot) || (LastOn(fleet, db, m, slot) && HeldByOther(db.jobs, slot, m))
  {
    hide Leaked, IsUnused, SharedSlot, HeldByOther, JobInv, ReturnedLedger, Release;
    LeakedAfter(fleet, db, after, m, slot);
    ReturnsHeldSlot(fleet, db, m);
    ReleaseUnused(db.jobs, db.ledger, HeldSlot(fleet, db.jobs[m]), m, slot);
  }

  /** A step that leaves the row, and `m` on or off it, as they were. */
  lemma NothingLeaks(fleet: Fleet, db: Db, after: Db, m: MessageId, slot: Slot)
    requires Replaces(db, after, m)
    requires IsUnused(after.ledger, slot) == IsUnused(db.ledger, slot)
    requires Holds(fleet, after.jobs[m], slot) == Holds(fleet, db.jobs[m], slot)
    ensures Leaked(fleet, after, slot) == Leaked(fleet, db, slot)
  {
    hide Leaked, IsUnused, SharedSlot, Holds;
    LeakedAfter(fleet, db, after, m, slot);
  }

  // ---- each step ------------------------------------------------------------------------------------

  lemma CancelLeaksIff(fleet: Fleet, db: Db, tenant: TenantId, m: MessageId, slot: Slot)
    ensures Leaked(fleet, CancelMessage(db, tenant, m), slot)
       <==> || Leaked(fleet, db, slot)
            || (LastOn(fleet, db, m, slot) && db.jobs[m].message.tenant == tenant
                && db.jobs[m].message.status.Assigned?)
  {
    hide Leaked, IsUnused, SharedSlot, HeldSlot;
    var after := CancelMessage(db, tenant, m);
    if m in db.jobs && db.jobs[m].message.tenant == tenant && IsCancellable(db.jobs[m].message.status) {
      assert Replaces(db, after, m) && after.ledger == db.ledger && !InFlight(after.jobs[m].message.status);
      LeakedAfter(fleet, db, after, m, slot);
      assert !Holds(fleet, after.jobs[m], slot);
      assert LastOn(fleet, db, m, slot) ==> Leaked(fleet, after, slot);
    }
  }

  lemma LeaseLeaksIff(fleet: Fleet, db: Db, m: MessageId, random: Random, now: Instant, slot: Slot)
    requires JobsInv(fleet, db)
    ensures Leaked(fleet, SweepExpiredLease(fleet, db, m, now, random), slot)
       <==> Leaked(fleet, db, slot) || Abandons(fleet, db, now, SweepLease(m, random), slot)
  {
    hide Leaked, Holds, SharedSlot, IsUnused, JobInv, KnownSims, ReturnedLedger, HeldByOther, RetryOrFail;
    if m in db.jobs && LeaseExpired(db.jobs[m].message, now) {
      RetryLeavesAttempts(PutCurrentAttempt(db.jobs[m], AttemptTimedOut, Some(LEASE_EXPIRED)), LEASE_EXPIRED, now,
                          random);
      ReturnLeaks(fleet, db, SweepExpiredLease(fleet, db, m, now, random), m, slot);
    }
  }

  lemma FailureLeaksIff(fleet: Fleet, db: Db, m: MessageId, k: nat, code: ReportedCode, now: Instant, random: Random,
                        slot: Slot)
    requires JobsInv(fleet, db) && m in db.jobs && k in db.jobs[m].attempts
    ensures Leaked(fleet, RecordFailure(fleet, db, m, k, code, now, random), slot)
       <==> Leaked(fleet, db, slot)
            || (LastOn(fleet, db, m, slot) && HeldByOther(db.jobs, slot, m) && IsCurrent(db.jobs[m], k))
  {
    hide Leaked, LastOn, JobInv, KnownSims, ReturnedLedger, HeldByOther, RetryOrFail, ApplyLateFailure;
    var after := RecordFailure(fleet, db, m, k, code, now, random);
    if IsCurrent(db.jobs[m], k) {
      var error := NormalizeErrorCode(code);
      RetryLeavesAttempts(PutCurrentAttempt(db.jobs[m], AttemptFailed, Some(error)), error, now, random);
      ReturnLeaks(fleet, db, after, m, slot);
    } else {
      LateFailureHoldsAlike(fleet, db.jobs[m], k, code, slot);
      NothingLeaks(fleet, db, after, m, slot);
    }
  }

  lemma LateFailureHoldsAlike(fleet: Fleet, job: Job, k: nat, code: ReportedCode, slot: Slot)
    requires k in job.attempts
    ensures Holds(fleet, ApplyLateFailure(job, k, code), slot) == Holds(fleet, job, slot)
  {
  }

  lemma SentMeansUsed(fleet: Fleet, db: Db, m: MessageId, k: nat)
    requires LedgerInv(fleet, db) && m in db.jobs && k in db.jobs[m].attempts
    requires db.jobs[m].attempts[k].status.AttemptSent?
    ensures !IsUnused(db.ledger, AttemptSlot(fleet, db.jobs[m], k))
  {
    var slot := AttemptSlot(fleet, db.jobs[m], k);
    assert MessagesSent(db.ledger, slot) == |SentAttempts(fleet, db.jobs, slot)|;
    assert (m, k) in SentAttempts(fleet, db.jobs, slot);
  }

  lemma SuccessEndsFlight(job: Job, k: nat)
    requires k in job.attempts
    ensures !InFlight(EnsureSent(job, k).message.status)
    ensures !CountsSend(job, k) ==> !InFlight(job.message.status)
  {
  }

  /** What a counted success makes of the rows. */
  lemma SuccessUnused(fleet: Fleet, db: Db, m: MessageId, k: nat, now: Instant, slot: Slot)
    requires m in db.jobs && k in db.jobs[m].attempts && CountsSend(db.jobs[m], k) && JobInv(db.jobs[m])
    ensures IsUnused(RecordSuccess(fleet, db, m, k, now).ledger, slot)
       <==> IsUnused(db.ledger, slot) && AttemptSlot(fleet, db.jobs[m], k) != slot
            && (Holds(fleet, db.jobs[m], slot) ==> HeldByOther(db.jobs, slot, m))
  {
    hide EnsureSent, CountAgainstDailyQuota, HeldByOther, Release;
    var job := db.jobs[m];
    if InFlight(job.message.status) && job.message.attempts != k {
      ReleaseUnused(db.jobs, db.ledger, HeldSlot(fleet, job), m, slot);
    }
  }

  lemma SuccessLeaksIff(fleet: Fleet, db: Db, m: MessageId, k: nat, now: Instant, slot: Slot)
    requires JobsInv(fleet, db) && LedgerInv(fleet, db) && m in db.jobs && k in db.jobs[m].attempts
    ensures Leaked(fleet, RecordSuccess(fleet, db, m, k, now), slot)
       <==> if Leaked(fleet, db, slot) then AttemptSlot(fleet, db.jobs[m], k) != slot
            else LastOn(fleet, db, m, slot) && HeldByOther(db.jobs, slot, m) && !IsCurrent(db.jobs[m], k)
  {
    hide Leaked, JobInv, KnownSims, LedgerInv, IsUnused, SharedSlot, HeldByOther, EnsureSent, RecordSuccess;
    var job, after := db.jobs[m], RecordSuccess(fleet, db, m, k, now);
    SuccessOnJob(fleet, db, m, k, now);
    SuccessEndsFlight(job, k);
    LeakedAfter(fleet, db, after, m, slot);
    if CountsSend(job, k) {
      SuccessUnused(fleet, db, m, k, now, slot);
      CurrentHolds(fleet, job, k, slot);
    } else {
      UncountedChangesNothing(fleet, db, m, k, now);
      SentMeansUsed(fleet, db, m, k);
    }
  }

  lemma UncountedChangesNothing(fleet: Fleet, db: Db, m: MessageId, k: nat, now: Instant)
    requires m in db.jobs && k in db.jobs[m].attempts && !CountsSend(db.jobs[m], k)
    ensures RecordSuccess(fleet, db, m, k, now) == db && db.jobs[m].attempts[k].status.AttemptSent?
  {
  }

  /** An attempt that is current is on the slot its message holds; another one is on another SIM. */
  lemma CurrentHolds(fleet: Fleet, job: Job, k: nat, slot: Slot)
    requires JobInv(job) && k in job.attempts
    ensures Holds(fleet, job, slot) ==> (IsCurrent(job, k) <==> AttemptSlot(fleet, job, k) == slot)
  {
  }

  /** A row that nobody needs yet is there for the message that took it. */
  lemma DeliveredLeaks(fleet: Fleet, db: Db, m: MessageId, now: Instant, route: Route, choice: Choice, slot: Slot)
    requires m in db.jobs && db.jobs[m].message.status.Queued? && choice.delivered
    requires GoodRoute(fleet, db, db.jobs[m], now, route)
    ensures Leaked(fleet, HandOver(fleet, db, m, now, route, choice), slot)
       <==> Leaked(fleet, db, slot) && SlotAt(fleet, route.sim, db.jobs[m].message.recipient, now) != slot
  {
    hide Leaked, SharedSlot, InFlightOn;
    LeakedAfter(fleet, db, HandOver(fleet, db, m, now, route, choice), m, slot);
  }

  lemma UndeliveredLeaks(fleet: Fleet, db: Db, m: MessageId, now: Instant, route: Route, choice: Choice, slot: Slot)
    requires SlotsInv(fleet, db)
    requires m in db.jobs && db.jobs[m].message.status.Queued? && !choice.delivered
    requires GoodRoute(fleet, db, db.jobs[m], now, route)
    ensures var taken := SlotAt(fleet, route.sim, db.jobs[m].message.recipient, now);
            Leaked(fleet, HandOver(fleet, db, m, now, route, choice), slot) <==>
              && (Leaked(fleet, db, slot) || (taken == slot && slot !in db.ledger))
              && (taken == slot ==> HeldByOther(db.jobs, slot, m))
  {
    var job, after := db.jobs[m], HandOver(fleet, db, m, now, route, choice);
    var given := AssignTo(fleet, db, m, now, route);
    hide Leaked, SharedSlot, InFlightOn, HeldByOther, Release, Assign, GoodRoute, SlotsInv;
    AssignKeepsRecipient(job, route.sim, fleet.sims[route.sim].gateway, now);
    HeldByOtherIgnoresExcept(db.jobs, slot, m, given.jobs[m]);
    ReleaseUnused(given.jobs, route.ledger, SlotAt(fleet, route.sim, job.message.recipient, now), m, slot);
    assert Replaces(db, after, m) && !InFlight(after.jobs[m].message.status);
    LeakedAfter(fleet, db, after, m, slot);
    RouteUnused(fleet, db, job, now, route, slot);
    if SharedSlot(fleet, db.jobs, slot, m) { SharedMeansPresent(fleet, db, slot, m); }
  }

  lemma AssignKeepsRecipient(job: Job, sim: SimId, gateway: GatewayId, now: Instant)
    ensures Assign(job, sim, gateway, now).message.recipient == job.message.recipient
  {
  }

  lemma RouteUnused(fleet: Fleet, db: Db, job: Job, now: Instant, route: Route, slot: Slot)
    requires GoodRoute(fleet, db, job, now, route)
    ensures var taken := SlotAt(fleet, route.sim, job.message.recipient, now);
            IsUnused(route.ledger, slot) <==> IsUnused(db.ledger, slot) || (taken == slot && slot !in db.ledger)
  {
    hide InFlightOn;
  }

  lemma SharedMeansPresent(fleet: Fleet, db: Db, slot: Slot, m: MessageId)
    requires SlotsInv(fleet, db) && SharedSlot(fleet, db.jobs, slot, m)
    ensures slot in db.ledger
  {
    var o :| o in db.jobs && o != m && Holds(fleet, db.jobs[o], slot);
    assert HoldsSlot(fleet, db.jobs[o], db.ledger);
  }

  /** An ending in dispatch, or a wait, is of a message that holds nothing. */
  lemma DispatchEndHoldsNothing(fleet: Fleet, job: Job, until: Instant, reason: DeferReason, slot: Slot)
    requires job.message.status.Queued?
    ensures !Holds(fleet, job, slot) && !Holds(fleet, Defer(job, until, reason), slot)
    ensures !Holds(fleet, MarkExpired(job), slot) && !Holds(fleet, MarkUndeliverable(job), slot)
  {
  }

  lemma DispatchLeaksIff(fleet: Fleet, db: Db, m: MessageId, choice: Choice, now: Instant, slot: Slot)
    requires SlotsInv(fleet, db)
    ensures Leaked(fleet, DispatchOne(fleet, db, m, now, choice), slot)
       <==> if Leaked(fleet, db, slot) then !Redeems(fleet, db, now, Dispatch(m, choice), slot)
            else Abandons(fleet, db, now, Dispatch(m, choice), slot)
  {
    hide Leaked, Holds, IsUnused, SlotsInv, HeldByOther, IsChoice, PickRoute, GoodRoute, HandOver, Defer, MarkExpired,
         MarkUndeliverable;
    var after := DispatchOne(fleet, db, m, now, choice);
    if m in db.jobs && Due(db.jobs[m].message, now) {
      var job := db.jobs[m];
      DispatchEndHoldsNothing(fleet, job, now, Busy, slot);
      if IsExpiredAt(job.message, now) || !job.message.hasBody {
        NothingLeaks(fleet, db, after, m, slot);
      } else if IsChoice(fleet, db, job, now, choice) {
        var d := PickRoute(fleet, db, job, now, choice);
        if d.Park? {
          DispatchEndHoldsNothing(fleet, job, d.until, d.reason, slot);
          NothingLeaks(fleet, db, after, m, slot);
        } else {
          PickedRouteIsGood(fleet, db, job, now, choice);
          LeakedIsPresent(fleet, db, slot);
          if choice.delivered {
            DeliveredLeaks(fleet, db, m, now, d.route, choice, slot);
          } else {
            UndeliveredLeaks(fleet, db, m, now, d.route, choice, slot);
          }
        }
      }
    }
  }

  lemma LeakedIsPresent(fleet: Fleet, db: Db, slot: Slot)
    ensures Leaked(fleet, db, slot) ==> slot in db.ledger
    ensures forall m :: LastOn(fleet, db, m, slot) ==> !Leaked(fleet, db, slot)
  {
  }

  lemma ReportLeaksIff(fleet: Fleet, db: Db, g: GatewayId, m: MessageId, verdict: Verdict, now: Instant,
                       random: Random, slot: Slot)
    requires JobsInv(fleet, db) && LedgerInv(fleet, db)
    ensures var action := SendResult(g, m, verdict, random);
            Leaked(fleet, RecordResult(fleet, db, g, m, verdict, now, random), slot) <==>
              if Leaked(fleet, db, slot) then !Redeems(fleet, db, now, action, slot)
              else Abandons(fleet, db, now, action, slot)
  {
    hide Leaked, LastOn, JobsInv, LedgerInv, HeldByOther, IsCurrent, RecordSuccess, RecordFailure;
    var k := AttemptOf(db, g, m);
    LeakedIsPresent(fleet, db, slot);
    if k.Some? {
      if verdict.SentVerdict? {
        SuccessLeaksIff(fleet, db, m, k.value, now, slot);
      } else {
        FailureLeaksIff(fleet, db, m, k.value, verdict.code, now, random, slot);
      }
    }
  }

  lemma DeliveredLeaksIff(fleet: Fleet, db: Db, g: GatewayId, m: MessageId, delivered: bool, now: Instant, slot: Slot)
    requires JobsInv(fleet, db) && LedgerInv(fleet, db)
    ensures var action := DeliveryStatus(g, m, delivered);
            Leaked(fleet, RecordDelivered(fleet, db, g, m, delivered, now), slot) <==>
              if Leaked(fleet, db, slot) then !Redeems(fleet, db, now, action, slot)
              else Abandons(fleet, db, now, action, slot)
  {
    hide Leaked, JobInv, KnownSims, LedgerInv, HeldByOther, IsUnused, SharedSlot, RecordSuccess, Settle, EnsureSent;
    var k := AttemptOf(db, g, m);
    if k.Some? {
      if ReportIsKnown(db.jobs[m].message, delivered) {
        KnownIsNotInFlight(db.jobs[m].message, delivered);
      } else {
        var sent := RecordSuccess(fleet, db, m, k.value, now);
        SuccessLeaksIff(fleet, db, m, k.value, now, slot);
        SuccessOnJob(fleet, db, m, k.value, now);
        SuccessEndsFlight(db.jobs[m], k.value);
        SettlingEndsFlight(sent.jobs[m], delivered);
        NothingLeaks(fleet, sent, RecordDelivered(fleet, db, g, m, delivered, now), m, slot);
      }
    }
  }

  lemma KnownIsNotInFlight(message: Message, delivered: bool)
    ensures ReportIsKnown(message, delivered) ==> !InFlight(message.status)
  {
  }

  lemma SettlingEndsFlight(job: Job, delivered: bool)
    ensures !InFlight(Settle(job, delivered).message.status)
  {
  }

  lemma SameHoldsSameLeaks(fleet: Fleet, db: Db, after: Db, slot: Slot)
    requires after.ledger == db.ledger && db.jobs.Keys <= after.jobs.Keys
    requires forall m :: m in after.jobs ==>
               Holds(fleet, after.jobs[m], slot) == (m in db.jobs && Holds(fleet, db.jobs[m], slot))
    ensures Leaked(fleet, after, slot) == Leaked(fleet, db, slot)
  {
    hide IsUnused, Holds;
  }

  lemma AcknowledgedHoldsAlike(fleet: Fleet, job: Job, k: nat, now: Instant, slot: Slot)
    requires k in job.attempts && IsCurrent(job, k)
    ensures Holds(fleet, Acknowledge(job, now), slot) == Holds(fleet, job, slot)
  {
  }

  lemma NewJobHoldsNothing(fleet: Fleet, request: Accepted, slot: Slot)
    ensures !Holds(fleet, NewJob(request), slot)
  {
  }

  lemma WaitingHoldsNothing(fleet: Fleet, job: Job, slot: Slot)
    ensures !Holds(fleet, Expire(job), slot) && !Holds(fleet, FailStranded(job), slot)
    ensures IsWaiting(job.message.status) ==> !Holds(fleet, job, slot)
  {
  }

  lemma AcceptLeaksNothing(fleet: Fleet, db: Db, m: MessageId, request: Accepted, slot: Slot)
    requires m !in db.jobs
    ensures Leaked(fleet, SetJob(db, m, NewJob(request)), slot) == Leaked(fleet, db, slot)
  {
    hide Leaked, Holds, NewJob;
    NewJobHoldsNothing(fleet, request, slot);
    SameHoldsSameLeaks(fleet, db, SetJob(db, m, NewJob(request)), slot);
  }

  lemma AssignmentLeaksNothing(fleet: Fleet, db: Db, g: GatewayId, assignment: Assignment, slot: Slot)
    ensures Leaked(fleet, AssignDevice(db, g, assignment), slot) == Leaked(fleet, db, slot)
  {
    hide Leaked, Holds, FailStranded;
    forall m | m in db.jobs
      ensures !Holds(fleet, FailStranded(db.jobs[m]), slot)
      ensures IsWaiting(db.jobs[m].message.status) ==> !Holds(fleet, db.jobs[m], slot)
    {
      WaitingHoldsNothing(fleet, db.jobs[m], slot);
    }
    SameHoldsSameLeaks(fleet, db, AssignDevice(db, g, assignment), slot);
  }

  /** Accepted, acknowledged, expired or stranded, a message stays on the slot it holds, or on
      none. */
  lemma QuietStepLeaksNothing(fleet: Fleet, db: Db, now: Instant, action: Action, slot: Slot)
    requires action.Accept? || action.Acknowledgement? || action.SweepDeadline? || action.AssignGateway?
    ensures Leaked(fleet, Step(fleet, db, now, action), slot) == Leaked(fleet, db, slot)
  {
    hide Leaked, Holds, IsUnused, Acknowledge, Expire, NewJob, AssignDevice, IsCurrent;
    match action
    case Accept(m, request) => if m !in db.jobs { AcceptLeaksNothing(fleet, db, m, request, slot); }
    case AssignGateway(g, assignment) => AssignmentLeaksNothing(fleet, db, g, assignment, slot);
    case Acknowledgement(g, m) =>
      if ReportsCurrent(db, g, m) && db.jobs[m].message.status.Assigned? {
        AcknowledgedHoldsAlike(fleet, db.jobs[m], AttemptOf(db, g, m).value, now, slot);
        NothingLeaks(fleet, db, RecordAcknowledgement(db, g, m, now), m, slot);
      }
    case SweepDeadline(m) =>
      if m in db.jobs && DeadlinePassed(db.jobs[m].message, now) {
        WaitingHoldsNothing(fleet, db.jobs[m], slot);
        NothingLeaks(fleet, db, SweepExpiredMessage(db, m, now), m, slot);
      }
  }

  // ---- every step, every run ------------------------------------------------------------------------

  /** In every step from a sound state: a row that was leaked stays so unless the step redeems it,
      and another one is leaked exactly when the step abandons it. */
  lemma StepLeaksIff(fleet: Fleet, db: Db, now: Instant, action: Action, slot: Slot)
    requires Inv(fleet, db)
    ensures Leaked(fleet, Step(fleet, db, now, action), slot)
       <==> if Leaked(fleet, db, slot) then !Redeems(fleet, db, now, action, slot)
            else Abandons(fleet, db, now, action, slot)
  {
    hide Leaked, JobsInv, LedgerInv, SlotsInv, InFlightInv, LastOn, Takes, DispatchOne, RecordResult, RecordDelivered,
         CancelMessage, SweepExpiredLease, HeldByOther;
    LeakedIsPresent(fleet, db, slot);
    match action
    case Dispatch(m, choice) => DispatchLeaksIff(fleet, db, m, choice, now, slot);
    case SendResult(g, m, verdict, random) => ReportLeaksIff(fleet, db, g, m, verdict, now, random, slot);
    case DeliveryStatus(g, m, delivered) => DeliveredLeaksIff(fleet, db, g, m, delivered, now, slot);
    case SweepLease(m, random) => LeaseLeaksIff(fleet, db, m, random, now, slot);
    case CancelRequest(tenant, m) => CancelLeaksIff(fleet, db, tenant, m, slot);
    case _ => QuietStepLeaksNothing(fleet, db, now, action, slot);
  }

  /** Step `i` of the run abandons the row. */
  ghost predicate AbandonsAt(fleet: Fleet, trace: seq<Event>, i: nat, slot: Slot)
    requires i < |trace|
  {
    Abandons(fleet, Run(fleet, EMPTY_DB, trace[..i]), trace[i].now, trace[i].action, slot)
  }

  ghost predicate RedeemsAt(fleet: Fleet, trace: seq<Event>, i: nat, slot: Slot)
    requires i < |trace|
  {
    Redeems(fleet, Run(fleet, EMPTY_DB, trace[..i]), trace[i].now, trace[i].action, slot)
  }

  /** Some step abandoned the row, and none redeemed it since. */
  ghost predicate WasAbandoned(fleet: Fleet, trace: seq<Event>, slot: Slot) {
    exists i :: && 0 <= i < |trace| && AbandonsAt(fleet, trace, i, slot)
                && forall j :: i < j < |trace| ==> !RedeemsAt(fleet, trace, j, slot)
  }

  lemma AbandonedBefore(fleet: Fleet, trace: seq<Event>, slot: Slot)
    requires trace != []
    ensures WasAbandoned(fleet, trace, slot)
       <==> || AbandonsAt(fleet, trace, |trace| - 1, slot)
            || (WasAbandoned(fleet, trace[..|trace| - 1], slot) && !RedeemsAt(fleet, trace, |trace| - 1, slot))
  {
    hide Run, Abandons, Redeems;
    var n := |trace| - 1;
    forall i | 0 <= i < n
      ensures AbandonsAt(fleet, trace[..n], i, slot) == AbandonsAt(fleet, trace, i, slot)
      ensures RedeemsAt(fleet, trace[..n], i, slot) == RedeemsAt(fleet, trace, i, slot)
    {
      assert trace[..n][..i] == trace[..i];
    }
  }

  lemma AbandonedWasHeld(fleet: Fleet, db: Db, now: Instant, action: Action, slot: Slot)
    ensures Abandons(fleet, db, now, action, slot) ==> !Leaked(fleet, db, slot)
  {
    hide Leaked, LastOn, Takes, HeldByOther;
    LeakedIsPresent(fleet, db, slot);
  }

  /** After any run, a row carries nothing and nobody is in flight on it, if and only if some step
      abandoned it and none redeemed it since. */
  lemma {:induction false} LeakedIff(fleet: Fleet, trace: seq<Event>, slot: Slot)
    ensures Leaked(fleet, Run(fleet, EMPTY_DB, trace), slot) <==> WasAbandoned(fleet, trace, slot)
    decreases |trace|
  {
    hide Step, Leaked, Abandons, Redeems, WasAbandoned, Inv;
    if trace == [] {
      NothingYet(fleet, slot);
    } else {
      var n := |trace| - 1;
      var before := Run(fleet, EMPTY_DB, trace[..n]);
      LeakedIff(fleet, trace[..n], slot);
      ReachableIsSound(fleet, before);
      StepLeaksIff(fleet, before, trace[n].now, trace[n].action, slot);
      AbandonedBefore(fleet, trace, slot);
      AbandonedWasHeld(fleet, before, trace[n].now, trace[n].action, slot);
    }
  }

  lemma NothingYet(fleet: Fleet, slot: Slot)
    ensures !Leaked(fleet, EMPTY_DB, slot) && !WasAbandoned(fleet, [], slot)
  {
  }
}
