/** Why a hand-back is refused when it should not be, and runs in which slots leak. */
module LeakCauses {
  import opened SmsTypes
  import opened RetryPolicy
  import opened MessageJob
  import opened MessageLaws
  import opened RecipientAllowance
  import opened DeliveryState
  import opened DeliveryProtocol
  import opened ProtocolInvariant
  import opened DeliveryRuns
  import opened SequentialFill
  import opened SampleFleet
  import opened SoleDispatch
  import opened LeakedSlots

  /** What keeps a slot from being handed back is another message on it, or on the same SIM and
      number since some other day. */
  lemma KeptForSomeDayIff(fleet: Fleet, db: Db, slot: Slot, m: MessageId)
    requires JobsInv(fleet, db)
    ensures HeldByOther(db.jobs, slot, m) <==> exists day :: SharedSlot(fleet, db.jobs, slot.(day := day), m)
  {
    hide AttemptsShape, HasSent, KnownSims;
    if HeldByOther(db.jobs, slot, m) {
      var o :| && o in db.jobs && o != m && InFlight(db.jobs[o].message.status)
               && db.jobs[o].message.sim == Some(slot.sim) && db.jobs[o].message.recipient == slot.recipient;
      assert JobInv(db.jobs[o]);
      assert Holds(fleet, db.jobs[o], HeldSlot(fleet, db.jobs[o]));
      assert SharedSlot(fleet, db.jobs, slot.(day := HeldSlot(fleet, db.jobs[o]).day), m);
    }
    if day :| SharedSlot(fleet, db.jobs, slot.(day := day), m) {
      var o :| o in db.jobs && o != m && Holds(fleet, db.jobs[o], slot.(day := day));
      assert JobInv(db.jobs[o]);
    }
  }

  /** So a row is abandoned by a cancel, or for the sake of a message of another day. */
  lemma AbandonedForAnotherDay(fleet: Fleet, db: Db, now: Instant, action: Action, slot: Slot)
    requires Inv(fleet, db) && Abandons(fleet, db, now, action, slot)
    ensures || (action.CancelRequest? && action.m in db.jobs && db.jobs[action.m].message.status.Assigned?)
            || (Subject(action).Some?
                && exists day :: day != slot.day && SharedSlot(fleet, db.jobs, slot.(day := day), action.m))
  {
    hide JobsInv, LedgerInv, SlotsInv, InFlightInv, Takes, SharedSlot, HeldByOther, Holds, IsUnused;
    if !action.CancelRequest? {
      KeptForSomeDayIff(fleet, db, slot, action.m);
      var day :| SharedSlot(fleet, db.jobs, slot.(day := day), action.m);
      assert slot.(day := slot.day) == slot;
      if SharedSlot(fleet, db.jobs, slot, action.m) { SharedMeansPresent(fleet, db, slot, action.m); }
    }
  }

  // ---- on one operator day --------------------------------------------------------------------------

  ghost predicate StartedOn(fleet: Fleet, job: Job, day: Day) {
    forall k :: k in job.attempts ==> fleet.billingDay(job.attempts[k].startedAt) == day
  }

  ghost predicate AllStartedOn(fleet: Fleet, jobs: Jobs, day: Day) {
    forall m :: m in jobs ==> StartedOn(fleet, jobs[m], day)
  }

  lemma ReportsKeepDay(fleet: Fleet, job: Job, k: nat, code: ReportedCode, delivered: bool, now: Instant,
                       random: Random, day: Day)
    requires StartedOn(fleet, job, day) && k in job.attempts
    ensures StartedOn(fleet, EnsureSent(job, k), day)
    ensures StartedOn(fleet, Settle(job, delivered), day)
    ensures StartedOn(fleet, Settle(EnsureSent(job, k), delivered), day)
    ensures StartedOn(fleet, ApplyFailure(job, code, now, random), day)
    ensures StartedOn(fleet, ApplyLateFailure(job, k, code), day)
    ensures StartedOn(fleet, Acknowledge(job, now), day)
  {
    hide DecideRetry;
  }

  lemma EndsKeepDay(fleet: Fleet, job: Job, now: Instant, random: Random, day: Day)
    requires StartedOn(fleet, job, day)
    ensures StartedOn(fleet, ReclaimLease(job, now, random), day)
    ensures StartedOn(fleet, Expire(job), day) && StartedOn(fleet, Cancel(job), day)
    ensures StartedOn(fleet, FailStranded(job), day)
  {
    hide DecideRetry;
  }

  lemma DispatchKeepsDay(fleet: Fleet, job: Job, sim: SimId, g: GatewayId, until: Instant, reason: DeferReason,
                         now: Instant, random: Random, day: Day)
    requires StartedOn(fleet, job, day) && fleet.billingDay(now) == day
    ensures StartedOn(fleet, MarkExpired(job), day) && StartedOn(fleet, MarkUndeliverable(job), day)
    ensures StartedOn(fleet, Defer(job, until, reason), day)
    ensures var given := Assign(job, sim, g, now);
            StartedOn(fleet, given, day) && StartedOn(fleet, Requeue(given, given.message.attempts, now, random), day)
  {
  }

  lemma DispatchStepKeepsDay(fleet: Fleet, db: Db, m: MessageId, now: Instant, choice: Choice, day: Day)
    requires m in db.jobs && StartedOn(fleet, db.jobs[m], day) && fleet.billingDay(now) == day
    ensures m in DispatchOne(fleet, db, m, now, choice).jobs
    ensures StartedOn(fleet, DispatchOne(fleet, db, m, now, choice).jobs[m], day)
  {
    hide StartedOn, IsChoice, PickRoute, Walk, Defer, MarkExpired, MarkUndeliverable, Assign, Requeue;
    var job := db.jobs[m];
    DispatchKeepsDay(fleet, job, 0, 0, now, Busy, now, 0.0, day);
    if IsChoice(fleet, db, job, now, choice) {
      var d := PickRoute(fleet, db, job, now, choice);
      if d.Park? {
        DispatchKeepsDay(fleet, job, 0, 0, d.until, d.reason, now, 0.0, day);
      } else {
        DispatchKeepsDay(fleet, job, d.route.sim, fleet.sims[d.route.sim].gateway, now, Busy, now, choice.random, day);
        AssignCountsOne(job, d.route.sim, fleet.sims[d.route.sim].gateway, now);
      }
    }
  }

  lemma ReportStepKeepsDay(fleet: Fleet, db: Db, now: Instant, action: Action, day: Day)
    requires action.Acknowledgement? || action.SendResult? || action.DeliveryStatus?
    requires action.m in db.jobs && StartedOn(fleet, db.jobs[action.m], day)
    ensures action.m in Step(fleet, db, now, action).jobs
    ensures StartedOn(fleet, Step(fleet, db, now, action).jobs[action.m], day)
  {
    hide StartedOn, EnsureSent, Settle, ApplyFailure, ApplyLateFailure, Acknowledge, RecordSuccess, ReturnedLedger,
         IsCurrent;
    var k := AttemptOf(db, action.g, action.m);
    if k.Some? {
      var code := if action.SendResult? && action.verdict.FailedVerdict? then action.verdict.code else Missing;
      var random := if action.SendResult? then action.random else 0.0;
      ReportsKeepDay(fleet, db.jobs[action.m], k.value, code, action.DeliveryStatus? && action.delivered, now, random,
                     day);
      SuccessOnJob(fleet, db, action.m, k.value, now);
    }
  }

  lemma EndStepKeepsDay(fleet: Fleet, db: Db, now: Instant, action: Action, m: MessageId, day: Day)
    requires action.SweepLease? || action.SweepDeadline? || action.CancelRequest? || action.AssignGateway?
    requires m in db.jobs && StartedOn(fleet, db.jobs[m], day)
    ensures m in Step(fleet, db, now, action).jobs && StartedOn(fleet, Step(fleet, db, now, action).jobs[m], day)
  {
    hide StartedOn, ReclaimLease, Expire, Cancel, FailStranded, ReturnedLedger;
    EndsKeepDay(fleet, db.jobs[m], now, if action.SweepLease? then action.random else 0.0, day);
  }

  lemma StepKeepsDay(fleet: Fleet, db: Db, now: Instant, action: Action, day: Day)
    requires AllStartedOn(fleet, db.jobs, day) && (action.Dispatch? ==> fleet.billingDay(now) == day)
    ensures AllStartedOn(fleet, Step(fleet, db, now, action).jobs, day)
  {
    var after := Step(fleet, db, now, action);
    hide Step, StartedOn;
    forall m | m in after.jobs ensures StartedOn(fleet, after.jobs[m], day) {
      if m !in db.jobs {
        StepCreatesOnlyAccepted(fleet, db, now, action, m);
        NewJobStartsNothing(fleet, action.request, day);
      } else if Subject(action).Some? && Subject(action) != Some(m) {
        StepLeavesOthers(fleet, db, now, action, m);
      } else {
        SubjectKeepsDay(fleet, db, now, action, m, day);
      }
    }
  }

  lemma NewJobStartsNothing(fleet: Fleet, request: Accepted, day: Day)
    ensures StartedOn(fleet, NewJob(request), day)
  {
  }

  lemma SubjectKeepsDay(fleet: Fleet, db: Db, now: Instant, action: Action, m: MessageId, day: Day)
    requires m in db.jobs && StartedOn(fleet, db.jobs[m], day) && (action.Dispatch? ==> fleet.billingDay(now) == day)
    requires action.AssignGateway? || action.m == m
    ensures m in Step(fleet, db, now, action).jobs && StartedOn(fleet, Step(fleet, db, now, action).jobs[m], day)
  {
    hide StartedOn, DispatchOne, RecordResult, RecordDelivered, RecordAcknowledgement, AssignDevice, CancelMessage,
         SweepExpiredLease, SweepExpiredMessage;
    match action
    case Accept(_, _) =>
    case Dispatch(_, choice) => DispatchStepKeepsDay(fleet, db, m, now, choice, day);
    case Acknowledgement(_, _) => ReportStepKeepsDay(fleet, db, now, action, day);
    case SendResult(_, _, _, _) => ReportStepKeepsDay(fleet, db, now, action, day);
    case DeliveryStatus(_, _, _) => ReportStepKeepsDay(fleet, db, now, action, day);
    case _ => EndStepKeepsDay(fleet, db, now, action, m, day);
  }

  /** All dispatches of the run fall on that operator day. */
  ghost predicate DispatchesOn(fleet: Fleet, trace: seq<Event>, day: Day) {
    forall i :: 0 <= i < |trace| && trace[i].action.Dispatch? ==> fleet.billingDay(trace[i].now) == day
  }

  /** No message is cancelled while a device has it. */
  ghost predicate CancelsOnlyWaiting(fleet: Fleet, trace: seq<Event>) {
    forall i :: 0 <= i < |trace| && trace[i].action.CancelRequest? ==>
      var jobs, m := Run(fleet, EMPTY_DB, trace[..i]).jobs, trace[i].action.m;
      m in jobs ==> !jobs[m].message.status.Assigned?
  }

  lemma {:induction false} RunKeepsDay(fleet: Fleet, trace: seq<Event>, day: Day)
    requires DispatchesOn(fleet, trace, day)
    ensures AllStartedOn(fleet, Run(fleet, EMPTY_DB, trace).jobs, day)
    decreases |trace|
  {
    hide Step, StartedOn;
    if trace != [] {
      var n := |trace| - 1;
      RunKeepsDay(fleet, trace[..n], day);
      StepKeepsDay(fleet, Run(fleet, EMPTY_DB, trace[..n]), trace[n].now, trace[n].action, day);
    }
  }

  lemma OneDayHolds(fleet: Fleet, db: Db, m: MessageId, slot: Slot, day: Day)
    requires AllStartedOn(fleet, db.jobs, day) && SharedSlot(fleet, db.jobs, slot, m)
    ensures slot.day == day
  {
  }

  lemma AbandonedThatDay(fleet: Fleet, db: Db, now: Instant, action: Action, slot: Slot, day: Day)
    requires AllStartedOn(fleet, db.jobs, day) && (action.Dispatch? ==> fleet.billingDay(now) == day)
    ensures Abandons(fleet, db, now, action, slot) ==> slot.day == day
  {
    hide Routes, PickRoute, HeldByOther, SharedSlot, IsUnused;
  }

  lemma NothingAbandonedInADay(fleet: Fleet, trace: seq<Event>, i: nat, slot: Slot, day: Day)
    requires i < |trace| && DispatchesOn(fleet, trace, day) && CancelsOnlyWaiting(fleet, trace)
    ensures !AbandonsAt(fleet, trace, i, slot)
  {
    hide Run, Abandons, Inv, SharedSlot;
    var db, action := Run(fleet, EMPTY_DB, trace[..i]), trace[i].action;
    ReachableIsSound(fleet, db);
    RunKeepsDay(fleet, trace[..i], day);
    if AbandonsAt(fleet, trace, i, slot) {
      AbandonedThatDay(fleet, db, trace[i].now, action, slot, day);
      AbandonedForAnotherDay(fleet, db, trace[i].now, action, slot);
      var other :| other != slot.day && SharedSlot(fleet, db.jobs, slot.(day := other), action.m);
      OneDayHolds(fleet, db, action.m, slot.(day := other), day);
    }
  }

  /** Within one operator day, and while nothing is cancelled that a device has, nothing leaks:
      every unused row has a message in flight on it. */
  lemma OneDayLeaksNothing(fleet: Fleet, trace: seq<Event>, slot: Slot, day: Day)
    requires DispatchesOn(fleet, trace, day) && CancelsOnlyWaiting(fleet, trace)
    ensures !Leaked(fleet, Run(fleet, EMPTY_DB, trace), slot)
  {
    hide Run, Leaked, AbandonsAt, RedeemsAt, DispatchesOn, CancelsOnlyWaiting;
    LeakedIff(fleet, trace, slot);
    forall i | 0 <= i < |trace| ensures !AbandonsAt(fleet, trace, i, slot) {
      NothingAbandonedInADay(fleet, trace, i, slot, day);
    }
  }

  // ---- runs in which slots leak -----------------------------------------------------------------------

  const RECIPIENT := Asked(1).recipient

  /** A message was given to a SIM that may take one number a day, and cancelled at once. */
  function Cancelled(): Db {
    CancelMessage(GivenTo(Capped(), OneWaiting(1), 0, 0.0, 0), 0, 0)
  }

  lemma CappedIsOpen()
    ensures IsOpenTo(Capped(), OneWaiting(1), 0, 0.0, 0)
  {
    assert InFlightOn(OneWaiting(1).jobs, 0) == {};
    assert UsedSlots(OneWaiting(1).ledger, 0, 0) == {};
  }

  lemma CancelledIsReached()
    ensures Reachable(Capped(), Cancelled())
  {
    hide Reachable, IsOpenTo, GivenTo, OnlyTo, DispatchOne, CancelMessage;
    CappedIsOpen();
    OneWaitingIsReached(Capped(), 1);
    OnlySimIsTaken(Capped(), OneWaiting(1), 0, 0.0, 0);
    StepReaches(Capped(), OneWaiting(1), 0.0, Dispatch(0, OnlyTo(Capped(), OneWaiting(1), 0, 0.0, 0, true)));
    StepReaches(Capped(), GivenTo(Capped(), OneWaiting(1), 0, 0.0, 0), 0.0, CancelRequest(0, 0));
  }

  /** A cancelled message uses up the cap: nothing was sent that day and nothing is in flight, and
      the SIM has no room for another number. */
  lemma CancelUsesUpTheCap()
    ensures Reachable(Capped(), Cancelled()) && 0 in Capped().sims
    ensures Leaked(Capped(), Cancelled(), Slot(0, 0, RECIPIENT))
    ensures forall m :: m in Cancelled().jobs ==> !InFlight(Cancelled().jobs[m].message.status)
    ensures forall slot :: MessagesSent(Cancelled().ledger, slot) == 0
    ensures IsFull(Capped(), Cancelled(), 0, 0)
  {
    CancelledIsReached();
    var db, slot := Cancelled(), Slot(0, 0, RECIPIENT);
    assert db.ledger == map[slot := 0];
    assert UsedSlots(db.ledger, 0, 0) == {slot};
    assert db.jobs[0].message.status.Cancelled?;
  }

  /** Two messages at a time, and a new operator day after a while. */
  function Midnight(): Fleet {
    Fleet(map[0 := ROW.(maxInFlight := 2)], None, Sequential, (at: Instant) => if at < 100.0 then 0 else 1)
  }

  function GivenYesterday(): Db {
    GivenTo(Midnight(), TwoWaiting(), 0, 0.0, 0)
  }

  function GivenToday(): Db {
    GivenTo(Midnight(), GivenYesterday(), 1, 100.0, 0)
  }

  function FailedToday(): Db {
    RecordFailure(Midnight(), GivenToday(), 1, 1, Missing, 100.0, 0.0)
  }

  lemma YesterdayIsOpen()
    ensures IsOpenTo(Midnight(), TwoWaiting(), 0, 0.0, 0)
  {
    assert InFlightOn(TwoWaiting().jobs, 0) == {};
  }

  lemma TodayIsOpen()
    ensures IsOpenTo(Midnight(), GivenYesterday(), 1, 100.0, 0)
  {
    assert InFlightOn(GivenYesterday().jobs, 0) == {0};
  }

  lemma FailureIsReported()
    ensures Step(Midnight(), GivenToday(), 100.0, SendResult(0, 1, FailedVerdict(Missing), 0.0)) == FailedToday()
  {
    hide RecordFailure;
  }

  lemma GivenTodayIsReached()
    ensures Reachable(Midnight(), GivenToday())
  {
    hide Reachable, IsOpenTo, GivenTo, OnlyTo, DispatchOne;
    var fleet := Midnight();
    YesterdayIsOpen(); TodayIsOpen();
    TwoWaitingAreReached(fleet);
    OnlySimIsTaken(fleet, TwoWaiting(), 0, 0.0, 0);
    StepReaches(fleet, TwoWaiting(), 0.0, Dispatch(0, OnlyTo(fleet, TwoWaiting(), 0, 0.0, 0, true)));
    OnlySimIsTaken(fleet, GivenYesterday(), 1, 100.0, 0);
    StepReaches(fleet, GivenYesterday(), 100.0, Dispatch(1, OnlyTo(fleet, GivenYesterday(), 1, 100.0, 0, true)));
  }

  /** Both messages are in flight on the SIM, each on its own day's slot. */
  lemma BothAreHeld()
    ensures var db := GivenToday();
            && 0 in db.jobs && Holds(Midnight(), db.jobs[0], Slot(0, 0, RECIPIENT))
            && LastOn(Midnight(), db, 1, Slot(0, 1, RECIPIENT)) && HeldByOther(db.jobs, Slot(0, 1, RECIPIENT), 1)
            && 1 in db.jobs[1].attempts && IsCurrent(db.jobs[1], 1)
  {
  }

  /** A message of yesterday that is still in flight keeps today's slot of a failed one. */
  lemma YesterdayKeepsTodaysSlot()
    ensures Reachable(Midnight(), FailedToday())
    ensures Leaked(Midnight(), FailedToday(), Slot(0, 1, RECIPIENT))
    ensures 0 in FailedToday().jobs && Holds(Midnight(), FailedToday().jobs[0], Slot(0, 0, RECIPIENT))
  {
    hide Reachable, Leaked, LastOn, Holds, HeldByOther, GivenToday, Inv, Step, ApplyFailure, ReturnedLedger;
    var fleet, db := Midnight(), GivenToday();
    GivenTodayIsReached();
    BothAreHeld();
    StepReaches(fleet, db, 100.0, SendResult(0, 1, FailedVerdict(Missing), 0.0));
    FailureIsReported();
    ReachableIsSound(fleet, db);
    assert JobsInv(fleet, db) by { InvMeansJobsInv(fleet, db); }
    FailureLeaksIff(fleet, db, 1, 1, Missing, 100.0, 0.0, Slot(0, 1, RECIPIENT));
  }

  lemma InvMeansJobsInv(fleet: Fleet, db: Db)
    requires Inv(fleet, db)
    ensures JobsInv(fleet, db)
  {
  }
}
