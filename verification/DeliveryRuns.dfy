/** What holds of whole runs: a sent message stays sent, replays are absorbed, reports may
    arrive in either order, lives are short and the published events tell one story. */
module DeliveryRuns {
  import opened SmsTypes
  import opened MessageJob
  import opened MessageLaws
  import opened PublishedEvents
  import opened RecipientAllowance
  import opened DeliveryState
  import opened DeliveryProtocol
  import opened ProtocolInvariant

  // ---- every step moves every message forward -----------------------------------------------

  lemma DispatchMovesForward(fleet: Fleet, db: Db, m: MessageId, now: Instant, choice: Choice)
    requires m in db.jobs && SoundJob(fleet, db.jobs[m])
    ensures m in DispatchOne(fleet, db, m, now, choice).jobs
    ensures Progress(db.jobs[m], DispatchOne(fleet, db, m, now, choice).jobs[m])
  {
    hide JobInv, KnownSims, Progress, IsChoice, PickRoute, GoodRoute, Walk, Defer, MarkExpired, MarkUndeliverable,
         Assign, Requeue;
    var job := db.jobs[m];
    ProgressIsReflexive(job);
    if Due(job.message, now) {
      DispatchEndIsLawful(job);
      if !IsExpiredAt(job.message, now) && job.message.hasBody && IsChoice(fleet, db, job, now, choice) {
        var d := PickRoute(fleet, db, job, now, choice);
        if d.Park? {
          DeferIsLawful(job, d.until, d.reason);
        } else {
          PickedRouteIsGood(fleet, db, job, now, choice);
          GoodRouteMovesForward(fleet, db, job, now, d.route, choice.random);
        }
      }
    }
  }

  lemma GoodRouteMovesForward(fleet: Fleet, db: Db, job: Job, now: Instant, route: Route, random: Random)
    requires JobInv(job) && job.message.status.Queued? && GoodRoute(fleet, db, job, now, route)
    ensures var given := Assign(job, route.sim, fleet.sims[route.sim].gateway, now);
            Progress(job, given) && Progress(job, Requeue(given, given.message.attempts, now, random))
  {
    hide Progress, JobInv;
    AssignIsLawful(job, route.sim, fleet.sims[route.sim].gateway, now);
    RequeueUndoesAssign(job, route.sim, fleet.sims[route.sim].gateway, now, random);
  }

  lemma ReportMovesForward(fleet: Fleet, db: Db, g: GatewayId, m: MessageId, verdict: Verdict, delivered: bool,
                           now: Instant, random: Random)
    requires m in db.jobs && SoundJob(fleet, db.jobs[m])
    ensures m in RecordResult(fleet, db, g, m, verdict, now, random).jobs
    ensures Progress(db.jobs[m], RecordResult(fleet, db, g, m, verdict, now, random).jobs[m])
    ensures m in RecordDelivered(fleet, db, g, m, delivered, now).jobs
    ensures Progress(db.jobs[m], RecordDelivered(fleet, db, g, m, delivered, now).jobs[m])
    ensures m in RecordAcknowledgement(db, g, m, now).jobs
    ensures Progress(db.jobs[m], RecordAcknowledgement(db, g, m, now).jobs[m])
  {
    hide JobInv, KnownSims, Progress, EnsureSent, Settle, RetryOrFail, ApplyLateFailure, Acknowledge;
    var job := db.jobs[m];
    ProgressIsReflexive(job);
    var owned := AttemptOf(db, g, m);
    if owned.Some? {
      var k := owned.value;
      EnsureSentIsLawful(job, k);
      DeliveryReportIsLawful(job, k, delivered);
      SuccessOnJob(fleet, db, m, k, now);
      if IsCurrent(job, k) {
        if verdict.FailedVerdict? {
          RetryOrFailIsLawful(job, AttemptFailed, NormalizeErrorCode(verdict.code), now, random);
        }
        if job.message.status.Assigned? { AcknowledgeIsLawful(job, k, now); }
      } else if verdict.FailedVerdict? {
        LateFailureIsLawful(job, k, verdict.code);
      }
    }
  }

  lemma SuccessOnJob(fleet: Fleet, db: Db, m: MessageId, k: nat, now: Instant)
    requires m in db.jobs && k in db.jobs[m].attempts
    ensures RecordSuccess(fleet, db, m, k, now).jobs == db.jobs[m := EnsureSent(db.jobs[m], k)]
  {
  }

  lemma EndMovesForward(fleet: Fleet, db: Db, m: MessageId, now: Instant, random: Random, tenant: TenantId,
                        g: GatewayId, assignment: Assignment)
    requires m in db.jobs && SoundJob(fleet, db.jobs[m])
    ensures m in SweepExpiredLease(fleet, db, m, now, random).jobs
    ensures Progress(db.jobs[m], SweepExpiredLease(fleet, db, m, now, random).jobs[m])
    ensures m in SweepExpiredMessage(db, m, now).jobs
    ensures Progress(db.jobs[m], SweepExpiredMessage(db, m, now).jobs[m])
    ensures m in CancelMessage(db, tenant, m).jobs
    ensures Progress(db.jobs[m], CancelMessage(db, tenant, m).jobs[m])
    ensures m in AssignDevice(db, g, assignment).jobs
    ensures Progress(db.jobs[m], AssignDevice(db, g, assignment).jobs[m])
  {
    hide JobInv, KnownSims, Progress, RetryOrFail, Expire, Cancel, FailStranded;
    var job := db.jobs[m];
    ProgressIsReflexive(job);
    if IsCancellable(job.message.status) { CancelIsLawful(job); }
    if IsWaiting(job.message.status) { WaitingEndIsLawful(job); }
    if InFlight(job.message.status) { RetryOrFailIsLawful(job, AttemptTimedOut, LEASE_EXPIRED, now, random); }
  }

  /** The message a transaction is about; a change of assignment may be about many. */
  function Subject(action: Action): Option<MessageId> {
    if action.AssignGateway? then None else Some(action.m)
  }

  lemma DispatchLeavesOthers(fleet: Fleet, db: Db, m: MessageId, now: Instant, choice: Choice, o: MessageId)
    requires o in db.jobs && o != m
    ensures o in DispatchOne(fleet, db, m, now, choice).jobs
    ensures DispatchOne(fleet, db, m, now, choice).jobs[o] == db.jobs[o]
  {
    hide IsChoice, PickRoute, Assign, Requeue, Defer, MarkExpired, MarkUndeliverable;
  }

  lemma StepLeavesOthers(fleet: Fleet, db: Db, now: Instant, action: Action, m: MessageId)
    requires m in db.jobs && Subject(action).Some? && Subject(action) != Some(m)
    ensures m in Step(fleet, db, now, action).jobs && Step(fleet, db, now, action).jobs[m] == db.jobs[m]
  {
    hide DispatchOne, EnsureSent, Settle, RetryOrFail, PutCurrentAttempt, ApplyLateFailure, Acknowledge, Expire, Cancel,
         SupersededLedger, ReturnedLedger, CountAgainstDailyQuota, NewJob, WasSent, IsCurrent;
    if action.Dispatch? { DispatchLeavesOthers(fleet, db, action.m, now, action.choice, m); }
  }

  lemma StepMovesForward(fleet: Fleet, db: Db, now: Instant, action: Action, m: MessageId)
    requires Inv(fleet, db) && m in db.jobs
    ensures m in Step(fleet, db, now, action).jobs
    ensures Progress(db.jobs[m], Step(fleet, db, now, action).jobs[m])
  {
    hide JobInv, KnownSims, LedgerInv, SlotsInv, InFlightInv, Progress, DispatchOne, RecordResult, RecordDelivered,
         AssignDevice, CancelMessage, RecordAcknowledgement, SweepExpiredLease, SweepExpiredMessage;
    ProgressIsReflexive(db.jobs[m]);
    if Subject(action).Some? && Subject(action) != Some(m) {
      StepLeavesOthers(fleet, db, now, action, m);
    } else {
      match action
      case Accept(_, _) =>
      case Dispatch(_, choice) => DispatchMovesForward(fleet, db, m, now, choice);
      case Acknowledgement(g, _) => ReportMovesForward(fleet, db, g, m, SentVerdict, true, now, 0.0);
      case SendResult(g, _, verdict, random) => ReportMovesForward(fleet, db, g, m, verdict, true, now, random);
      case DeliveryStatus(g, _, delivered) => ReportMovesForward(fleet, db, g, m, SentVerdict, delivered, now, 0.0);
      case SweepLease(_, random) => EndMovesForward(fleet, db, m, now, random, 0, 0, Unassigned);
      case SweepDeadline(_) => EndMovesForward(fleet, db, m, now, 0.0, 0, 0, Unassigned);
      case CancelRequest(tenant, _) => EndMovesForward(fleet, db, m, now, 0.0, tenant, 0, Unassigned);
      case AssignGateway(g, assignment) => EndMovesForward(fleet, db, m, now, 0.0, 0, g, assignment);
    }
  }

  lemma {:induction false} RunMovesForward(fleet: Fleet, db: Db, trace: seq<Event>, m: MessageId)
    requires Inv(fleet, db) && m in db.jobs
    ensures m in Run(fleet, db, trace).jobs
    ensures Progress(db.jobs[m], Run(fleet, db, trace).jobs[m])
    ensures Inv(fleet, Run(fleet, db, trace))
    decreases |trace|
  {
    hide Inv, Progress, Step;
    if trace == [] {
      ProgressIsReflexive(db.jobs[m]);
    } else {
      var last := trace[|trace| - 1];
      var before := Run(fleet, db, trace[..|trace| - 1]);
      RunMovesForward(fleet, db, trace[..|trace| - 1], m);
      StepMovesForward(fleet, before, last.now, last.action, m);
      StepKeepsInv(fleet, before, last.now, last.action);
      ProgressIsTransitive(db.jobs[m], before.jobs[m], Run(fleet, db, trace).jobs[m]);
    }
  }

  // ---- sent stays sent ------------------------------------------------------------------------

  /** Once an attempt has sent a message, whatever happens next: it still counts as sent, it
      is never handed to a device again, and no other attempt is ever made. */
  lemma SentStaysSent(fleet: Fleet, db: Db, m: MessageId, k: nat, trace: seq<Event>)
    requires Reachable(fleet, db)
    requires m in db.jobs && k in db.jobs[m].attempts && db.jobs[m].attempts[k].status.AttemptSent?
    ensures var after := Run(fleet, db, trace);
            && m in after.jobs
            && WasSent(after.jobs[m].message)
            && !after.jobs[m].message.status.Queued? && !InFlight(after.jobs[m].message.status)
            && after.jobs[m].attempts.Keys == db.jobs[m].attempts.Keys
            && after.jobs[m].attempts[k].status.AttemptSent?
  {
    hide LedgerInv, SlotsInv, InFlightInv, Run;
    ReachableIsSound(fleet, db);
    RunMovesForward(fleet, db, trace, m);
    assert HasSent(db.jobs[m]);
  }

  // ---- bounded lifecycle ------------------------------------------------------------------------

  /** How often the status of message `m` changes over a run that starts at `db`. */
  ghost function StatusChanges(fleet: Fleet, db: Db, trace: seq<Event>, m: MessageId): nat
    decreases |trace|
  {
    if trace == [] then 0
    else
      var before := Run(fleet, db, trace[..|trace| - 1]);
      var after := Run(fleet, db, trace);
      StatusChanges(fleet, db, trace[..|trace| - 1], m)
      + if m in before.jobs && m in after.jobs && after.jobs[m].message.status != before.jobs[m].message.status
        then 1 else 0
  }

  lemma {:induction false} ChangesCostRank(fleet: Fleet, db: Db, trace: seq<Event>, m: MessageId)
    requires Inv(fleet, db) && m in db.jobs
    ensures m in Run(fleet, db, trace).jobs
    ensures StatusChanges(fleet, db, trace, m) <= Rank(db.jobs[m].message) - Rank(Run(fleet, db, trace).jobs[m].message)
    decreases |trace|
  {
    hide Inv, Step, Rank, AttemptsGrow;
    if trace != [] {
      var last := trace[|trace| - 1];
      ChangesCostRank(fleet, db, trace[..|trace| - 1], m);
      RunMovesForward(fleet, db, trace[..|trace| - 1], m);
      StepMovesForward(fleet, Run(fleet, db, trace[..|trace| - 1]), last.now, last.action, m);
    }
  }

  lemma RankIsNatural(job: Job)
    requires JobInv(job)
    ensures 0 <= Rank(job.message)
  {
  }

  /** From its acceptance on, a message changes status at most three times per attempt it
      may make and three times more, however long the run and whatever devices report. */
  lemma BoundedLifecycle(fleet: Fleet, db: Db, m: MessageId, request: Accepted, now: Instant, trace: seq<Event>)
    requires Reachable(fleet, db) && m !in db.jobs
    ensures StatusChanges(fleet, Step(fleet, db, now, Accept(m, request)), trace, m) <= 3 * request.maxAttempts + 3
  {
    hide LedgerInv, SlotsInv, InFlightInv, Run, StatusChanges, JobInv;
    var start := Step(fleet, db, now, Accept(m, request));
    ReachableIsSound(fleet, db);
    StepKeepsInv(fleet, db, now, Accept(m, request));
    NewJobIsLawful(request);
    ChangesCostRank(fleet, start, trace, m);
    RunMovesForward(fleet, start, trace, m);
    RankIsNatural(Run(fleet, start, trace).jobs[m]);
  }

  // ---- replays ----------------------------------------------------------------------------------

  /** The attempt a device's report is about stays the same for as long as the message
      gains no attempt by that device. */
  lemma LatestAttemptIsStable(was: map<nat, Attempt>, n: nat, now: map<nat, Attempt>, n': nat, g: GatewayId)
    requires AttemptsGrow(was, now) && n <= n'
    requires forall k :: k in was ==> 1 <= k <= n
    requires forall k :: k in now && k !in was ==> now[k].gateway != g
    ensures LatestAttempt(now, n', g) == LatestAttempt(was, n, g)
  {
    var a, b := LatestAttempt(was, n, g), LatestAttempt(now, n', g);
    if b.Some? {
      assert b.value in was && was[b.value].gateway == g;
    }
    if a.Some? {
      assert a.value in now && now[a.value].gateway == g;
    }
  }

  /** Device `g` has made no attempt at the message since. */
  ghost predicate NoNewerAttempt(was: Job, now: Job, g: GatewayId) {
    forall k :: k in now.attempts && k !in was.attempts ==> now.attempts[k].gateway != g
  }

  lemma OwnedAttemptIsStable(was: Job, now: Job, g: GatewayId)
    requires JobInv(was) && Progress(was, now) && NoNewerAttempt(was, now, g)
    ensures OwnedAttempt(now, g) == OwnedAttempt(was, g)
  {
    LatestAttemptIsStable(was.attempts, was.message.attempts, now.attempts, now.message.attempts, g);
  }

  /** The report has been taken in: there is nothing it could still change. */
  ghost predicate Absorbed(job: Job, g: GatewayId, verdict: Verdict) {
    var k := OwnedAttempt(job, g);
    && k.Some?
    && if verdict.SentVerdict? then WasSent(job.message) && job.attempts[k.value].status.AttemptSent?
       else Settled(job.attempts[k.value].status)
  }

  lemma SuccessIsAbsorbed(job: Job, g: GatewayId, k: nat)
    requires JobInv(job) && OwnedAttempt(job, g) == Some(k)
    ensures Absorbed(EnsureSent(job, k), g, SentVerdict)
  {
    hide Rank;
    EnsureSentSends(job, k);
    SameKeysSameOwner(job, EnsureSent(job, k), g);
  }

  lemma FailureIsAbsorbed(job: Job, g: GatewayId, k: nat, code: ReportedCode, now: Instant, random: Random)
    requires JobInv(job) && OwnedAttempt(job, g) == Some(k)
    ensures IsCurrent(job, k) ==> Absorbed(ApplyFailure(job, code, now, random), g, FailedVerdict(code))
    ensures Absorbed(ApplyLateFailure(job, k, code), g, FailedVerdict(code))
  {
    hide Rank;
    SameKeysSameOwner(job, ApplyLateFailure(job, k, code), g);
    if IsCurrent(job, k) { SameKeysSameOwner(job, ApplyFailure(job, code, now, random), g); }
  }

  lemma ResultIsAbsorbed(fleet: Fleet, db: Db, g: GatewayId, m: MessageId, verdict: Verdict, now: Instant,
                         random: Random)
    requires m in db.jobs && JobInv(db.jobs[m]) && AttemptOf(db, g, m).Some?
    ensures var after := RecordResult(fleet, db, g, m, verdict, now, random);
            m in after.jobs && Absorbed(after.jobs[m], g, verdict)
  {
    hide JobInv, Absorbed, EnsureSent, ApplyFailure, ApplyLateFailure;
    var k := AttemptOf(db, g, m).value;
    if verdict.SentVerdict? {
      SuccessIsAbsorbed(db.jobs[m], g, k);
      SuccessOnJob(fleet, db, m, k, now);
    } else {
      FailureIsAbsorbed(db.jobs[m], g, k, verdict.code, now, random);
    }
  }

  lemma SameKeysSameOwner(was: Job, now: Job, g: GatewayId)
    requires JobInv(was) && now.attempts.Keys == was.attempts.Keys && now.message.attempts == was.message.attempts
    requires forall k :: k in was.attempts ==> now.attempts[k].gateway == was.attempts[k].gateway
    ensures OwnedAttempt(now, g) == OwnedAttempt(was, g)
  {
  }

  lemma AbsorbedStays(was: Job, now: Job, g: GatewayId, verdict: Verdict)
    requires JobInv(was) && JobInv(now) && Progress(was, now) && Absorbed(was, g, verdict)
    requires verdict.SentVerdict? || NoNewerAttempt(was, now, g)
    ensures Absorbed(now, g, verdict)
  {
    hide Rank;
    if verdict.SentVerdict? {
      assert HasSent(was);
      assert now.attempts.Keys == was.attempts.Keys;
    }
    OwnedAttemptIsStable(was, now, g);
  }

  lemma AbsorbedChangesNothing(fleet: Fleet, db: Db, g: GatewayId, m: MessageId, verdict: Verdict, now: Instant,
                               random: Random)
    requires m in db.jobs && JobInv(db.jobs[m]) && Absorbed(db.jobs[m], g, verdict)
    ensures RecordResult(fleet, db, g, m, verdict, now, random) == db
  {
    hide EnsureSent, RetryOrFail;
    var job, k := db.jobs[m], OwnedAttempt(db.jobs[m], g).value;
    if verdict.FailedVerdict? {
      assert !IsCurrent(job, k);
      assert db.jobs[m := job] == db.jobs;
    }
  }

  /** A send result, sent again by the same device at any later point of any run, changes
      nothing; a failure, unless the device has been given the message anew. */
  lemma ReplayedResultIsAbsorbed(fleet: Fleet, db: Db, g: GatewayId, m: MessageId, verdict: Verdict,
                                 now: Instant, random: Random, trace: seq<Event>, later: Instant, random': Random)
    requires Reachable(fleet, db) && AttemptOf(db, g, m).Some?
    requires var first := RecordResult(fleet, db, g, m, verdict, now, random);
             var end := Run(fleet, first, trace);
             verdict.SentVerdict? || (m in first.jobs && m in end.jobs && NoNewerAttempt(first.jobs[m], end.jobs[m], g))
    ensures var end := Run(fleet, RecordResult(fleet, db, g, m, verdict, now, random), trace);
            RecordResult(fleet, end, g, m, verdict, later, random') == end
  {
    hide LedgerInv, SlotsInv, InFlightInv, JobInv, KnownSims, Progress, Run, RecordResult, Absorbed, NoNewerAttempt;
    var first := RecordResult(fleet, db, g, m, verdict, now, random);
    ReachableIsSound(fleet, db);
    ResultKeepsInv(fleet, db, g, m, verdict, now, random);
    ResultIsAbsorbed(fleet, db, g, m, verdict, now, random);
    RunMovesForward(fleet, first, trace, m);
    var end := Run(fleet, first, trace);
    AbsorbedStays(first.jobs[m], end.jobs[m], g, verdict);
    AbsorbedChangesNothing(fleet, end, g, m, verdict, later, random');
  }

  lemma ReportBecomesKnown(fleet: Fleet, db: Db, g: GatewayId, m: MessageId, delivered: bool, now: Instant)
    requires AttemptOf(db, g, m).Some?
    ensures var after := RecordDelivered(fleet, db, g, m, delivered, now);
            m in after.jobs && ReportIsKnown(after.jobs[m].message, delivered)
  {
    hide EnsureSent;
  }

  lemma KnownStaysKnown(was: Job, now: Job, delivered: bool)
    requires Progress(was, now) && ReportIsKnown(was.message, delivered)
    ensures ReportIsKnown(now.message, delivered)
  {
  }

  /** A delivery report, sent again by the same device at any later point of any run, changes
      nothing. */
  lemma ReplayedReportIsAbsorbed(fleet: Fleet, db: Db, g: GatewayId, m: MessageId, delivered: bool,
                                 now: Instant, trace: seq<Event>, later: Instant)
    requires Reachable(fleet, db) && AttemptOf(db, g, m).Some?
    ensures var end := Run(fleet, RecordDelivered(fleet, db, g, m, delivered, now), trace);
            RecordDelivered(fleet, end, g, m, delivered, later) == end
  {
    hide LedgerInv, SlotsInv, InFlightInv, JobInv, KnownSims, Progress, Run, ReportIsKnown, RecordSuccess;
    var first := RecordDelivered(fleet, db, g, m, delivered, now);
    ReachableIsSound(fleet, db);
    DeliveredKeepsInv(fleet, db, g, m, delivered, now);
    ReportBecomesKnown(fleet, db, g, m, delivered, now);
    RunMovesForward(fleet, first, trace, m);
    KnownStaysKnown(first.jobs[m], Run(fleet, first, trace).jobs[m], delivered);
  }

  // ---- the published events -----------------------------------------------------------------------

  /** A device reports the operator's verdict as its own send error. */
  predicate ClaimsVerdict(action: Action) {
    action.SendResult? && action.verdict == FailedVerdict(Known(DELIVERY_FAILED))
  }

  ghost predicate AllTruthful(db: Db) {
    forall m :: m in db.jobs ==> Truthful(db.jobs[m])
  }

  lemma DispatchStepKeepsTruth(fleet: Fleet, db: Db, m: MessageId, now: Instant, choice: Choice)
    requires m in db.jobs && SoundJob(fleet, db.jobs[m]) && Truthful(db.jobs[m])
    ensures m in DispatchOne(fleet, db, m, now, choice).jobs && Truthful(DispatchOne(fleet, db, m, now, choice).jobs[m])
  {
    hide JobInv, KnownSims, Truthful, IsChoice, PickRoute, Walk, Defer, MarkExpired, MarkUndeliverable, Assign, Requeue;
    var job := db.jobs[m];
    if Due(job.message, now) {
      DispatchKeepsTruth(job, now, Busy, 0, 0, now, 0.0);
      if !IsExpiredAt(job.message, now) && job.message.hasBody && IsChoice(fleet, db, job, now, choice) {
        var d := PickRoute(fleet, db, job, now, choice);
        if d.Park? {
          DispatchKeepsTruth(job, d.until, d.reason, 0, 0, now, 0.0);
        } else {
          DispatchKeepsTruth(job, now, Busy, d.route.sim, fleet.sims[d.route.sim].gateway, now, choice.random);
          AssignCountsOne(job, d.route.sim, fleet.sims[d.route.sim].gateway, now);
        }
      }
    }
  }

  lemma AssignCountsOne(job: Job, sim: SimId, gateway: GatewayId, now: Instant)
    ensures Assign(job, sim, gateway, now).message.attempts == job.message.attempts + 1
  {
  }

  lemma ReportStepKeepsTruth(fleet: Fleet, db: Db, g: GatewayId, m: MessageId, verdict: Verdict, delivered: bool,
                             now: Instant, random: Random)
    requires m in db.jobs && SoundJob(fleet, db.jobs[m]) && Truthful(db.jobs[m])
    requires verdict != FailedVerdict(Known(DELIVERY_FAILED))
    ensures var after := RecordResult(fleet, db, g, m, verdict, now, random).jobs; m in after && Truthful(after[m])
    ensures var after := RecordDelivered(fleet, db, g, m, delivered, now).jobs; m in after && Truthful(after[m])
    ensures var after := RecordAcknowledgement(db, g, m, now).jobs; m in after && Truthful(after[m])
  {
    hide JobInv, KnownSims, Truthful, EnsureSent, Settle, ApplyFailure, ApplyLateFailure, Acknowledge;
    var job := db.jobs[m];
    var owned := AttemptOf(db, g, m);
    if owned.Some? {
      var k := owned.value;
      EnsureSentKeepsTruth(job, k);
      DeliveryReportKeepsTruth(job, k, delivered);
      SuccessOnJob(fleet, db, m, k, now);
      if IsCurrent(job, k) {
        if verdict.FailedVerdict? { FailureKeepsTruthIff(job, verdict.code, now, random); }
        AcknowledgeKeepsTruth(job, now);
      } else if verdict.FailedVerdict? {
        LateFailureKeepsTruth(job, k, verdict.code);
      }
    }
  }

  lemma EndStepKeepsTruth(fleet: Fleet, db: Db, m: MessageId, now: Instant, random: Random, tenant: TenantId,
                          g: GatewayId, assignment: Assignment)
    requires m in db.jobs && SoundJob(fleet, db.jobs[m]) && Truthful(db.jobs[m])
    ensures var after := SweepExpiredLease(fleet, db, m, now, random).jobs; m in after && Truthful(after[m])
    ensures var after := SweepExpiredMessage(db, m, now).jobs; m in after && Truthful(after[m])
    ensures var after := CancelMessage(db, tenant, m).jobs; m in after && Truthful(after[m])
    ensures var after := AssignDevice(db, g, assignment).jobs; m in after && Truthful(after[m])
  {
    hide JobInv, KnownSims, Truthful, ReclaimLease, Expire, Cancel, FailStranded;
    var job := db.jobs[m];
    if IsCancellable(job.message.status) { EndKeepsTruth(job); }
    if InFlight(job.message.status) { LeaseKeepsTruth(job, now, random); }
  }

  lemma StepKeepsTruth(fleet: Fleet, db: Db, now: Instant, action: Action)
    requires Inv(fleet, db) && AllTruthful(db) && !ClaimsVerdict(action)
    ensures AllTruthful(Step(fleet, db, now, action))
  {
    hide JobInv, KnownSims, LedgerInv, SlotsInv, InFlightInv, Truthful, DispatchOne, RecordResult, RecordDelivered,
         AssignDevice, CancelMessage, RecordAcknowledgement, SweepExpiredLease, SweepExpiredMessage, NewJob;
    var after := Step(fleet, db, now, action);
    forall m | m in after.jobs ensures Truthful(after.jobs[m]) {
      if m !in db.jobs {
        StepCreatesOnlyAccepted(fleet, db, now, action, m);
        NewJobIsTruthful(action.request);
      } else if Subject(action).Some? && Subject(action) != Some(m) {
        StepLeavesOthers(fleet, db, now, action, m);
      } else {
        match action
        case Accept(_, _) =>
        case Dispatch(_, choice) => DispatchStepKeepsTruth(fleet, db, m, now, choice);
        case Acknowledgement(g, _) => ReportStepKeepsTruth(fleet, db, g, m, SentVerdict, true, now, 0.0);
        case SendResult(g, _, verdict, random) => ReportStepKeepsTruth(fleet, db, g, m, verdict, true, now, random);
        case DeliveryStatus(g, _, delivered) => ReportStepKeepsTruth(fleet, db, g, m, SentVerdict, delivered, now, 0.0);
        case SweepLease(_, random) => EndStepKeepsTruth(fleet, db, m, now, random, 0, 0, Unassigned);
        case SweepDeadline(_) => EndStepKeepsTruth(fleet, db, m, now, 0.0, 0, 0, Unassigned);
        case CancelRequest(tenant, _) => EndStepKeepsTruth(fleet, db, m, now, 0.0, tenant, 0, Unassigned);
        case AssignGateway(g, assignment) => EndStepKeepsTruth(fleet, db, m, now, 0.0, 0, g, assignment);
      }
    }
  }

  lemma StepCreatesOnlyAccepted(fleet: Fleet, db: Db, now: Instant, action: Action, m: MessageId)
    requires m !in db.jobs && m in Step(fleet, db, now, action).jobs
    ensures action.Accept? && action.m == m && Step(fleet, db, now, action).jobs[m] == NewJob(action.request)
  {
    hide IsChoice, PickRoute, EnsureSent, Settle, RetryOrFail, PutCurrentAttempt, ApplyLateFailure, Acknowledge, Expire,
         Cancel,
         Assign, Requeue, Defer, MarkExpired, MarkUndeliverable, Walk, SupersededLedger, ReturnedLedger,
         CountAgainstDailyQuota, NewJob;
  }

  lemma {:induction false} HonestRunsAreTruthful(fleet: Fleet, trace: seq<Event>)
    requires forall i :: 0 <= i < |trace| ==> !ClaimsVerdict(trace[i].action)
    ensures Inv(fleet, Run(fleet, EMPTY_DB, trace)) && AllTruthful(Run(fleet, EMPTY_DB, trace))
    decreases |trace|
  {
    hide Inv, Truthful, Step, ClaimsVerdict;
    if trace == [] {
      assert Run(fleet, EMPTY_DB, []) == EMPTY_DB;
      ReachableIsSound(fleet, EMPTY_DB);
    } else {
      var n := |trace| - 1;
      HonestRunsAreTruthful(fleet, trace[..n]);
      StepKeepsTruth(fleet, Run(fleet, EMPTY_DB, trace[..n]), trace[n].now, trace[n].action);
      StepKeepsInv(fleet, Run(fleet, EMPTY_DB, trace[..n]), trace[n].now, trace[n].action);
    }
  }

  /** In every run in which no device passes the operator's verdict off as its own, the events
      published for each message follow the pattern a subscriber is promised. */
  lemma PublishedEventsFollowLifecycle(fleet: Fleet, trace: seq<Event>, m: MessageId)
    requires forall i :: 0 <= i < |trace| ==> !ClaimsVerdict(trace[i].action)
    requires m in Run(fleet, EMPTY_DB, trace).jobs
    ensures IsLifecycle(Run(fleet, EMPTY_DB, trace).jobs[m].published)
  {
    hide Inv, Truthful, Run, IsLifecycle;
    HonestRunsAreTruthful(fleet, trace);
    TruthfulIsLifecycle(Run(fleet, EMPTY_DB, trace).jobs[m]);
  }
}
