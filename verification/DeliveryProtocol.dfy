/** The message delivery protocol: each transaction as one step on the platform's state. */
module DeliveryProtocol {
  import opened SmsTypes
  import opened MessageJob
  import opened RecipientAllowance
  import opened DeliveryState
  import opened SimPacing
  import opened SimProfileSelector
  import opened RetryPolicy

  const ALLOWANCE_EXHAUSTED_RETRY_SECONDS: real := 300.0

  /** What a dispatch does not decide itself: the SIMs usable at that moment, the rows the
      query returned, how the shortlist came out of the preference order, the draw behind a
      delay, and whether the device's socket took the job. */
  datatype Choice = Choice(usable: set<SimId>, rows: seq<SimId>, ranked: seq<Candidate>, random: Random,
                           delivered: bool)

  datatype Verdict = SentVerdict | FailedVerdict(code: ReportedCode)

  datatype Action =
    | Accept(m: MessageId, request: Accepted)
    | Dispatch(m: MessageId, choice: Choice)
    | Acknowledgement(g: GatewayId, m: MessageId)
    | SendResult(g: GatewayId, m: MessageId, verdict: Verdict, random: Random)
    | DeliveryStatus(g: GatewayId, m: MessageId, delivered: bool)
    | SweepLease(m: MessageId, random: Random)
    | SweepDeadline(m: MessageId)
    | CancelRequest(tenant: TenantId, m: MessageId)
    | AssignGateway(g: GatewayId, assignment: Assignment)

  function SetJob(db: Db, m: MessageId, job: Job): Db {
    db.(jobs := db.jobs[m := job])
  }

  // ---- dispatch ---------------------------------------------------------------------

  /** Where the walk over a shortlist ended, with the rows it left behind. */
  datatype Route =
    | Routed(sim: SimId, pacing: Pacing, ledger: Ledger)
    | Lost(pacing: Pacing)

  predicate AreFleetSims(fleet: Fleet, cs: seq<Candidate>) {
    forall c :: c in cs ==> c.sim in fleet.sims
  }

  function Walk(fleet: Fleet, pacing: Pacing, ledger: Ledger, recipient: Recipient, now: Instant, cs: seq<Candidate>)
    : (route: Route)
    requires AreFleetSims(fleet, cs)
    ensures route.Routed? ==> route.sim in fleet.sims
    decreases |cs|
  {
    if cs == [] then Lost(pacing)
    else
      var sim := cs[0].sim;
      var (reserved, held) := Reserve(fleet, pacing, sim, now);
      if !reserved then Walk(fleet, held, ledger, recipient, now, cs[1..])
      else
        var (outcome, claimed) := Claim(ledger, SlotAt(fleet, sim, recipient, now), cs[0].recipientLimit);
        if outcome.Full? then Walk(fleet, Unreserve(fleet, held, sim), ledger, recipient, now, cs[1..])
        else Routed(sim, held, claimed)
  }

  ghost predicate IsChoice(fleet: Fleet, db: Db, job: Job, now: Instant, choice: Choice) {
    var eligible := Eligible(fleet, db, job, choice.usable, fleet.billingDay(now));
    && IsFetch(eligible, choice.rows)
    && (forall i :: 0 <= i < |choice.rows| ==> choice.rows[i] in fleet.sims)
    && IsRanking(Candidates(fleet, db, job.message.recipient, now, choice.rows), choice.ranked)
    && AreFleetSims(fleet, choice.ranked)
  }

  datatype Decision =
    | Take(route: Route)
    | Park(until: Instant, reason: DeferReason, pacing: Pacing)

  /** The walk found a SIM, or every candidate was gone: contention, a short wait. */
  function TakeOrPark(route: Route, now: Instant, random: Random): (d: Decision)
    ensures d.Take? ==> d.route.Routed? && d.route == route
  {
    if route.Routed? then Take(route)
    else Park(now + NoCapacityDelaySeconds(random) as real, Busy, route.pacing)
  }

  function DecideRoute(fleet: Fleet, db: Db, recipient: Recipient, now: Instant, plan: RoutePlan, random: Random)
    : (d: Decision)
    requires plan.Try? ==> AreFleetSims(fleet, plan.candidates)
    ensures d.Take? ==> d.route.Routed? && d.route.sim in fleet.sims
  {
    match plan
    case Unavailable => Park(now + NoCapacityDelaySeconds(random) as real, DeferReason.Unavailable, db.pacing)
    case Exhausted => Park(now + ALLOWANCE_EXHAUSTED_RETRY_SECONDS, AllAllowanceUsed, db.pacing)
    case Wait(until) => Park(until, Busy, db.pacing)
    case Try(cs) => TakeOrPark(Walk(fleet, db.pacing, db.ledger, recipient, now, cs), now, random)
  }

  lemma PlanStaysInFleet(fleet: Fleet, cs: seq<Candidate>, ranked: seq<Candidate>, strategy: FillStrategy, now: Instant)
    requires AreFleetSims(fleet, cs) && AreFleetSims(fleet, ranked)
    ensures var plan := Plan(cs, ranked, strategy, now);
            plan.Try? ==> AreFleetSims(fleet, plan.candidates) && forall c :: c in plan.candidates ==> c.availableNow
  {
  }

  lemma ChosenPlanStaysInFleet(fleet: Fleet, db: Db, job: Job, now: Instant, choice: Choice)
    requires IsChoice(fleet, db, job, now, choice)
    ensures forall i :: 0 <= i < |choice.rows| ==> choice.rows[i] in fleet.sims
    ensures var cs := Candidates(fleet, db, job.message.recipient, now, choice.rows);
            var plan := Plan(cs, choice.ranked, fleet.strategy, now);
            plan.Try? ==> AreFleetSims(fleet, plan.candidates)
  {
    hide IsFetch, Eligible, IsRanking, Plan;
    var cs := Candidates(fleet, db, job.message.recipient, now, choice.rows);
    PlanStaysInFleet(fleet, cs, choice.ranked, fleet.strategy, now);
  }

  /** `pickRoute`, for a choice the environment may make. */
  ghost function PickRoute(fleet: Fleet, db: Db, job: Job, now: Instant, choice: Choice): (d: Decision)
    requires IsChoice(fleet, db, job, now, choice)
    ensures d.Take? ==> d.route.Routed? && d.route.sim in fleet.sims
  {
    ChosenPlanStaysInFleet(fleet, db, job, now, choice);
    var cs := Candidates(fleet, db, job.message.recipient, now, choice.rows);
    DecideRoute(fleet, db, job.message.recipient, now, Plan(cs, choice.ranked, fleet.strategy, now), choice.random)
  }

  /** The message is given to a SIM's device. */
  function AssignTo(fleet: Fleet, db: Db, m: MessageId, now: Instant, route: Route): Db
    requires m in db.jobs && route.Routed? && route.sim in fleet.sims
  {
    db.(jobs := db.jobs[m := Assign(db.jobs[m], route.sim, fleet.sims[route.sim].gateway, now)],
        pacing := route.pacing, ledger := route.ledger)
  }

  /** The socket had gone: the slot, the attempt and the reservation are handed back. */
  function RequeueUndelivered(fleet: Fleet, db: Db, m: MessageId, now: Instant, sim: SimId, random: Random): Db
    requires m in db.jobs && sim in fleet.sims
  {
    var job := db.jobs[m];
    db.(jobs := db.jobs[m := Requeue(job, job.message.attempts, now, random)],
        ledger := Release(db.jobs, db.ledger, SlotAt(fleet, sim, job.message.recipient, now), m),
        pacing := Unreserve(fleet, db.pacing, sim))
  }

  function HandOver(fleet: Fleet, db: Db, m: MessageId, now: Instant, route: Route, choice: Choice): Db
    requires m in db.jobs && route.Routed? && route.sim in fleet.sims
  {
    var given := AssignTo(fleet, db, m, now, route);
    if choice.delivered
    then given.(handOffs := db.handOffs + [HandOff(route.sim, fleet.sims[route.sim].gateway, now)])
    else RequeueUndelivered(fleet, given, m, now, route.sim, choice.random)
  }

  /** `dispatchOne` on message `m`. A choice the environment cannot make changes nothing. */
  ghost function DispatchOne(fleet: Fleet, db: Db, m: MessageId, now: Instant, choice: Choice): Db {
    if m !in db.jobs || !Due(db.jobs[m].message, now) then db
    else
      var job := db.jobs[m];
      if IsExpiredAt(job.message, now) then SetJob(db, m, MarkExpired(job))
      else if !job.message.hasBody then SetJob(db, m, MarkUndeliverable(job))
      else if !IsChoice(fleet, db, job, now, choice) then db
      else
        match PickRoute(fleet, db, job, now, choice)
        case Park(until, reason, pacing) => SetJob(db, m, Defer(job, until, reason)).(pacing := pacing)
        case Take(route) => HandOver(fleet, db, m, now, route, choice)
  }

  // ---- reports ----------------------------------------------------------------------

  /** The attempt at `m` that a report by device `g` is about. */
  function AttemptOf(db: Db, g: GatewayId, m: MessageId): (k: Option<nat>)
    ensures k.Some? ==> m in db.jobs && k.value in db.jobs[m].attempts
  {
    if m in db.jobs then OwnedAttempt(db.jobs[m], g) else None
  }

  function RecordAcknowledgement(db: Db, g: GatewayId, m: MessageId, now: Instant): Db {
    var k := AttemptOf(db, g, m);
    if k.None? || !IsCurrent(db.jobs[m], k.value) || !db.jobs[m].message.status.Assigned? then db
    else SetJob(db, m, Acknowledge(db.jobs[m], now))
  }

  /** The ledger once the attempt overtaken by `k`, if any, has given its slot back. */
  function SupersededLedger(fleet: Fleet, db: Db, m: MessageId, k: nat): Ledger
    requires m in db.jobs && k in db.jobs[m].attempts
  {
    var job := db.jobs[m];
    if !WasSent(job.message) && CallsOffCurrent(job, k)
    then Release(db.jobs, db.ledger, AttemptSlot(fleet, job, job.message.attempts), m)
    else db.ledger
  }

  function RecordSuccess(fleet: Fleet, db: Db, m: MessageId, k: nat, now: Instant): Db
    requires m in db.jobs && k in db.jobs[m].attempts
  {
    var job := db.jobs[m];
    if !CountsSend(job, k) then db
    else db.(
      jobs := db.jobs[m := EnsureSent(job, k)],
      ledger := RecordSent(SupersededLedger(fleet, db, m, k), AttemptSlot(fleet, job, k)),
      counters := CountAgainstDailyQuota(db.counters, job.attempts[k].sim, fleet.billingDay(now)))
  }

  /** The ledger once a message that leaves its SIM has given its slot back, if it may. */
  function ReturnedLedger(fleet: Fleet, db: Db, m: MessageId): Ledger
    requires m in db.jobs
  {
    var message := db.jobs[m].message;
    if message.sim.Some? && message.assignedAt.Some?
    then Release(db.jobs, db.ledger, SlotAt(fleet, message.sim.value, message.recipient, message.assignedAt.value), m)
    else db.ledger
  }

  function RecordFailure(fleet: Fleet, db: Db, m: MessageId, k: nat, code: ReportedCode, now: Instant, random: Random)
    : Db
    requires m in db.jobs && k in db.jobs[m].attempts
  {
    if IsCurrent(db.jobs[m], k)
    then SetJob(db, m, ApplyFailure(db.jobs[m], code, now, random)).(ledger := ReturnedLedger(fleet, db, m))
    else SetJob(db, m, ApplyLateFailure(db.jobs[m], k, code))
  }

  function RecordResult(fleet: Fleet, db: Db, g: GatewayId, m: MessageId, verdict: Verdict, now: Instant,
                        random: Random): Db {
    var k := AttemptOf(db, g, m);
    if k.None? then db
    else if verdict.SentVerdict? then RecordSuccess(fleet, db, m, k.value, now)
    else RecordFailure(fleet, db, m, k.value, verdict.code, now, random)
  }

  function RecordDelivered(fleet: Fleet, db: Db, g: GatewayId, m: MessageId, delivered: bool, now: Instant): Db {
    var k := AttemptOf(db, g, m);
    if k.None? || ReportIsKnown(db.jobs[m].message, delivered) then db
    else
      var sent := RecordSuccess(fleet, db, m, k.value, now);
      SetJob(sent, m, Settle(sent.jobs[m], delivered))
  }

  // ---- sweeps, cancellation, assignment ----------------------------------------------

  function SweepExpiredLease(fleet: Fleet, db: Db, m: MessageId, now: Instant, random: Random): Db {
    if m !in db.jobs || !LeaseExpired(db.jobs[m].message, now) then db
    else SetJob(db, m, ReclaimLease(db.jobs[m], now, random)).(ledger := ReturnedLedger(fleet, db, m))
  }

  function SweepExpiredMessage(db: Db, m: MessageId, now: Instant): Db {
    if m !in db.jobs || !DeadlinePassed(db.jobs[m].message, now) then db
    else SetJob(db, m, Expire(db.jobs[m]))
  }

  function CancelMessage(db: Db, tenant: TenantId, m: MessageId): Db {
    if m !in db.jobs || db.jobs[m].message.tenant != tenant || !IsCancellable(db.jobs[m].message.status) then db
    else SetJob(db, m, Cancel(db.jobs[m]))
  }

  /** The jobs after device `g` stopped being `tenant`'s. */
  function FailStrandedMessages(jobs: Jobs, tenant: TenantId, g: GatewayId): Jobs {
    map m | m in jobs :: if Stranded(jobs[m].message, tenant, g) then FailStranded(jobs[m]) else jobs[m]
  }

  function AssignDevice(db: Db, g: GatewayId, assignment: Assignment): Db {
    var previous := AssignmentOf(db, g);
    var given := db.(assignments := db.assignments[g := assignment]);
    if previous.Owned? && previous != assignment
    then given.(jobs := FailStrandedMessages(db.jobs, previous.tenant, g))
    else given
  }

  // ---- runs -------------------------------------------------------------------------

  ghost function Step(fleet: Fleet, db: Db, now: Instant, action: Action): Db {
    match action
    case Accept(m, request) => if m in db.jobs then db else SetJob(db, m, NewJob(request))
    case Dispatch(m, choice) => DispatchOne(fleet, db, m, now, choice)
    case Acknowledgement(g, m) => RecordAcknowledgement(db, g, m, now)
    case SendResult(g, m, verdict, random) => RecordResult(fleet, db, g, m, verdict, now, random)
    case DeliveryStatus(g, m, delivered) => RecordDelivered(fleet, db, g, m, delivered, now)
    case SweepLease(m, random) => SweepExpiredLease(fleet, db, m, now, random)
    case SweepDeadline(m) => SweepExpiredMessage(db, m, now)
    case CancelRequest(tenant, m) => CancelMessage(db, tenant, m)
    case AssignGateway(g, assignment) => AssignDevice(db, g, assignment)
  }

  /** A transaction, with the one clock reading it uses. */
  datatype Event = At(now: Instant, action: Action)

  ghost function Run(fleet: Fleet, db: Db, trace: seq<Event>): Db
    decreases |trace|
  {
    if trace == [] then db
    else
      var before := Run(fleet, db, trace[..|trace| - 1]);
      var last := trace[|trace| - 1];
      Step(fleet, before, last.now, last.action)
  }

  /** A state some run of the platform leads to. */
  ghost predicate Reachable(fleet: Fleet, db: Db) {
    exists trace :: Run(fleet, EMPTY_DB, trace) == db
  }

  lemma EmptyIsReached(fleet: Fleet)
    ensures Reachable(fleet, EMPTY_DB)
  {
    assert Run(fleet, EMPTY_DB, []) == EMPTY_DB;
  }

  lemma StepReaches(fleet: Fleet, db: Db, now: Instant, action: Action)
    requires Reachable(fleet, db)
    ensures Reachable(fleet, Step(fleet, db, now, action))
  {
    hide Step;
    var trace :| Run(fleet, EMPTY_DB, trace) == db;
    var longer := trace + [At(now, action)];
    assert longer[..|trace|] == trace;
    assert Run(fleet, EMPTY_DB, longer) == Step(fleet, db, now, action);
  }
}
