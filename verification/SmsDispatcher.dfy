/** Dispatching, statement by statement. Each contract ties the writes of a method to the
    protocol step they make up. */
module SmsDispatcher {
  import opened SmsTypes
  import opened RetryPolicy
  import opened MessageJob
  import opened RecipientAllowance
  import opened DeliveryState
  import opened SimPacing
  import opened SimProfileSelector
  import opened DeliveryProtocol
  import opened Database
  import opened SetSizes

  datatype RouteDecision =
    | RouteTo(sim: SimId)
    | DeferUntil(reason: DeferReason, until: Instant)

  datatype Outcome = WasDispatched | WasDeferred | WasExpired | WasUndeliverable

  /** Tries candidates in turn until one can be both reserved and claimed. */
  method WalkShortlist(db: Tables, fleet: Fleet, recipient: Recipient, now: Instant, cs: seq<Candidate>)
    returns (taken: Option<SimId>)
    requires AreFleetSims(fleet, cs)
    modifies db`ledger, db`simWindows, db`gatewayWindows
    ensures Walk(fleet, old(db.Windows()), old(db.ledger), recipient, now, cs)
         == if taken.Some? then Routed(taken.value, db.Windows(), db.ledger) else Lost(db.Windows())
    ensures taken.None? ==> db.ledger == old(db.ledger)
    ensures taken.Some? ==> taken.value in fleet.sims
  {
    assert cs[0..] == cs;
    for i := 0 to |cs|
      invariant db.ledger == old(db.ledger)
      invariant Walk(fleet, db.Windows(), db.ledger, recipient, now, cs[i..])
             == Walk(fleet, old(db.Windows()), old(db.ledger), recipient, now, cs)
    {
      var sim := cs[i].sim;
      assert cs[i..][1..] == cs[i + 1..];
      var reserved := db.ReserveSim(fleet, sim, now);
      if !reserved { continue; }
      var allowance := db.ClaimSlot(SlotAt(fleet, sim, recipient, now), cs[i].recipientLimit);
      if allowance.Full? {
        db.ReleaseSim(fleet, sim);
        continue;
      }
      return Some(sim);
    }
    return None;
  }

  method PickRouteFor(db: Tables, fleet: Fleet, m: MessageId, now: Instant, choice: Choice)
    returns (decision: RouteDecision)
    requires m in db.jobs && IsChoice(fleet, db.State(), db.jobs[m], now, choice)
    modifies db`ledger, db`simWindows, db`gatewayWindows
    ensures PickRoute(fleet, old(db.State()), db.jobs[m], now, choice)
         == if decision.RouteTo? then Take(Routed(decision.sim, db.Windows(), db.ledger))
            else Park(decision.until, decision.reason, db.Windows())
    ensures decision.DeferUntil? ==> db.ledger == old(db.ledger)
    ensures decision.RouteTo? ==> decision.sim in fleet.sims
  {
    hide IsChoice, Walk, Plan, Candidates, AreFleetSims;
    ChosenPlanStaysInFleet(fleet, db.State(), db.jobs[m], now, choice);
    var recipient := db.jobs[m].message.recipient;
    var candidates := Candidates(fleet, db.State(), recipient, now, choice.rows);
    var plan := Plan(candidates, choice.ranked, fleet.strategy, now);
    if plan.Unavailable? {
      return DeferUntil(DeferReason.Unavailable, now + NoCapacityDelaySeconds(choice.random) as real);
    }
    if plan.Exhausted? {
      return DeferUntil(AllAllowanceUsed, now + ALLOWANCE_EXHAUSTED_RETRY_SECONDS);
    }
    if plan.Wait? { return DeferUntil(Busy, plan.until); }
    var taken := WalkShortlist(db, fleet, recipient, now, plan.candidates);
    if taken.Some? { return RouteTo(taken.value); }
    return DeferUntil(Busy, now + NoCapacityDelaySeconds(choice.random) as real);
  }

  method DeferMessage(db: Tables, m: MessageId, until: Instant, reason: DeferReason)
    requires m in db.jobs
    modifies db`jobs
    ensures db.jobs == old(db.jobs)[m := Defer(old(db.jobs[m]), until, reason)]
    ensures db.jobs[m].message.status == old(db.jobs[m]).message.status
  {
    var message := db.jobs[m].message.(nextAttemptAt := Some(until));
    if reason.Unavailable? {
      message := message.(error := Some(NO_GATEWAY_AVAILABLE));
    } else if reason.AllAllowanceUsed? {
      message := message.(error := Some(RECIPIENT_ALLOWANCE_EXHAUSTED));
    } else if message.error == Some(NO_GATEWAY_AVAILABLE) || message.error == Some(RECIPIENT_ALLOWANCE_EXHAUSTED) {
      message := message.(error := None);
    }
    db.SaveMessage(m, message);
  }

  /** Returns the number of the attempt it created. */
  method AssignMessage(db: Tables, fleet: Fleet, m: MessageId, sim: SimId, now: Instant) returns (k: nat)
    requires m in db.jobs && sim in fleet.sims
    modifies db`jobs
    ensures k == old(db.jobs[m]).message.attempts + 1
    ensures db.jobs == old(db.jobs)[m := Assign(old(db.jobs[m]), sim, fleet.sims[sim].gateway, now)]
    ensures db.jobs[m].message.status.Assigned? && db.jobs[m].message.attempts == k
    ensures db.jobs[m].message.assignedAt == Some(now)
  {
    var message := db.jobs[m].message;
    k := message.attempts + 1;
    db.SaveMessage(m, message.(
      status := Assigned, sim := Some(sim), attempts := k, assignedAt := Some(now),
      leaseExpiresAt := Some(now + ACK_TIMEOUT_SECONDS), nextAttemptAt := None, error := None));
    db.CreateAttempt(m, k, Attempt(sim, fleet.sims[sim].gateway, AttemptAssigned, None, now));
  }

  /** After a failed hand-off the slot, the attempt and the reservation go back. */
  method RequeueUndeliveredBy(db: Tables, fleet: Fleet, m: MessageId, sim: SimId, k: nat, now: Instant, random: Random)
    requires m in db.jobs && sim in fleet.sims
    requires k == db.jobs[m].message.attempts && db.jobs[m].message.assignedAt == Some(now)
    modifies db
    ensures db.State() == RequeueUndelivered(fleet, old(db.State()), m, now, sim, random)
    ensures m in db.jobs && db.jobs[m].message.status.Queued? && db.handOffs == old(db.handOffs)
  {
    var message := db.jobs[m].message;
    if message.assignedAt.Some? {
      db.ReleaseSlot(SlotAt(fleet, sim, message.recipient, message.assignedAt.value), m);
    }
    db.SaveMessage(m, message.(
      status := Queued, sim := None, assignedAt := None, leaseExpiresAt := None,
      attempts := Max(0, message.attempts - 1),
      nextAttemptAt := Some(now + NoCapacityDelaySeconds(random) as real)));
    db.DeleteAttempt(m, k);
    db.ReleaseSim(fleet, sim);
  }

  function StatusAfter(step: Outcome): SmsStatus {
    match step
    case WasDispatched => Assigned
    case WasDeferred => Queued
    case WasExpired => Expired
    case WasUndeliverable => Failed
  }

  /** One dispatch of message `m`, the row the claim locked. */
  method DispatchMessage(db: Tables, fleet: Fleet, m: MessageId, now: Instant, choice: Choice)
    returns (outcome: Outcome)
    requires m in db.jobs && Due(db.jobs[m].message, now)
    requires IsChoice(fleet, db.State(), db.jobs[m], now, choice)
    modifies db
    ensures db.State() == DispatchOne(fleet, old(db.State()), m, now, choice)
    ensures m in db.jobs
    ensures outcome.WasDispatched? <==> |db.handOffs| == |old(db.handOffs)| + 1
    ensures !outcome.WasDispatched? ==> db.handOffs == old(db.handOffs)
    ensures db.jobs[m].message.status == StatusAfter(outcome)
  {
    hide IsChoice, PickRoute, RequeueUndelivered, Requeue, Assign, Defer;
    var message := db.jobs[m].message;
    if IsExpiredAt(message, now) {
      db.SaveMessage(m, message.(status := Expired, error := Some(MESSAGE_EXPIRED)));
      return WasExpired;
    }
    if !message.hasBody {
      db.SaveMessage(m, message.(status := Failed, error := Some(BODY_UNAVAILABLE)));
      return WasUndeliverable;
    }
    var decision := PickRouteFor(db, fleet, m, now, choice);
    if decision.DeferUntil? {
      DeferMessage(db, m, decision.until, decision.reason);
      return WasDeferred;
    }
    var k := AssignMessage(db, fleet, m, decision.sim, now);
    if choice.delivered {
      db.RecordHandOff(HandOff(decision.sim, fleet.sims[decision.sim].gateway, now));
      return WasDispatched;
    }
    RequeueUndeliveredBy(db, fleet, m, decision.sim, k, now, choice.random);
    return WasDeferred;
  }

  /** What the next claim finds: nothing it may take, or a due message, together with all
      that its dispatch does not decide itself. */
  datatype Turn = NoTurn | Turn(m: MessageId, now: Instant, choice: Choice)

  /** The other workers, the clock and the devices: in any state they offer a turn the
      query and the shortlist could really produce. */
  ghost predicate IsEnvironment(fleet: Fleet, turns: (nat, Db) -> Turn) {
    forall i, db :: turns(i, db).Turn? ==>
      var turn := turns(i, db);
      && turn.m in db.jobs && Due(db.jobs[turn.m].message, turn.now)
      && IsChoice(fleet, db, db.jobs[turn.m], turn.now, turn.choice)
  }

  datatype BatchOutcome = BatchOutcome(dispatched: nat, deferred: nat, expired: nat, undeliverable: nat)

  ghost predicate AreDispatches(trace: seq<Event>) {
    forall e :: e in trace ==> e.action.Dispatch?
  }

  /** The messages that came to this status. */
  function CameTo(was: Jobs, now: Jobs, status: SmsStatus): set<MessageId> {
    set m | m in was && m in now && now[m].message.status == status && was[m].message.status != status
  }

  /** Only queued messages have changed. */
  ghost predicate OnlyQueuedChanged(was: Jobs, now: Jobs) {
    now.Keys == was.Keys && forall m :: m in was && !was[m].message.status.Queued? ==> now[m] == was[m]
  }

  lemma HandOverTouchesOne(fleet: Fleet, db: Db, m: MessageId, now: Instant, route: Route, choice: Choice)
    requires m in db.jobs && route.Routed? && route.sim in fleet.sims
    ensures var after := HandOver(fleet, db, m, now, route, choice).jobs; m in after && after == db.jobs[m := after[m]]
  {
    hide Assign, Requeue, Release, Unreserve;
  }

  lemma DispatchTouchesOne(fleet: Fleet, db: Db, m: MessageId, now: Instant, choice: Choice)
    requires m in db.jobs
    ensures var after := DispatchOne(fleet, db, m, now, choice).jobs; m in after && after == db.jobs[m := after[m]]
  {
    hide IsChoice, PickRoute, HandOver, Defer, MarkExpired, MarkUndeliverable, Due, IsExpiredAt;
    if IsChoice(fleet, db, db.jobs[m], now, choice) {
      var d := PickRoute(fleet, db, db.jobs[m], now, choice);
      if d.Take? { HandOverTouchesOne(fleet, db, m, now, d.route, choice); }
    }
  }

  lemma CameToIff(was: Jobs, before: Jobs, m: MessageId, job: Job, status: SmsStatus, x: MessageId)
    requires m in was && m in before && was[m].message.status != status
    ensures x in CameTo(was, before[m := job], status)
       <==> if x == m then job.message.status == status else x in CameTo(was, before, status)
  {
  }

  lemma OneMoreCame(was: Jobs, before: Jobs, m: MessageId, job: Job, status: SmsStatus)
    requires OnlyQueuedChanged(was, before) && !status.Queued?
    requires m in before && before[m].message.status.Queued?
    ensures OnlyQueuedChanged(was, before[m := job])
    ensures |CameTo(was, before[m := job], status)|
         == |CameTo(was, before, status)| + if job.message.status == status then 1 else 0
  {
    QueuedWasQueued(was, before, m, job);
    assert m !in CameTo(was, before, status);
    hide OnlyQueuedChanged, CameTo;
    forall x { CameToIff(was, before, m, job, status, x); }
    OneMore(CameTo(was, before, status), CameTo(was, before[m := job], status), m, job.message.status == status);
  }

  lemma QueuedWasQueued(was: Jobs, before: Jobs, m: MessageId, job: Job)
    requires OnlyQueuedChanged(was, before) && m in before && before[m].message.status.Queued?
    ensures m in was && was[m].message.status.Queued? && OnlyQueuedChanged(was, before[m := job])
  {
  }

  lemma NobodyCame(jobs: Jobs, status: SmsStatus)
    ensures CameTo(jobs, jobs, status) == {} && OnlyQueuedChanged(jobs, jobs)
  {
  }

  /** What is counted is what happened: jobs handed to devices, and messages that ended. */
  ghost predicate IsTally(was: Db, now: Db, outcome: BatchOutcome) {
    && |now.handOffs| == |was.handOffs| + outcome.dispatched
    && OnlyQueuedChanged(was.jobs, now.jobs)
    && outcome.expired == |CameTo(was.jobs, now.jobs, Expired)|
    && outcome.undeliverable == |CameTo(was.jobs, now.jobs, Failed)|
  }

  lemma TallyOneMore(was: Db, before: Db, after: Db, m: MessageId, step: Outcome, outcome: BatchOutcome,
                     outcome': BatchOutcome)
    requires IsTally(was, before, outcome)
    requires m in before.jobs && before.jobs[m].message.status.Queued?
    requires m in after.jobs && after.jobs == before.jobs[m := after.jobs[m]]
    requires after.jobs[m].message.status == StatusAfter(step)
    requires |after.handOffs| == |before.handOffs| + if step.WasDispatched? then 1 else 0
    requires outcome'.dispatched == outcome.dispatched + if step.WasDispatched? then 1 else 0
    requires outcome'.expired == outcome.expired + if step.WasExpired? then 1 else 0
    requires outcome'.undeliverable == outcome.undeliverable + if step.WasUndeliverable? then 1 else 0
    ensures IsTally(was, after, outcome')
  {
    hide OnlyQueuedChanged, CameTo;
    OneMoreCame(was.jobs, before.jobs, m, after.jobs[m], Expired);
    OneMoreCame(was.jobs, before.jobs, m, after.jobs[m], Failed);
  }

  lemma EmptyTally(db: Db)
    ensures IsTally(db, db, BatchOutcome(0, 0, 0, 0))
  {
    NobodyCame(db.jobs, Expired); NobodyCame(db.jobs, Failed);
  }

  /** A batch is a run of dispatch steps: one per message it counts, stopped by the limit or
      by an idle turn, and it counts exactly the jobs devices were handed and the messages that
      ended. */
  method DispatchBatch(db: Tables, fleet: Fleet, limit: nat, turns: (nat, Db) -> Turn)
    returns (outcome: BatchOutcome, ghost trace: seq<Event>)
    requires IsEnvironment(fleet, turns)
    modifies db
    ensures AreDispatches(trace) && db.State() == Run(fleet, old(db.State()), trace)
    ensures |trace| == outcome.dispatched + outcome.deferred + outcome.expired + outcome.undeliverable
    ensures |trace| <= limit && (|trace| < limit ==> turns(|trace|, db.State()).NoTurn?)
    ensures IsTally(old(db.State()), db.State(), outcome)
  {
    hide IsTally;
    outcome, trace := BatchOutcome(0, 0, 0, 0), [];
    EmptyTally(db.State());
    for index := 0 to limit
      invariant AreDispatches(trace) && db.State() == Run(fleet, old(db.State()), trace)
      invariant |trace| == index == outcome.dispatched + outcome.deferred + outcome.expired + outcome.undeliverable
      invariant IsTally(old(db.State()), db.State(), outcome)
    {
      hide DispatchOne, IsChoice;
      var turn := turns(index, db.State());
      if turn.NoTurn? { break; }
      ghost var start, counted := db.State(), outcome;
      ghost var event := At(turn.now, Dispatch(turn.m, turn.choice));
      assert (trace + [event])[..|trace|] == trace;
      trace := trace + [event];
      var step := DispatchMessage(db, fleet, turn.m, turn.now, turn.choice);
      DispatchTouchesOne(fleet, start, turn.m, turn.now, turn.choice);
      match step {
        case WasDispatched => outcome := outcome.(dispatched := outcome.dispatched + 1);
        case WasDeferred => outcome := outcome.(deferred := outcome.deferred + 1);
        case WasExpired => outcome := outcome.(expired := outcome.expired + 1);
        case WasUndeliverable => outcome := outcome.(undeliverable := outcome.undeliverable + 1);
      }
      TallyOneMore(old(db.State()), start, db.State(), turn.m, step, counted, outcome);
    }
  }
}
