/** What a dispatch comes to, read off the columns: which messages it touches, which SIM a message
    is given to, and how long it waits when there is none. */
module DispatchOutcomes {
  import opened SmsTypes
  import opened RetryPolicy
  import opened MessageJob
  import opened RecipientAllowance
  import opened DeliveryState
  import opened SimPacing
  import opened SimProfileSelector
  import opened DeliveryProtocol
  import opened SequentialFill
  import opened ProtocolInvariant
  import opened RecipientCap
  import opened RoutingRules

  /** A dispatch of `m`, at an instant and with a choice that it may come with. */
  ghost predicate IsDispatch(fleet: Fleet, db: Db, m: MessageId, now: Instant, choice: Choice) {
    IsJoin(fleet) && Routes(fleet, db, m, now, choice)
  }

  /** A message is given out only while it is queued, its wait is over, its deadline has not passed
      and it has a body. Past its deadline it expires, and without a body it fails; in any other
      case nothing changes. */
  lemma OnlyDueMessagesAreRouted(fleet: Fleet, db: Db, m: MessageId, now: Instant, choice: Choice)
    requires m in db.jobs
    ensures var message := db.jobs[m].message;
            var due := message.status.Queued? && (message.nextAttemptAt.Some? ==> message.nextAttemptAt.value <= now);
            var late := message.expiresAt.Some? && message.expiresAt.value <= now;
            var after := Step(fleet, db, now, Dispatch(m, choice));
            && (Routes(fleet, db, m, now, choice) ==> due && !late && message.hasBody)
            && (!due ==> after == db)
            && (due && late ==>
                  after == db.(jobs := db.jobs[m := db.jobs[m].(message := message.(
                                 status := Expired, error := Some(MESSAGE_EXPIRED)))]))
            && (due && !late && !message.hasBody ==>
                  after == db.(jobs := db.jobs[m := db.jobs[m].(message := message.(
                                 status := Failed, error := Some(BODY_UNAVAILABLE)))]))
  {
    hide IsChoice, PickRoute, HandOver, Defer;
  }

  /** The message waits, and says why; nothing else changes. */
  ghost predicate IsDeferred(db: Db, after: Db, m: MessageId, until: Instant, error: Option<ErrorCode>)
    requires m in db.jobs
  {
    after == db.(jobs := db.jobs[m := db.jobs[m].(message := db.jobs[m].message.(
                   nextAttemptAt := Some(until), error := error))])
  }

  lemma CapacityWait(random: Random)
    ensures 4 <= NoCapacityDelaySeconds(random) <= 6
  {
    DrawnWaitIsWithin(NO_CAPACITY_BACKOFF_SECONDS, random);
  }

  /** Without any SIM that suits the message: it waits for four to six seconds. */
  lemma NoneSuits(fleet: Fleet, db: Db, m: MessageId, now: Instant, choice: Choice) returns (until: Instant)
    requires IsDispatch(fleet, db, m, now, choice)
    requires forall s :: !Suits(fleet, db, db.jobs[m], choice.usable, fleet.billingDay(now), s)
    ensures now + 4.0 <= until <= now + 6.0
    ensures IsDeferred(db, Step(fleet, db, now, Dispatch(m, choice)), m, until, Some(NO_GATEWAY_AVAILABLE))
  {
    hide Suits, IsChoice, Plan, Candidates, NoCapacityDelaySeconds, IsRanking;
    FetchedSuit(fleet, db, db.jobs[m], now, choice);
    PlanOfChoice(fleet, db, m, now, choice);
    CapacityWait(choice.random);
    until := now + NoCapacityDelaySeconds(choice.random) as real;
  }

  /** The plan of a dispatch, by the columns of what it fetched. */
  lemma PlanOfChoice(fleet: Fleet, db: Db, m: MessageId, now: Instant, choice: Choice)
    requires IsDispatch(fleet, db, m, now, choice)
    ensures forall s :: s in choice.rows ==> s in fleet.sims
    ensures var recipient := db.jobs[m].message.recipient;
            var plan := Plan(Candidates(fleet, db, recipient, now, choice.rows), choice.ranked, fleet.strategy, now);
            && (plan.Unavailable? <==> choice.rows == [])
            && (plan.Exhausted? <==>
                  && choice.rows != []
                  && forall s :: s in choice.rows ==>
                       !HoldsNumber(fleet, db, recipient, now, s) && !MayTakeNumber(fleet, db, now, s))
            && (plan.Try? <==> exists s :: IsOpen(fleet, db, recipient, now, choice.rows, s))
            && (plan.Wait? ==> WaitsForTheFirstFree(fleet, db, recipient, now, choice.rows, plan.until))
            && (plan.Try? ==> forall c :: c in plan.candidates <==>
                                IsOpenCandidate(fleet, db, recipient, now, choice.rows, c))
  {
    hide Due, IsExpiredAt, Eligible, Plan, Candidates, IsRanking, HoldsNumber, MayTakeNumber, IsOpen,
         WaitsForTheFirstFree, IsOpenCandidate, IsFetch;
    var recipient := db.jobs[m].message.recipient;
    PlanGivesUpIff(fleet, db, recipient, now, choice.rows, choice.ranked);
    PlanTriesTheFree(fleet, db, recipient, now, choice.rows, choice.ranked);
    if Plan(Candidates(fleet, db, recipient, now, choice.rows), choice.ranked, fleet.strategy, now).Wait? {
      PlanWaitsForTheFirstFree(fleet, db, recipient, now, choice.rows, choice.ranked);
    }
  }

  /** With SIMs that suit it, none of which holds its number or may take it: for five minutes. */
  lemma AllowanceIsUsedUp(fleet: Fleet, db: Db, m: MessageId, now: Instant, choice: Choice)
    requires IsDispatch(fleet, db, m, now, choice) && choice.rows != []
    requires forall s :: s in choice.rows ==> s in fleet.sims
    requires forall s :: s in choice.rows ==>
               !HoldsNumber(fleet, db, db.jobs[m].message.recipient, now, s) && !MayTakeNumber(fleet, db, now, s)
    ensures IsDeferred(db, Step(fleet, db, now, Dispatch(m, choice)), m, now + 300.0,
                       Some(RECIPIENT_ALLOWANCE_EXHAUSTED))
  {
    hide IsChoice, Plan, Candidates, HoldsNumber, MayTakeNumber, IsOpen, IsRanking;
    PlanOfChoice(fleet, db, m, now, choice);
  }

  /** The reason shown while a message merely waits its turn: that of its last failure, if any. */
  function Waiting(error: Option<ErrorCode>): Option<ErrorCode> {
    if error in {Some(NO_GATEWAY_AVAILABLE), Some(RECIPIENT_ALLOWANCE_EXHAUSTED)} then None else error
  }

  /** With some SIM considered but none open: until the first of them is free. */
  lemma AllAreBusy(fleet: Fleet, db: Db, m: MessageId, now: Instant, choice: Choice) returns (until: Instant)
    requires IsDispatch(fleet, db, m, now, choice) && forall s :: s in choice.rows ==> s in fleet.sims
    requires exists s :: s in choice.rows
                      && IsConsidered(fleet, db, db.jobs[m].message.recipient, now, choice.rows, s)
    requires forall s :: !IsOpen(fleet, db, db.jobs[m].message.recipient, now, choice.rows, s)
    ensures WaitsForTheFirstFree(fleet, db, db.jobs[m].message.recipient, now, choice.rows, until)
    ensures IsDeferred(db, Step(fleet, db, now, Dispatch(m, choice)), m, until, Waiting(db.jobs[m].message.error))
  {
    hide IsChoice, Plan, Candidates, HoldsNumber, MayTakeNumber, IsOpen, IsRanking, IsConsidered,
         WaitsForTheFirstFree;
    var recipient := db.jobs[m].message.recipient;
    PlanOfChoice(fleet, db, m, now, choice);
    SomeoneIsConsidered(fleet, db, recipient, now, choice.rows);
    var plan := Plan(Candidates(fleet, db, recipient, now, choice.rows), choice.ranked, fleet.strategy, now);
    until := plan.until;
  }

  // ---- given out --------------------------------------------------------------------------------------

  /** The windows after a message was given to the SIM: it is free again after 60 seconds divided by
      its rate, and so is its device if it has one. */
  function Paced(fleet: Fleet, pacing: Pacing, sim: SimId, now: Instant): Pacing
    requires sim in fleet.sims
  {
    var row := fleet.sims[sim];
    Pacing(pacing.sims[sim := now + 60.0 / Max(1, row.smsPerMinute) as real],
           if row.gatewaySmsPerMinute.None? then pacing.gateways
           else pacing.gateways[row.gateway := now + 60.0 / Max(1, row.gatewaySmsPerMinute.value) as real])
  }

  /** The number has its slot: a new row, unless there was one. */
  function Taken(ledger: Ledger, slot: Slot): Ledger {
    if slot in ledger then ledger else ledger[slot := 0]
  }

  /** The first candidate of a plan is free, and its number has a slot or room for one, so the walk
      ends there. */
  lemma FirstIsTaken(fleet: Fleet, db: Db, recipient: Recipient, now: Instant, rows: seq<SimId>, cs: seq<Candidate>)
    requires (forall s :: s in rows ==> s in fleet.sims) && AreFleetSims(fleet, cs)
    requires cs != [] && IsOpenCandidate(fleet, db, recipient, now, rows, cs[0])
    ensures var sim := cs[0].sim;
            Walk(fleet, db.pacing, db.ledger, recipient, now, cs)
              == Routed(sim, Paced(fleet, db.pacing, sim, now),
                        Taken(db.ledger, Slot(sim, fleet.billingDay(now), recipient)))
  {
    hide ToCandidate, HoldsNumber, MayTakeNumber, HasSpare, UsedSlots;
    var c := cs[0];
    CandidateColumns(fleet, db, recipient, now, c.sim);
    CandidateCounts(fleet, db, recipient, now, c.sim);
    TakenHasRoom(fleet, db, recipient, now, rows, c.sim);
  }

  lemma CandidateCounts(fleet: Fleet, db: Db, recipient: Recipient, now: Instant, sim: SimId)
    requires sim in fleet.sims
    ensures ToCandidate(fleet, db, recipient, now, sim).recipientsUsed
         == |UsedSlots(db.ledger, sim, fleet.billingDay(now))|
  {
  }

  lemma TakenHasRoom(fleet: Fleet, db: Db, recipient: Recipient, now: Instant, rows: seq<SimId>, sim: SimId)
    requires forall s :: s in rows ==> s in fleet.sims
    requires IsOpen(fleet, db, recipient, now, rows, sim)
    ensures Slot(sim, fleet.billingDay(now), recipient) in db.ledger || MayTakeNumber(fleet, db, now, sim)
  {
    hide MayTakeNumber, HasSpare, IsFreeAt;
  }

  lemma OpenIsRouted(fleet: Fleet, db: Db, m: MessageId, now: Instant, choice: Choice) returns (sim: SimId)
    requires IsDispatch(fleet, db, m, now, choice) && forall s :: s in choice.rows ==> s in fleet.sims
    requires exists s :: IsOpen(fleet, db, db.jobs[m].message.recipient, now, choice.rows, s)
    ensures IsOpen(fleet, db, db.jobs[m].message.recipient, now, choice.rows, sim) && sim in fleet.sims
    ensures PickRoute(fleet, db, db.jobs[m], now, choice)
         == Take(Routed(sim, Paced(fleet, db.pacing, sim, now),
                        Taken(db.ledger, Slot(sim, fleet.billingDay(now), db.jobs[m].message.recipient))))
  {
    var recipient := db.jobs[m].message.recipient;
    hide IsChoice, Plan, Candidates, IsOpen, IsRanking, Walk, Paced, Taken, Routes;
    PlanOfChoice(fleet, db, m, now, choice);
    RoutesMeansChoice(fleet, db, m, now, choice);
    ChosenPlanStaysInFleet(fleet, db, db.jobs[m], now, choice);
    var plan := Plan(Candidates(fleet, db, recipient, now, choice.rows), choice.ranked, fleet.strategy, now);
    var s :| IsOpen(fleet, db, recipient, now, choice.rows, s);
    PlanHasCandidates(fleet, db, recipient, now, choice.rows, plan, s);
    FirstIsTaken(fleet, db, recipient, now, choice.rows, plan.candidates);
    sim := plan.candidates[0].sim;
  }

  lemma RoutesMeansChoice(fleet: Fleet, db: Db, m: MessageId, now: Instant, choice: Choice)
    requires Routes(fleet, db, m, now, choice)
    ensures m in db.jobs && IsChoice(fleet, db, db.jobs[m], now, choice)
  {
    hide IsChoice;
  }

  lemma PlanHasCandidates(fleet: Fleet, db: Db, recipient: Recipient, now: Instant, rows: seq<SimId>, plan: RoutePlan,
                          s: SimId)
    requires forall r :: r in rows ==> r in fleet.sims
    requires plan.Try? && forall c :: c in plan.candidates <==> IsOpenCandidate(fleet, db, recipient, now, rows, c)
    requires IsOpen(fleet, db, recipient, now, rows, s)
    ensures plan.candidates != [] && IsOpenCandidate(fleet, db, recipient, now, rows, plan.candidates[0])
  {
    hide IsConsidered, ToCandidate, HasSpare, IsFreeAt;
    CandidateColumns(fleet, db, recipient, now, s);
    assert ToCandidate(fleet, db, recipient, now, s) in plan.candidates;
  }

  /** The message is with the SIM's device: its columns, the new attempt, the slot, both windows and
      the job in the device's socket. */
  ghost predicate IsGivenOut(fleet: Fleet, db: Db, after: Db, m: MessageId, now: Instant, sim: SimId)
    requires m in db.jobs && sim in fleet.sims
  {
    var was, gateway := db.jobs[m], fleet.sims[sim].gateway;
    var n := was.message.attempts + 1;
    after == db.(
      jobs := db.jobs[m := was.(
        message := was.message.(
          status := Assigned, sim := Some(sim), attempts := n, assignedAt := Some(now),
          leaseExpiresAt := Some(now + 10.0), nextAttemptAt := None, error := None),
        attempts := was.attempts[n := Attempt(sim, gateway, AttemptAssigned, None, now)])],
      ledger := Taken(db.ledger, Slot(sim, fleet.billingDay(now), was.message.recipient)),
      pacing := Paced(fleet, db.pacing, sim, now),
      handOffs := db.handOffs + [HandOff(sim, gateway, now)])
  }

  /** Some other message to the number is in flight on the SIM. */
  predicate OtherInFlight(jobs: Jobs, m: MessageId, sim: SimId, recipient: Recipient) {
    exists o :: && o in jobs && o != m && (jobs[o].message.status.Assigned? || jobs[o].message.status.Sending?)
                && jobs[o].message.sim == Some(sim) && jobs[o].message.recipient == recipient
  }

  /** A slot given back: its row goes if nothing was sent on it and no other message needs it. */
  function Returned(jobs: Jobs, ledger: Ledger, m: MessageId, slot: Slot): Ledger {
    if (slot in ledger && ledger[slot] > 0) || OtherInFlight(jobs, m, slot.sim, slot.recipient) then ledger
    else ledger - {slot}
  }

  /** It was not: the message waits as before, and slot and windows are given back. */
  ghost predicate IsTakenBack(fleet: Fleet, db: Db, after: Db, m: MessageId, now: Instant, sim: SimId, until: Instant)
    requires m in db.jobs && sim in fleet.sims
  {
    var was, row := db.jobs[m], fleet.sims[sim];
    var slot := Slot(sim, fleet.billingDay(now), was.message.recipient);
    after == db.(
      jobs := db.jobs[m := was.(
        message := was.message.(
          status := Queued, sim := None, assignedAt := None, leaseExpiresAt := None, nextAttemptAt := Some(until),
          error := None),
        attempts := was.attempts - {was.message.attempts + 1})],
      ledger := Returned(db.jobs, Taken(db.ledger, slot), m, slot),
      pacing := Pacing(db.pacing.sims - {sim},
                       if row.gatewaySmsPerMinute.Some? then db.pacing.gateways - {row.gateway}
                       else db.pacing.gateways))
  }

  lemma ReturnedIsReleased(jobs: Jobs, given: Job, ledger: Ledger, m: MessageId, slot: Slot)
    ensures Release(jobs[m := given], ledger, slot, m) == Returned(jobs, ledger, m, slot)
    ensures Release(jobs, ledger, slot, m) == Returned(jobs, ledger, m, slot)
  {
    HeldByOtherIgnoresExcept(jobs, slot, m, given);
    assert HeldByOther(jobs, slot, m) <==> OtherInFlight(jobs, m, slot.sim, slot.recipient);
    assert slot !in ledger ==> ledger - {slot} == ledger;
  }

  lemma TakingBackUndoesGiving(fleet: Fleet, db: Db, m: MessageId, now: Instant, sim: SimId, random: Random,
                               route: Route)
    requires m in db.jobs && db.jobs[m].message.status.Queued? && sim in fleet.sims
    requires route == Routed(sim, Paced(fleet, db.pacing, sim, now),
                             Taken(db.ledger, Slot(sim, fleet.billingDay(now), db.jobs[m].message.recipient)))
    ensures IsTakenBack(fleet, db, RequeueUndelivered(fleet, AssignTo(fleet, db, m, now, route), m, now, sim, random),
                        m, now, sim, now + NoCapacityDelaySeconds(random) as real)
  {
    hide Release, Returned, NoCapacityDelaySeconds, Taken;
    var given := AssignTo(fleet, db, m, now, route);
    var slot := Slot(sim, fleet.billingDay(now), db.jobs[m].message.recipient);
    ReturnedIsReleased(db.jobs, given.jobs[m], Taken(db.ledger, slot), m, slot);
    assert given.pacing.sims - {sim} == db.pacing.sims - {sim};
    assert given.pacing.gateways - {fleet.sims[sim].gateway} == db.pacing.gateways - {fleet.sims[sim].gateway};
    assert given.jobs[m].attempts - {given.jobs[m].message.attempts}
        == db.jobs[m].attempts - {given.jobs[m].message.attempts};
  }

  /** With some SIM open: it is given to one of the open ones, or taken back at once because the
      device's socket had gone. */
  lemma OpenIsGivenTheMessage(fleet: Fleet, db: Db, m: MessageId, now: Instant, choice: Choice)
    returns (sim: SimId, until: Instant)
    requires IsDispatch(fleet, db, m, now, choice) && forall s :: s in choice.rows ==> s in fleet.sims
    requires exists s :: IsOpen(fleet, db, db.jobs[m].message.recipient, now, choice.rows, s)
    ensures IsOpen(fleet, db, db.jobs[m].message.recipient, now, choice.rows, sim) && sim in fleet.sims
    ensures now + 4.0 <= until <= now + 6.0
    ensures var after := Step(fleet, db, now, Dispatch(m, choice));
            if choice.delivered then IsGivenOut(fleet, db, after, m, now, sim)
            else IsTakenBack(fleet, db, after, m, now, sim, until)
  {
    hide IsChoice, PickRoute, IsOpen, IsTakenBack, RequeueUndelivered, Paced, Taken, NoCapacityDelaySeconds;
    sim := OpenIsRouted(fleet, db, m, now, choice);
    CapacityWait(choice.random);
    until := now + NoCapacityDelaySeconds(choice.random) as real;
    var route := Routed(sim, Paced(fleet, db.pacing, sim, now),
                        Taken(db.ledger, Slot(sim, fleet.billingDay(now), db.jobs[m].message.recipient)));
    TakingBackUndoesGiving(fleet, db, m, now, sim, choice.random, route);
  }

  // ---- whose devices --------------------------------------------------------------------------------

  /** The route a dispatch takes ends at a SIM that suits the message. */
  lemma RouteSuits(fleet: Fleet, db: Db, job: Job, now: Instant, choice: Choice)
    requires IsChoice(fleet, db, job, now, choice)
    ensures var d := PickRoute(fleet, db, job, now, choice);
            d.Take? ==>
              && Suits(fleet, db, job, choice.usable, fleet.billingDay(now), d.route.sim)
              && HasSpare(fleet, db, d.route.sim) && IsFreeAt(fleet, db, d.route.sim, now)
              && (HoldsNumber(fleet, db, job.message.recipient, now, d.route.sim)
                  || MayTakeNumber(fleet, db, now, d.route.sim))
  {
    hide Suits, HasSpare, IsFreeAt, MayTakeNumber, Plan, Eligible, IsRanking, IsFetch, UsedSlots, HasRoom, InFlightOn,
         EffectiveLimit, SimFree, GatewayFree;
    var recipient, d := job.message.recipient, PickRoute(fleet, db, job, now, choice);
    FetchedSuit(fleet, db, job, now, choice);
    if d.Take? {
      var cs := Candidates(fleet, db, recipient, now, choice.rows);
      PlanStaysInFleet(fleet, cs, choice.ranked, fleet.strategy, now);
      var plan := Plan(cs, choice.ranked, fleet.strategy, now);
      hide Walk;
      WalkFindsRoom(fleet, db.pacing, db.ledger, recipient, now, plan.candidates);
      var slot := SlotAt(fleet, d.route.sim, recipient, now);
      var c :| && c in plan.candidates && c.sim == d.route.sim
               && (slot in db.ledger || HasRoom(|UsedSlots(db.ledger, slot.sim, slot.day)|, c.recipientLimit));
      PlannedIsFetched(cs, choice.ranked, fleet.strategy, now, c);
      RowsGiveCandidates(fleet, db, recipient, now, choice.rows, c);
      CandidateColumns(fleet, db, recipient, now, c.sim);
      CandidateCounts(fleet, db, recipient, now, c.sim);
    }
  }

  lemma NewAttemptWasRouted(fleet: Fleet, db: Db, m: MessageId, now: Instant, choice: Choice, k: nat)
    requires m in db.jobs && m in Step(fleet, db, now, Dispatch(m, choice)).jobs
    requires k in Step(fleet, db, now, Dispatch(m, choice)).jobs[m].attempts && k !in db.jobs[m].attempts
    ensures Routes(fleet, db, m, now, choice)
    ensures var d := PickRoute(fleet, db, db.jobs[m], now, choice);
            d.Take? && Step(fleet, db, now, Dispatch(m, choice)).jobs[m].attempts[k].sim == d.route.sim
  {
    hide IsChoice, PickRoute, NoCapacityDelaySeconds, Release;
  }

  /** Every SIM a dispatch gives a message to suits it: its device is in the pool, or is the message's
      own tenant's and named by it; device, operator and slot are those asked for; its quota is not
      used up; it is new to the message, and it was free, with a message to spare. */
  lemma AttemptsFollowTheRules(fleet: Fleet, db: Db, m: MessageId, now: Instant, choice: Choice, k: nat)
    requires m in db.jobs && m in Step(fleet, db, now, Dispatch(m, choice)).jobs
    requires k in Step(fleet, db, now, Dispatch(m, choice)).jobs[m].attempts && k !in db.jobs[m].attempts
    ensures var message, sim := db.jobs[m].message, Step(fleet, db, now, Dispatch(m, choice)).jobs[m].attempts[k].sim;
            && sim in choice.usable && sim in fleet.sims
            && var row := fleet.sims[sim];
            && row.gateway in db.assignments
            && (db.assignments[row.gateway].Pool?
                || (db.assignments[row.gateway] == Owned(message.tenant)
                    && message.requestedGateway == Some(row.gateway)))
            && (message.requestedGateway.Some? ==> message.requestedGateway.value == row.gateway)
            && (message.requestedOperator.Some? ==> Some(message.requestedOperator.value) == row.operator)
            && (message.requestedSlot.Some? ==> message.requestedSlot.value == row.slot)
            && (row.dailyQuota.Some? && row.dailyQuota.value > 0 ==>
                  CountedOn(db.counters, sim, fleet.billingDay(now)) < row.dailyQuota.value)
            && (forall j :: j in db.jobs[m].attempts ==> db.jobs[m].attempts[j].sim != sim)
            && HasSpare(fleet, db, sim) && IsFreeAt(fleet, db, sim, now)
            && (HoldsNumber(fleet, db, message.recipient, now, sim) || MayTakeNumber(fleet, db, now, sim))
  {
    hide Suits, HasSpare, IsFreeAt, HoldsNumber, MayTakeNumber, IsChoice, PickRoute, Step;
    NewAttemptWasRouted(fleet, db, m, now, choice, k);
    RouteSuits(fleet, db, db.jobs[m], now, choice);
    var sim := PickRoute(fleet, db, db.jobs[m], now, choice).route.sim;
    SuitsMeans(fleet, db, db.jobs[m], choice.usable, fleet.billingDay(now), sim);
  }
}
