/** The cap on distinct recipients, over every run of the platform. */
module RecipientCap {
  import opened SmsTypes
  import opened SetSizes
  import opened MessageJob
  import opened RecipientAllowance
  import opened DeliveryState
  import opened SimPacing
  import opened SimProfileSelector
  import opened DeliveryProtocol
  import opened ProtocolInvariant

  /** Only a success of an attempt writes a row that no dispatch claimed. */
  predicate IsReport(action: Action) {
    action.SendResult? || action.DeliveryStatus?
  }

  /** The rows that reports added in a run: a slot had been handed back, and its message turned out
      to have been sent. */
  ghost function Recreated(fleet: Fleet, trace: seq<Event>): set<Slot>
    decreases |trace|
  {
    if trace == [] then {}
    else
      var n := |trace| - 1;
      var before, after := Run(fleet, EMPTY_DB, trace[..n]), Run(fleet, EMPTY_DB, trace);
      Recreated(fleet, trace[..n]) + if IsReport(trace[n].action) then after.ledger.Keys - before.ledger.Keys else {}
  }

  /** No more than `limit` numbers were allowed on the SIM at any moment of the run. */
  ghost predicate LimitInForce(fleet: Fleet, trace: seq<Event>, sim: SimId, limit: nat)
    requires sim in fleet.sims
  {
    forall i :: 0 <= i < |trace| ==>
      var inForce := EffectiveLimit(fleet, Run(fleet, EMPTY_DB, trace[..i]), sim);
      inForce.Some? && inForce.value <= limit
  }

  // ---- what one step does to the rows -----------------------------------------------------------

  /** The slot a walk takes anew had room for it. */
  lemma WalkFindsRoom(fleet: Fleet, pacing: Pacing, ledger: Ledger, recipient: Recipient, now: Instant,
                      cs: seq<Candidate>)
    requires AreFleetSims(fleet, cs)
    ensures var route := Walk(fleet, pacing, ledger, recipient, now, cs);
            route.Routed? ==>
              var slot := SlotAt(fleet, route.sim, recipient, now);
              exists c :: && c in cs && c.sim == route.sim
                          && (slot in ledger || HasRoom(|UsedSlots(ledger, slot.sim, slot.day)|, c.recipientLimit))
    decreases |cs|
  {
    hide UsedSlots, HasRoom;
    if cs != [] {
      var sim := cs[0].sim;
      var (reserved, held) := Reserve(fleet, pacing, sim, now);
      if !reserved {
        WalkFindsRoom(fleet, held, ledger, recipient, now, cs[1..]);
      } else {
        WalkFindsRoom(fleet, Unreserve(fleet, held, sim), ledger, recipient, now, cs[1..]);
      }
    }
  }

  /** At most one row is new, on a SIM that had room. */
  ghost predicate ClaimsWithRoom(fleet: Fleet, db: Db, after: Ledger) {
    after.Keys <= db.ledger.Keys
    || exists slot :: && after.Keys <= db.ledger.Keys + {slot} && slot.sim in fleet.sims
                      && HasRoom(|UsedSlots(db.ledger, slot.sim, slot.day)|, EffectiveLimit(fleet, db, slot.sim))
  }

  lemma RouteClaimsWithRoom(fleet: Fleet, db: Db, job: Job, now: Instant, choice: Choice)
    requires IsChoice(fleet, db, job, now, choice)
    ensures var d := PickRoute(fleet, db, job, now, choice);
            d.Take? ==> ClaimsWithRoom(fleet, db, d.route.ledger)
  {
    hide Eligible, IsFetch, Plan, IsRanking, UsedSlots, InFlightOn, EffectiveLimit, HasRoom, SimFree, GatewayFree;
    var recipient, d := job.message.recipient, PickRoute(fleet, db, job, now, choice);
    if d.Take? {
      var cs := Candidates(fleet, db, recipient, now, choice.rows);
      PlanStaysInFleet(fleet, cs, choice.ranked, fleet.strategy, now);
      var plan := Plan(cs, choice.ranked, fleet.strategy, now);
      hide Walk;
      WalkClaims(fleet, db.pacing, db.ledger, recipient, now, plan.candidates);
      WalkFindsRoom(fleet, db.pacing, db.ledger, recipient, now, plan.candidates);
      var slot := SlotAt(fleet, d.route.sim, recipient, now);
      if slot !in db.ledger {
        var c :| && c in plan.candidates && c.sim == d.route.sim
                 && HasRoom(|UsedSlots(db.ledger, slot.sim, slot.day)|, c.recipientLimit);
        PlannedIsFetched(cs, choice.ranked, fleet.strategy, now, c);
        RowsGiveCandidates(fleet, db, recipient, now, choice.rows, c);
      }
    }
  }

  lemma DispatchClaimsWithRoom(fleet: Fleet, db: Db, m: MessageId, now: Instant, choice: Choice)
    ensures ClaimsWithRoom(fleet, db, DispatchOne(fleet, db, m, now, choice).ledger)
  {
    hide IsChoice, PickRoute, Assign, Requeue, Defer, MarkExpired, MarkUndeliverable, UsedSlots, HeldByOther,
         EffectiveLimit, HasRoom;
    if m in db.jobs && IsChoice(fleet, db, db.jobs[m], now, choice) {
      RouteClaimsWithRoom(fleet, db, db.jobs[m], now, choice);
    }
  }

  lemma OnlyDispatchesClaim(fleet: Fleet, db: Db, now: Instant, action: Action)
    requires !IsReport(action)
    ensures ClaimsWithRoom(fleet, db, Step(fleet, db, now, action).ledger)
  {
    hide DispatchOne, RetryOrFail, PutCurrentAttempt, Acknowledge, Expire, Cancel, FailStrandedMessages, NewJob,
         HeldByOther, UsedSlots, EffectiveLimit, HasRoom;
    if action.Dispatch? { DispatchClaimsWithRoom(fleet, db, action.m, now, action.choice); }
  }

  lemma SuccessRaisesCounts(fleet: Fleet, db: Db, m: MessageId, k: nat, now: Instant, slot: Slot)
    requires m in db.jobs && k in db.jobs[m].attempts
    ensures var after := RecordSuccess(fleet, db, m, k, now).ledger;
            && MessagesSent(db.ledger, slot) <= MessagesSent(after, slot)
            && (slot in after && slot !in db.ledger ==> after[slot] >= 1)
  {
    hide EnsureSent, CountAgainstDailyQuota, HeldByOther;
  }

  /** No step lowers a count, and a row that a report adds carries a message. */
  lemma StepKeepsCounts(fleet: Fleet, db: Db, now: Instant, action: Action, slot: Slot)
    ensures var after := Step(fleet, db, now, action).ledger;
            && MessagesSent(db.ledger, slot) <= MessagesSent(after, slot)
            && (IsReport(action) && slot in after && slot !in db.ledger ==> after[slot] >= 1)
  {
    hide DispatchOne, RecordSuccess, RetryOrFail, PutCurrentAttempt, PutAttempt, Acknowledge, Expire, Cancel, Settle,
         FailStrandedMessages, NewJob, HeldByOther;
    match action
    case Dispatch(m, choice) => DispatchKeepsCounts(fleet, db, m, now, choice, slot);
    case SendResult(g, m, _, _) =>
      if AttemptOf(db, g, m).Some? { SuccessRaisesCounts(fleet, db, m, AttemptOf(db, g, m).value, now, slot); }
    case DeliveryStatus(g, m, _) =>
      if AttemptOf(db, g, m).Some? { SuccessRaisesCounts(fleet, db, m, AttemptOf(db, g, m).value, now, slot); }
    case _ =>
  }

  lemma DispatchKeepsCounts(fleet: Fleet, db: Db, m: MessageId, now: Instant, choice: Choice, slot: Slot)
    ensures MessagesSent(DispatchOne(fleet, db, m, now, choice).ledger, slot) == MessagesSent(db.ledger, slot)
  {
    hide IsChoice, PickRoute, Assign, Requeue, Defer, MarkExpired, MarkUndeliverable, HeldByOther, Walk, UsedSlots;
    if m in db.jobs && IsChoice(fleet, db, db.jobs[m], now, choice) {
      PickedRouteIsGood(fleet, db, db.jobs[m], now, choice);
    }
  }

  // ---- every run ----------------------------------------------------------------------------------

  lemma UsedGrowsByOne(ledger: Ledger, after: Ledger, slot: Slot, sim: SimId, day: Day)
    requires after.Keys <= ledger.Keys + {slot}
    ensures UsedSlots(after, sim, day) <= UsedSlots(ledger, sim, day) + {slot}
    ensures slot.sim != sim || slot.day != day ==> UsedSlots(after, sim, day) <= UsedSlots(ledger, sim, day)
  {
  }

  /** A re-created row stays, and carries a message that was sent. */
  lemma {:induction false} RecreatedWereSent(fleet: Fleet, trace: seq<Event>, slot: Slot)
    requires slot in Recreated(fleet, trace)
    ensures slot in Run(fleet, EMPTY_DB, trace).ledger && Run(fleet, EMPTY_DB, trace).ledger[slot] >= 1
    decreases |trace|
  {
    hide Step;
    var n := |trace| - 1;
    var before := Run(fleet, EMPTY_DB, trace[..n]);
    if slot in Recreated(fleet, trace[..n]) { RecreatedWereSent(fleet, trace[..n], slot); }
    StepKeepsCounts(fleet, before, trace[n].now, trace[n].action, slot);
  }

  lemma ClaimKeepsCap(fleet: Fleet, db: Db, after: Ledger, sim: SimId, day: Day, recreated: set<Slot>, limit: nat)
    requires sim in fleet.sims && ClaimsWithRoom(fleet, db, after)
    requires EffectiveLimit(fleet, db, sim).Some? && EffectiveLimit(fleet, db, sim).value <= limit
    requires |UsedSlots(db.ledger, sim, day) - recreated| <= limit
    ensures |UsedSlots(after, sim, day) - recreated| <= limit
  {
    hide EffectiveLimit, UsedSlots;
    var was, now := UsedSlots(db.ledger, sim, day), UsedSlots(after, sim, day);
    if after.Keys <= db.ledger.Keys {
      UsedGrowsByOne(db.ledger, after, Slot(sim + 1, day, ""), sim, day);
      SubsetSize(now - recreated, was - recreated);
    } else {
      var slot :| && after.Keys <= db.ledger.Keys + {slot} && slot.sim in fleet.sims
                  && HasRoom(|UsedSlots(db.ledger, slot.sim, slot.day)|, EffectiveLimit(fleet, db, slot.sim));
      UsedGrowsByOne(db.ledger, after, slot, sim, day);
      if slot.sim == sim && slot.day == day {
        SubsetSize(now - recreated, was + {slot});
      } else {
        SubsetSize(now - recreated, was - recreated);
      }
    }
  }

  lemma ReportKeepsCap(db: Ledger, after: Ledger, sim: SimId, day: Day, recreated: set<Slot>, limit: nat)
    requires |UsedSlots(db, sim, day) - recreated| <= limit
    ensures |UsedSlots(after, sim, day) - (recreated + (after.Keys - db.Keys))| <= limit
  {
    SubsetSize(UsedSlots(after, sim, day) - (recreated + (after.Keys - db.Keys)), UsedSlots(db, sim, day) - recreated);
  }

  lemma NothingUsed(sim: SimId, day: Day)
    ensures UsedSlots(map[], sim, day) == {}
  {
  }

  lemma LimitWasInForce(fleet: Fleet, trace: seq<Event>, sim: SimId, limit: nat)
    requires trace != [] && sim in fleet.sims && LimitInForce(fleet, trace, sim, limit)
    ensures LimitInForce(fleet, trace[..|trace| - 1], sim, limit)
    ensures var inForce := EffectiveLimit(fleet, Run(fleet, EMPTY_DB, trace[..|trace| - 1]), sim);
            inForce.Some? && inForce.value <= limit
  {
    hide Run, EffectiveLimit;
    var n := |trace| - 1;
    forall i | 0 <= i < n
      ensures var inForce := EffectiveLimit(fleet, Run(fleet, EMPTY_DB, trace[..n][..i]), sim);
              inForce.Some? && inForce.value <= limit
    {
      assert trace[..n][..i] == trace[..i];
    }
  }

  /** The cap, in every run: the numbers a SIM has taken on a day, apart from those whose slot a
      report had to re-create, are no more than the limit in force. */
  lemma {:induction false} RunsKeepCap(fleet: Fleet, trace: seq<Event>, sim: SimId, day: Day, limit: nat)
    requires sim in fleet.sims && LimitInForce(fleet, trace, sim, limit)
    ensures |UsedSlots(Run(fleet, EMPTY_DB, trace).ledger, sim, day) - Recreated(fleet, trace)| <= limit
    decreases |trace|
  {
    hide Step, LimitInForce, EffectiveLimit, UsedSlots, ClaimsWithRoom;
    if trace == [] {
      NothingUsed(sim, day);
    } else {
      var n := |trace| - 1;
      var before := Run(fleet, EMPTY_DB, trace[..n]);
      LimitWasInForce(fleet, trace, sim, limit);
      RunsKeepCap(fleet, trace[..n], sim, day, limit);
      var recreated := Recreated(fleet, trace[..n]);
      var after := Step(fleet, before, trace[n].now, trace[n].action);
      if IsReport(trace[n].action) {
        ReportKeepsCap(before.ledger, after.ledger, sim, day, recreated, limit);
      } else {
        OnlyDispatchesClaim(fleet, before, trace[n].now, trace[n].action);
        ClaimKeepsCap(fleet, before, after.ledger, sim, day, recreated, limit);
        assert recreated + {} == recreated;
      }
    }
  }

  /** A cap of the SIM's own is in force whoever the device serves. */
  lemma OwnCapIsKept(fleet: Fleet, trace: seq<Event>, sim: SimId, day: Day)
    requires sim in fleet.sims && fleet.sims[sim].dailyRecipientLimit.Some?
    ensures var used := UsedSlots(Run(fleet, EMPTY_DB, trace).ledger, sim, day);
            var recreated := UsedSlots(Run(fleet, EMPTY_DB, trace).ledger, sim, day) * Recreated(fleet, trace);
            |used| <= fleet.sims[sim].dailyRecipientLimit.value + |recreated|
  {
    hide Run, Recreated, UsedSlots;
    RunsKeepCap(fleet, trace, sim, day, fleet.sims[sim].dailyRecipientLimit.value);
    var used, rows := UsedSlots(Run(fleet, EMPTY_DB, trace).ledger, sim, day), Recreated(fleet, trace);
    assert used == (used - rows) + (used * rows);
  }
}
