/** A dispatch that finds one SIM usable, written out: the step the concrete runs are made of. */
module SoleDispatch {
  import opened SmsTypes
  import opened MessageJob
  import opened RecipientAllowance
  import opened DeliveryState
  import opened SimPacing
  import opened SimProfileSelector
  import opened DeliveryProtocol

  /** Only `sim` is usable, and its device takes the job, or its socket has gone. */
  function OnlyTo(fleet: Fleet, db: Db, m: MessageId, now: Instant, sim: SimId, delivered: bool): Choice
    requires m in db.jobs && sim in fleet.sims
  {
    Choice({sim}, [sim], [ToCandidate(fleet, db, db.jobs[m].message.recipient, now, sim)], 0.0, delivered)
  }

  /** The SIM is eligible and free, in a device without a rate of its own, and the number has a
      slot on it or can get one. */
  ghost predicate IsOpenTo(fleet: Fleet, db: Db, m: MessageId, now: Instant, sim: SimId) {
    && m in db.jobs && sim in fleet.sims
    && var job := db.jobs[m];
    && Due(job.message, now) && !IsExpiredAt(job.message, now) && job.message.hasBody
    && IsEligible(fleet, db, job, {sim}, fleet.billingDay(now), sim)
    && fleet.sims[sim].gatewaySmsPerMinute.None? && SimFree(db.pacing, sim, now)
    && |InFlightOn(db.jobs, sim)| < fleet.sims[sim].maxInFlight
    && var slot := SlotAt(fleet, sim, job.message.recipient, now);
    && (slot in db.ledger || HasRoom(|UsedSlots(db.ledger, sim, slot.day)|, EffectiveLimit(fleet, db, sim)))
  }

  /** The message is with the SIM's device. */
  function GivenTo(fleet: Fleet, db: Db, m: MessageId, now: Instant, sim: SimId): Db
    requires m in db.jobs && sim in fleet.sims
  {
    var slot, gateway := SlotAt(fleet, sim, db.jobs[m].message.recipient, now), fleet.sims[sim].gateway;
    db.(jobs := db.jobs[m := Assign(db.jobs[m], sim, gateway, now)],
        ledger := if slot in db.ledger then db.ledger else db.ledger[slot := 0],
        pacing := db.pacing.(sims := db.pacing.sims[sim := now + Spacing(fleet.sims[sim].smsPerMinute)]),
        handOffs := db.handOffs + [HandOff(sim, gateway, now)])
  }

  lemma OneCandidatePlan(c: Candidate, strategy: FillStrategy, now: Instant)
    requires c.availableNow && (c.holdsRecipient || HasAllowance(c))
    ensures Shortlist([c]) == [c] && Plan([c], [c], strategy, now) == Try([c])
  {
    assert [c][1..] == [];
  }

  lemma OnlyEligible(fleet: Fleet, db: Db, m: MessageId, now: Instant, sim: SimId)
    requires IsOpenTo(fleet, db, m, now, sim)
    ensures Eligible(fleet, db, db.jobs[m], {sim}, fleet.billingDay(now)) == {sim}
    ensures var c := ToCandidate(fleet, db, db.jobs[m].message.recipient, now, sim);
            && c.sim == sim && c.availableNow && (c.holdsRecipient || HasAllowance(c))
            && c.recipientLimit == EffectiveLimit(fleet, db, sim)
  {
    hide InFlightOn, UsedSlots, EffectiveLimit;
  }

  lemma OnlyRoute(fleet: Fleet, db: Db, m: MessageId, now: Instant, sim: SimId)
    requires IsOpenTo(fleet, db, m, now, sim)
    ensures var c := ToCandidate(fleet, db, db.jobs[m].message.recipient, now, sim);
            var given := GivenTo(fleet, db, m, now, sim);
            && AreFleetSims(fleet, [c])
            && Walk(fleet, db.pacing, db.ledger, db.jobs[m].message.recipient, now, [c])
               == Routed(sim, given.pacing, given.ledger)
  {
    hide ToCandidate, EffectiveLimit, UsedSlots, IsEligible, InFlightOn;
    OnlyEligible(fleet, db, m, now, sim);
  }

  lemma OnlyPlan(fleet: Fleet, db: Db, m: MessageId, now: Instant, sim: SimId)
    requires IsOpenTo(fleet, db, m, now, sim)
    ensures var recipient := db.jobs[m].message.recipient;
            var c := ToCandidate(fleet, db, recipient, now, sim);
            && Candidates(fleet, db, recipient, now, [sim]) == [c]
            && Shortlist([c]) == [c] && Plan([c], [c], fleet.strategy, now) == Try([c])
  {
    var c := ToCandidate(fleet, db, db.jobs[m].message.recipient, now, sim);
    hide *;
    OnlyEligible(fleet, db, m, now, sim);
    OneCandidatePlan(c, fleet.strategy, now);
  }

  lemma OnlyChoice(fleet: Fleet, db: Db, m: MessageId, now: Instant, sim: SimId, delivered: bool)
    requires IsOpenTo(fleet, db, m, now, sim)
    ensures IsChoice(fleet, db, db.jobs[m], now, OnlyTo(fleet, db, m, now, sim, delivered))
  {
    assert sim in fleet.sims;
    hide ToCandidate, Eligible, IsOpenTo, Plan, Shortlist, Candidates;
    OnlyEligible(fleet, db, m, now, sim);
    OnlyPlan(fleet, db, m, now, sim);
  }

  lemma OnlyDecision(fleet: Fleet, db: Db, m: MessageId, now: Instant, sim: SimId, delivered: bool)
    requires IsOpenTo(fleet, db, m, now, sim)
    ensures var choice, given := OnlyTo(fleet, db, m, now, sim, delivered), GivenTo(fleet, db, m, now, sim);
            && IsChoice(fleet, db, db.jobs[m], now, choice)
            && PickRoute(fleet, db, db.jobs[m], now, choice) == Take(Routed(sim, given.pacing, given.ledger))
  {
    hide IsChoice, ToCandidate, IsOpenTo, Plan, Walk, GivenTo, Candidates;
    OnlyChoice(fleet, db, m, now, sim, delivered);
    OnlyPlan(fleet, db, m, now, sim);
    OnlyRoute(fleet, db, m, now, sim);
  }

  /** With only that SIM usable, the message is given to it. */
  lemma OnlySimIsTaken(fleet: Fleet, db: Db, m: MessageId, now: Instant, sim: SimId)
    requires IsOpenTo(fleet, db, m, now, sim)
    ensures Step(fleet, db, now, Dispatch(m, OnlyTo(fleet, db, m, now, sim, true))) == GivenTo(fleet, db, m, now, sim)
  {
    hide IsChoice, PickRoute, Assign, IsEligible, InFlightOn, UsedSlots, EffectiveLimit, Spacing, ToCandidate;
    OnlyDecision(fleet, db, m, now, sim, true);
  }
}
