/** In which order a fleet's allowance is spent. */
module SequentialFill {
  import opened SmsTypes
  import opened MessageJob
  import opened RecipientAllowance
  import opened DeliveryState
  import opened SimPacing
  import opened SimProfileSelector
  import opened DeliveryProtocol
  import opened ProtocolInvariant

  /** A dispatch of `m` that reaches the choice of a route. */
  ghost predicate Routes(fleet: Fleet, db: Db, m: MessageId, now: Instant, choice: Choice) {
    && m in db.jobs && Due(db.jobs[m].message, now)
    && !IsExpiredAt(db.jobs[m].message, now) && db.jobs[m].message.hasBody
    && IsChoice(fleet, db, db.jobs[m], now, choice)
  }

  /** The dispatch takes a slot on `sim` that was not there before. */
  ghost predicate OpensSlot(fleet: Fleet, db: Db, m: MessageId, now: Instant, choice: Choice, sim: SimId) {
    && m in db.jobs
    && var slot := SlotAt(fleet, sim, db.jobs[m].message.recipient, now);
       slot !in db.ledger && slot in DispatchOne(fleet, db, m, now, choice).ledger
  }

  predicate IsFull(fleet: Fleet, db: Db, sim: SimId, today: Day)
    requires sim in fleet.sims
  {
    !HasRoom(|UsedSlots(db.ledger, sim, today)|, EffectiveLimit(fleet, db, sim))
  }

  /** `a` comes before `b` in fleet order. */
  predicate Precedes(fleet: Fleet, a: SimId, b: SimId)
    requires a in fleet.sims && b in fleet.sims
  {
    var x, y := fleet.sims[a], fleet.sims[b];
    || x.gatewayPriority < y.gatewayPriority
    || (x.gatewayPriority == y.gatewayPriority && x.gateway < y.gateway)
    || (x.gatewayPriority == y.gatewayPriority && x.gateway == y.gateway && x.slot < y.slot)
  }

  function TodaysPlan(fleet: Fleet, db: Db, m: MessageId, now: Instant, rows: seq<SimId>, ranked: seq<Candidate>)
    : RoutePlan
    requires m in db.jobs && forall i :: 0 <= i < |rows| ==> rows[i] in fleet.sims
  {
    Plan(Candidates(fleet, db, db.jobs[m].message.recipient, now, rows), ranked, fleet.strategy, now)
  }

  /** A slot is opened only on the SIM the walk ended at, which the plan offered. */
  lemma OpenedSlotWasPlanned(fleet: Fleet, db: Db, m: MessageId, now: Instant, choice: Choice, sim: SimId)
    returns (c: Candidate)
    requires OpensSlot(fleet, db, m, now, choice, sim)
    ensures Routes(fleet, db, m, now, choice)
    ensures var plan := TodaysPlan(fleet, db, m, now, choice.rows, choice.ranked);
            plan.Try? && c in plan.candidates && c.sim == sim
  {
    hide IsFetch, IsRanking, Plan, Assign, Requeue, Defer, MarkExpired, MarkUndeliverable, Reserve, HeldByOther;
    var recipient := db.jobs[m].message.recipient;
    assert Routes(fleet, db, m, now, choice);
    var cs := Candidates(fleet, db, recipient, now, choice.rows);
    PlanStaysInFleet(fleet, cs, choice.ranked, fleet.strategy, now);
    var plan := Plan(cs, choice.ranked, fleet.strategy, now);
    assert plan.Try?;
    WalkClaims(fleet, db.pacing, db.ledger, recipient, now, plan.candidates);
    var route := Walk(fleet, db.pacing, db.ledger, recipient, now, plan.candidates);
    assert route.Routed? && route.sim == sim;
    c :| c in plan.candidates && c.sim == route.sim;
  }

  lemma FetchedCandidate(fleet: Fleet, db: Db, m: MessageId, now: Instant, choice: Choice, sim: SimId)
    requires m in db.jobs && IsChoice(fleet, db, db.jobs[m], now, choice) && sim in choice.rows
    ensures sim in fleet.sims
    ensures var recipient := db.jobs[m].message.recipient;
            ToCandidate(fleet, db, recipient, now, sim) in Candidates(fleet, db, recipient, now, choice.rows)
  {
    RowsGiveCandidates(fleet, db, db.jobs[m].message.recipient, now, choice.rows,
                       ToCandidate(fleet, db, db.jobs[m].message.recipient, now, sim));
  }

  /** The eligible SIMs that hold the number today. */
  ghost function HoldersAmong(fleet: Fleet, db: Db, recipient: Recipient, now: Instant, eligible: set<SimId>)
    : set<SimId> {
    set sim | sim in eligible && SlotAt(fleet, sim, recipient, now) in db.ledger
  }

  lemma FetchedHolderKeepsTheNumber(fleet: Fleet, db: Db, m: MessageId, now: Instant, choice: Choice, holder: SimId,
                                    sim: SimId)
    requires m in db.jobs && SlotAt(fleet, holder, db.jobs[m].message.recipient, now) in db.ledger
    requires holder in choice.rows
    ensures !OpensSlot(fleet, db, m, now, choice, sim)
  {
    hide DispatchOne, TryOrWait, IsFetch, Eligible, EffectiveLimit, InFlightOn, UsedSlots;
    if OpensSlot(fleet, db, m, now, choice, sim) {
      var recipient := db.jobs[m].message.recipient;
      var c := OpenedSlotWasPlanned(fleet, db, m, now, choice, sim);
      FetchedCandidate(fleet, db, m, now, choice, holder);
      var cs := Candidates(fleet, db, recipient, now, choice.rows);
      assert ToCandidate(fleet, db, recipient, now, holder) in Holders(cs);
      HolderPlanOffersHolders(cs, choice.ranked, fleet.strategy, now, c);
      RowsGiveCandidates(fleet, db, recipient, now, choice.rows, c);
    }
  }

  /** A number goes back to a SIM that already holds it, under either strategy and whatever the
      size of the fleet: a dispatch opens a slot for the number only if none of the rows it
      fetched holds it, and while some eligible SIM does, that takes at least as many eligible
      SIMs that do not as the query returns. */
  lemma HolderKeepsTheNumber(fleet: Fleet, db: Db, m: MessageId, now: Instant, choice: Choice, sim: SimId)
    requires m in db.jobs
    ensures var eligible := Eligible(fleet, db, db.jobs[m], choice.usable, fleet.billingDay(now));
            var holders := HoldersAmong(fleet, db, db.jobs[m].message.recipient, now, eligible);
            OpensSlot(fleet, db, m, now, choice, sim) ==>
              && (forall holder :: holder in holders ==> holder !in choice.rows)
              && (holders != {} ==> |eligible - holders| >= 50)
  {
    hide OpensSlot, Eligible;
    var eligible := Eligible(fleet, db, db.jobs[m], choice.usable, fleet.billingDay(now));
    var holders := HoldersAmong(fleet, db, db.jobs[m].message.recipient, now, eligible);
    if OpensSlot(fleet, db, m, now, choice, sim) {
      forall holder | holder in holders ensures holder !in choice.rows {
        if holder in choice.rows { FetchedHolderKeepsTheNumber(fleet, db, m, now, choice, holder, sim); }
      }
      if holders != {} {
        FetchSeesSomeIff(eligible, holders);
        OpeningFetches(fleet, db, m, now, choice, sim);
      }
    }
  }

  lemma OpeningFetches(fleet: Fleet, db: Db, m: MessageId, now: Instant, choice: Choice, sim: SimId)
    requires m in db.jobs && OpensSlot(fleet, db, m, now, choice, sim)
    ensures Routes(fleet, db, m, now, choice)
    ensures IsFetch(Eligible(fleet, db, db.jobs[m], choice.usable, fleet.billingDay(now)), choice.rows)
  {
    hide IsFetch, Eligible, IsRanking, TodaysPlan;
    var c := OpenedSlotWasPlanned(fleet, db, m, now, choice, sim);
  }

  lemma HolderPlanOffersHolders(cs: seq<Candidate>, ranked: seq<Candidate>, strategy: FillStrategy, now: Instant,
                                c: Candidate)
    requires IsRanking(cs, ranked) && Holders(cs) != []
    requires var plan := Plan(cs, ranked, strategy, now);
             plan.Try? && c in plan.candidates
    ensures c.holdsRecipient && c in cs
  {
    assert cs != [];
    assert c in ranked;
    assert c in multiset(ranked);
    assert c in Holders(cs);
  }

  lemma SequentialPlanOffersFirst(cs: seq<Candidate>, ranked: seq<Candidate>, now: Instant, c: Candidate)
    requires Holders(cs) == []
    requires var plan := Plan(cs, ranked, Sequential, now);
             plan.Try? && c in plan.candidates
    ensures WithAllowance(cs) != [] && c == FirstInFleetOrder(WithAllowance(cs))
  {
    var first := FirstInFleetOrder(WithAllowance(cs));
    assert c in [first];
  }

  lemma CandidateIsEligible(fleet: Fleet, db: Db, m: MessageId, now: Instant, choice: Choice, c: Candidate)
    requires m in db.jobs && IsChoice(fleet, db, db.jobs[m], now, choice)
    requires c in Candidates(fleet, db, db.jobs[m].message.recipient, now, choice.rows)
    ensures c == ToCandidate(fleet, db, db.jobs[m].message.recipient, now, c.sim)
    ensures c.sim in Eligible(fleet, db, db.jobs[m], choice.usable, fleet.billingDay(now)) && c.sim in fleet.sims
  {
    hide Eligible, ToCandidate, IsRanking;
    RowsGiveCandidates(fleet, db, db.jobs[m].message.recipient, now, choice.rows, c);
  }

  /** Where a slot is opened, no fetched SIM holds the number. */
  lemma OpeningMeansNoHolder(fleet: Fleet, db: Db, m: MessageId, now: Instant, choice: Choice, sim: SimId)
    returns (c: Candidate)
    requires OpensSlot(fleet, db, m, now, choice, sim)
    ensures Routes(fleet, db, m, now, choice)
    ensures var recipient := db.jobs[m].message.recipient;
            var cs := Candidates(fleet, db, recipient, now, choice.rows);
            var plan := Plan(cs, choice.ranked, fleet.strategy, now);
            Holders(cs) == [] && plan.Try? && c in plan.candidates && c.sim == sim
  {
    hide DispatchOne, TryOrWait, IsFetch, Eligible, EffectiveLimit, InFlightOn, UsedSlots, SimFree, GatewayFree;
    var recipient := db.jobs[m].message.recipient;
    c := OpenedSlotWasPlanned(fleet, db, m, now, choice, sim);
    var cs := Candidates(fleet, db, recipient, now, choice.rows);
    if Holders(cs) != [] {
      HolderPlanOffersHolders(cs, choice.ranked, fleet.strategy, now, c);
      RowsGiveCandidates(fleet, db, recipient, now, choice.rows, c);
      assert false;
    }
  }

  /** Slots are opened in fleet order, whatever the size of the fleet: under the sequential
      strategy a dispatch opens one only on an eligible SIM with room, and every eligible SIM
      before it either is full or was not fetched, which takes more eligible SIMs than the query
      returns. */
  lemma SlotsOpenInFleetOrder(fleet: Fleet, db: Db, m: MessageId, now: Instant, choice: Choice, sim: SimId,
                              other: SimId)
    requires fleet.strategy.Sequential? && m in db.jobs
    ensures var today := fleet.billingDay(now);
            var eligible := Eligible(fleet, db, db.jobs[m], choice.usable, today);
            OpensSlot(fleet, db, m, now, choice, sim) && other in eligible ==>
              && sim in eligible && sim in fleet.sims && other in fleet.sims
              && !IsFull(fleet, db, sim, today)
              && (Precedes(fleet, other, sim) && !IsFull(fleet, db, other, today) ==>
                    other !in choice.rows && |eligible| > 50)
  {
    hide DispatchOne, TryOrWait, EffectiveLimit, InFlightOn, UsedSlots, SimFree, GatewayFree, IsFetch, IsRanking, Plan,
         Filter, IsChoice, Candidates;
    var today := fleet.billingDay(now);
    var eligible := Eligible(fleet, db, db.jobs[m], choice.usable, today);
    if OpensSlot(fleet, db, m, now, choice, sim) && other in eligible {
      assert other in fleet.sims;
      hide Eligible;
      var recipient := db.jobs[m].message.recipient;
      var c := OpeningMeansNoHolder(fleet, db, m, now, choice, sim);
      ChosenPlanStaysInFleet(fleet, db, db.jobs[m], now, choice);
      var cs := Candidates(fleet, db, recipient, now, choice.rows);
      SequentialPlanOffersFirst(cs, choice.ranked, now, c);
      CandidateIsEligible(fleet, db, m, now, choice, c);
      if other in choice.rows {
        FetchedCandidate(fleet, db, m, now, choice, other);
        var o := ToCandidate(fleet, db, recipient, now, other);
        if !IsFull(fleet, db, other, today) {
          assert o in WithAllowance(cs);
          assert CompareFillOrder(c, o) <= 0;
        }
      } else {
        OpeningFetches(fleet, db, m, now, choice, sim);
        FetchSeesAllIff(eligible, other);
      }
    }
  }

  // ---- the query's limit -----------------------------------------------------------------------

  /** The SIM the sequential strategy is after: the first eligible one with room. */
  ghost predicate IsFirstWithRoom(fleet: Fleet, db: Db, today: Day, eligible: set<SimId>, first: SimId) {
    && eligible <= fleet.sims.Keys && first in eligible && !IsFull(fleet, db, first, today)
    && forall other :: other in eligible && other != first && !IsFull(fleet, db, other, today) ==>
          Precedes(fleet, first, other)
  }

  /** The candidate was fetched, and the sequential plan, however the shortlist is arranged, is to
      try it, or to wait until it is free. */
  ghost predicate PlanIsFor(cs: seq<Candidate>, now: Instant, c: Candidate) {
    c in cs && forall ranked :: Plan(cs, ranked, Sequential, now) == TryOrWait([c], now)
  }

  predicate Offers(plan: RoutePlan, sim: SimId) {
    plan.Try? && exists c :: c in plan.candidates && c.sim == sim
  }

  ghost predicate NoPlanOffers(cs: seq<Candidate>, now: Instant, sim: SimId) {
    forall ranked :: IsRanking(cs, ranked) ==> !Offers(Plan(cs, ranked, Sequential, now), sim)
  }

  /** No plan tries a SIM that was not fetched. */
  lemma UnfetchedIsNotOffered(fleet: Fleet, db: Db, recipient: Recipient, now: Instant, rows: seq<SimId>, sim: SimId)
    requires (forall s :: s in rows ==> s in fleet.sims) && sim !in rows
    ensures NoPlanOffers(Candidates(fleet, db, recipient, now, rows), now, sim)
  {
    hide Plan, ToCandidate, IsRanking;
    var cs := Candidates(fleet, db, recipient, now, rows);
    forall ranked | IsRanking(cs, ranked) ensures !Offers(Plan(cs, ranked, Sequential, now), sim) {
      var plan := Plan(cs, ranked, Sequential, now);
      if Offers(plan, sim) {
        var c :| c in plan.candidates && c.sim == sim;
        PlannedIsFetched(cs, ranked, Sequential, now, c);
        RowsGiveCandidates(fleet, db, recipient, now, rows, c);
      }
    }
  }

  /** Where no eligible SIM holds the number: the plan is for the first one with room if it was
      fetched, and otherwise does not offer it. */
  lemma FetchedFirstIsPlanned(fleet: Fleet, db: Db, recipient: Recipient, now: Instant, eligible: set<SimId>,
                              rows: seq<SimId>, first: SimId)
    requires IsFetch(eligible, rows) && IsFirstWithRoom(fleet, db, fleet.billingDay(now), eligible, first)
    requires HoldersAmong(fleet, db, recipient, now, eligible) == {}
    ensures first in fleet.sims && forall s :: s in rows ==> s in fleet.sims
    ensures var cs := Candidates(fleet, db, recipient, now, rows);
            var f := ToCandidate(fleet, db, recipient, now, first);
            if first in rows then PlanIsFor(cs, now, f) else NoPlanOffers(cs, now, first) && f !in cs
  {
    hide EffectiveLimit, InFlightOn, UsedSlots, SimFree, GatewayFree, Filter, TryOrWait;
    var cs := Candidates(fleet, db, recipient, now, rows);
    var f := ToCandidate(fleet, db, recipient, now, first);
    RowsGiveCandidates(fleet, db, recipient, now, rows, f);
    if first in rows {
      assert f in WithAllowance(cs);
      var target := FirstInFleetOrder(WithAllowance(cs));
      RowsGiveCandidates(fleet, db, recipient, now, rows, target);
      assert CompareFillOrder(target, f) <= 0;
      NobodyHolds(fleet, db, recipient, now, eligible, rows);
    } else {
      UnfetchedIsNotOffered(fleet, db, recipient, now, rows, first);
    }
  }

  lemma NobodyHolds(fleet: Fleet, db: Db, recipient: Recipient, now: Instant, eligible: set<SimId>, rows: seq<SimId>)
    requires IsFetch(eligible, rows) && HoldersAmong(fleet, db, recipient, now, eligible) == {}
    requires forall s :: s in rows ==> s in fleet.sims
    ensures Holders(Candidates(fleet, db, recipient, now, rows)) == []
  {
    hide EffectiveLimit, InFlightOn, UsedSlots, SimFree, GatewayFree;
    forall c | c in Candidates(fleet, db, recipient, now, rows) ensures !c.holdsRecipient {
      RowsGiveCandidates(fleet, db, recipient, now, rows, c);
      assert c.sim in eligible && c.sim !in HoldersAmong(fleet, db, recipient, now, eligible);
    }
  }

  /** A number nobody eligible holds goes to the first eligible SIM with room, whatever the query
      returns, if and only if no more SIMs are eligible than it returns: then every plan tries that
      SIM, or waits for it, and beyond that some fetch gives plans that do not offer it. */
  lemma PlanTargetsFirstIff(fleet: Fleet, db: Db, recipient: Recipient, now: Instant, eligible: set<SimId>,
                            first: SimId)
    requires IsFirstWithRoom(fleet, db, fleet.billingDay(now), eligible, first)
    requires HoldersAmong(fleet, db, recipient, now, eligible) == {}
    ensures first in fleet.sims && forall rows, s :: IsFetch(eligible, rows) && s in rows ==> s in fleet.sims
    ensures (forall rows :: IsFetch(eligible, rows) ==>
               PlanIsFor(Candidates(fleet, db, recipient, now, rows), now,
                         ToCandidate(fleet, db, recipient, now, first)))
       <==> |eligible| <= 50
    ensures (exists rows :: IsFetch(eligible, rows)
                         && NoPlanOffers(Candidates(fleet, db, recipient, now, rows), now, first) && first !in rows)
       <==> |eligible| > 50
  {
    assert first in eligible;
    hide IsFetch, IsFirstWithRoom, PlanIsFor, NoPlanOffers, HoldersAmong, ToCandidate, Candidates;
    FetchSeesAllIff(eligible, first);
    var f := ToCandidate(fleet, db, recipient, now, first);
    forall rows | IsFetch(eligible, rows)
      ensures forall s :: s in rows ==> s in fleet.sims
      ensures var cs := Candidates(fleet, db, recipient, now, rows);
              if first in rows then PlanIsFor(cs, now, f) else NoPlanOffers(cs, now, first) && !PlanIsFor(cs, now, f)
    {
      FetchedFirstIsPlanned(fleet, db, recipient, now, eligible, rows, first);
      PlanIsForFetched(Candidates(fleet, db, recipient, now, rows), now, f);
    }
  }

  lemma PlanIsForFetched(cs: seq<Candidate>, now: Instant, c: Candidate)
    ensures PlanIsFor(cs, now, c) ==> c in cs
  {
  }

  /** So while that SIM is free, every plan offers it if and only if no more are eligible. */
  lemma FreeFirstIsOfferedIff(fleet: Fleet, db: Db, recipient: Recipient, now: Instant, eligible: set<SimId>,
                              first: SimId)
    requires IsFirstWithRoom(fleet, db, fleet.billingDay(now), eligible, first)
    requires HoldersAmong(fleet, db, recipient, now, eligible) == {}
    requires first in fleet.sims && ToCandidate(fleet, db, recipient, now, first).availableNow
    ensures forall rows, s :: IsFetch(eligible, rows) && s in rows ==> s in fleet.sims
    ensures (forall rows, ranked :: && IsFetch(eligible, rows)
                                    && IsRanking(Candidates(fleet, db, recipient, now, rows), ranked) ==>
               Offers(Plan(Candidates(fleet, db, recipient, now, rows), ranked, Sequential, now), first))
       <==> |eligible| <= 50
  {
    PlanTargetsFirstIff(fleet, db, recipient, now, eligible, first);
    var f := ToCandidate(fleet, db, recipient, now, first);
    assert f.sim == first;
    hide IsFetch, IsFirstWithRoom, HoldersAmong, ToCandidate, Candidates, Plan, Shortlist;
    if |eligible| <= CANDIDATE_LIMIT {
      assert Offers(TryOrWait([f], now), first) by { assert f in [f]; }
    } else {
      var rows :| IsFetch(eligible, rows) && NoPlanOffers(Candidates(fleet, db, recipient, now, rows), now, first);
      var cs := Candidates(fleet, db, recipient, now, rows);
      assert IsRanking(cs, Shortlist(cs));
    }
  }

  /** And the number of eligible holders a query may overlook: it is sure to return one of them
      if and only if the eligible SIMs that do not hold the number cannot fill it. */
  lemma QueryFindsAHolderIff(fleet: Fleet, db: Db, recipient: Recipient, now: Instant, eligible: set<SimId>)
    requires HoldersAmong(fleet, db, recipient, now, eligible) != {}
    ensures (forall rows :: IsFetch(eligible, rows) ==>
               exists s :: s in HoldersAmong(fleet, db, recipient, now, eligible) && s in rows)
       <==> |eligible - HoldersAmong(fleet, db, recipient, now, eligible)| < 50
  {
    FetchSeesSomeIff(eligible, HoldersAmong(fleet, db, recipient, now, eligible));
  }
}
