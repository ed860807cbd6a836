/** The routing rules read off the columns: which SIMs may carry a message, which of them are
    considered for it, and what the plan comes to. */
module RoutingRules {
  import opened SmsTypes
  import opened MessageJob
  import opened RecipientAllowance
  import opened DeliveryState
  import opened SimPacing
  import opened SimProfileSelector
  import opened DeliveryProtocol
  import opened SequentialFill
  import opened ProtocolInvariant

  // ---- the columns ----------------------------------------------------------------------------------

  /** The SIM may carry the message: its device is in the pool, or is the message's own tenant's and
      the one the message names; device, operator and slot are those asked for, if any were; its
      quota for the day is not used up; and it has not tried the message before. */
  ghost predicate Suits(fleet: Fleet, db: Db, job: Job, usable: set<SimId>, today: Day, sim: SimId) {
    && sim in usable && sim in fleet.sims
    && var row, message := fleet.sims[sim], job.message;
    && row.gateway in db.assignments
    && (|| db.assignments[row.gateway] == Pool
        || (db.assignments[row.gateway] == Owned(message.tenant) && message.requestedGateway == Some(row.gateway)))
    && (message.requestedGateway == None || message.requestedGateway == Some(row.gateway))
    && (message.requestedOperator == None || message.requestedOperator == row.operator)
    && (message.requestedSlot == None || message.requestedSlot == Some(row.slot))
    && (row.dailyQuota.Some? && sim in db.counters && db.counters[sim].counterDate == Some(today) ==>
          db.counters[sim].sentToday < row.dailyQuota.value)
    && forall k :: k in job.attempts ==> job.attempts[k].sim != sim
  }

  predicate HoldsNumber(fleet: Fleet, db: Db, recipient: Recipient, now: Instant, sim: SimId) {
    Slot(sim, fleet.billingDay(now), recipient) in db.ledger
  }

  /** The SIM may take one more number today: by its own cap if it has one; else, unless its device
      is a tenant's, by its operator's, or by the general one when the operator is not known. */
  predicate MayTakeNumber(fleet: Fleet, db: Db, now: Instant, sim: SimId)
    requires sim in fleet.sims
  {
    var row := fleet.sims[sim];
    var used := |set slot | slot in db.ledger && slot.sim == sim && slot.day == fleet.billingDay(now)|;
    var owned := row.gateway in db.assignments && db.assignments[row.gateway].Owned?;
    && (row.dailyRecipientLimit.Some? ==> used < row.dailyRecipientLimit.value)
    && (row.dailyRecipientLimit.None? && !owned ==>
          && (row.operator.Some? && row.operatorLimit.Some? ==> used < row.operatorLimit.value)
          && (row.operator.None? && fleet.defaultLimit.Some? ==> used < fleet.defaultLimit.value))
  }

  /** Its device may be given one more message for it. */
  predicate HasSpare(fleet: Fleet, db: Db, sim: SimId)
    requires sim in fleet.sims
  {
    |set m | m in db.jobs && (db.jobs[m].message.status.Assigned? || db.jobs[m].message.status.Sending?)
          && db.jobs[m].message.sim == Some(sim)| < fleet.sims[sim].maxInFlight
  }

  /** Neither its own window nor that of its device, if the device has a rate, is taken at `at`. */
  predicate IsFreeAt(fleet: Fleet, db: Db, sim: SimId, at: Instant)
    requires sim in fleet.sims
  {
    var row := fleet.sims[sim];
    && (sim in db.pacing.sims ==> db.pacing.sims[sim] <= at)
    && (row.gatewaySmsPerMinute.Some? && row.gateway in db.pacing.gateways ==> db.pacing.gateways[row.gateway] <= at)
  }

  /** Some fetched SIM holds the number. */
  predicate AnyHolds(fleet: Fleet, db: Db, recipient: Recipient, now: Instant, rows: seq<SimId>) {
    exists s :: s in rows && HoldsNumber(fleet, db, recipient, now, s)
  }

  /** The fetched SIMs the message may go to: the ones that hold its number, if any does; else the
      ones that may take one more, and of those only the first in fleet order when SIMs are filled
      one after another. */
  predicate IsConsidered(fleet: Fleet, db: Db, recipient: Recipient, now: Instant, rows: seq<SimId>, sim: SimId)
    requires forall s :: s in rows ==> s in fleet.sims
  {
    && sim in rows
    && if AnyHolds(fleet, db, recipient, now, rows) then HoldsNumber(fleet, db, recipient, now, sim)
       else && MayTakeNumber(fleet, db, now, sim)
            && (fleet.strategy.Sequential? ==>
                  forall s :: s in rows && MayTakeNumber(fleet, db, now, s) ==> !Precedes(fleet, s, sim))
  }

  // ---- eligible SIMs --------------------------------------------------------------------------------

  /** The query's conditions are those of the columns. */
  lemma EligibleIffSuits(fleet: Fleet, db: Db, job: Job, usable: set<SimId>, today: Day, sim: SimId)
    ensures sim in Eligible(fleet, db, job, usable, today) <==> Suits(fleet, db, job, usable, today, sim)
  {
  }

  /** What suiting means, column by column. Where a quota leaves room for anything at all, today's
      counted sends are below it. */
  lemma SuitsMeans(fleet: Fleet, db: Db, job: Job, usable: set<SimId>, today: Day, sim: SimId)
    requires Suits(fleet, db, job, usable, today, sim)
    ensures sim in usable && sim in fleet.sims
    ensures var row, message := fleet.sims[sim], job.message;
            && row.gateway in db.assignments
            && (db.assignments[row.gateway].Pool?
                || (db.assignments[row.gateway] == Owned(message.tenant)
                    && message.requestedGateway == Some(row.gateway)))
            && (message.requestedGateway.Some? ==> message.requestedGateway.value == row.gateway)
            && (message.requestedOperator.Some? ==> Some(message.requestedOperator.value) == row.operator)
            && (message.requestedSlot.Some? ==> message.requestedSlot.value == row.slot)
            && (row.dailyQuota.Some? && row.dailyQuota.value > 0 ==>
                  CountedOn(db.counters, sim, today) < row.dailyQuota.value)
            && (forall j :: j in job.attempts ==> job.attempts[j].sim != sim)
  {
  }

  lemma FetchedSuit(fleet: Fleet, db: Db, job: Job, now: Instant, choice: Choice)
    requires IsChoice(fleet, db, job, now, choice)
    ensures forall s :: s in choice.rows ==>
              s in fleet.sims && Suits(fleet, db, job, choice.usable, fleet.billingDay(now), s)
    ensures choice.rows == []
       <==> forall s :: !Suits(fleet, db, job, choice.usable, fleet.billingDay(now), s)
  {
    hide IsRanking, Suits;
    var today := fleet.billingDay(now);
    forall s
      ensures s in Eligible(fleet, db, job, choice.usable, today) <==> Suits(fleet, db, job, choice.usable, today, s)
    {
      EligibleIffSuits(fleet, db, job, choice.usable, today, s);
    }
    hide Eligible;
    var eligible := Eligible(fleet, db, job, choice.usable, today);
    if choice.rows == [] { assert eligible == {}; }
  }

  // ---- candidates -----------------------------------------------------------------------------------

  lemma CandidateColumns(fleet: Fleet, db: Db, recipient: Recipient, now: Instant, sim: SimId)
    requires sim in fleet.sims
    ensures var c := ToCandidate(fleet, db, recipient, now, sim);
            && c.sim == sim
            && (c.holdsRecipient <==> HoldsNumber(fleet, db, recipient, now, sim))
            && (HasAllowance(c) <==> MayTakeNumber(fleet, db, now, sim))
            && (c.availableNow <==> HasSpare(fleet, db, sim) && IsFreeAt(fleet, db, sim, now))
            && (c.availableAt.Some? <==> HasSpare(fleet, db, sim))
            && (c.availableAt.Some? ==>
                  && c.availableAt.value >= now
                  && forall t :: t >= now ==> (IsFreeAt(fleet, db, sim, t) <==> t >= c.availableAt.value))
  {
    var inFlight := set m | m in db.jobs && (db.jobs[m].message.status.Assigned? || db.jobs[m].message.status.Sending?)
                         && db.jobs[m].message.sim == Some(sim);
    assert InFlightOn(db.jobs, sim) == inFlight;
    var today := fleet.billingDay(now);
    assert UsedSlots(db.ledger, sim, today) == set slot | slot in db.ledger && slot.sim == sim && slot.day == today;
  }

  lemma FillOrderIsPrecedence(fleet: Fleet, db: Db, recipient: Recipient, now: Instant, a: SimId, b: SimId)
    requires a in fleet.sims && b in fleet.sims
    ensures CompareFillOrder(ToCandidate(fleet, db, recipient, now, a), ToCandidate(fleet, db, recipient, now, b)) < 0
       <==> Precedes(fleet, a, b)
    ensures CompareFillOrder(ToCandidate(fleet, db, recipient, now, a), ToCandidate(fleet, db, recipient, now, b)) <= 0
       <==> !Precedes(fleet, b, a)
  {
    hide EffectiveLimit, InFlightOn, UsedSlots, SimFree, GatewayFree;
  }

  /** What a list of candidates has to be for the plan to be about the SIMs considered. */
  ghost predicate AreConsidered(fleet: Fleet, db: Db, recipient: Recipient, now: Instant, rows: seq<SimId>,
                                ordered: seq<Candidate>)
    requires forall s :: s in rows ==> s in fleet.sims
  {
    forall c :: c in ordered <==>
      && c.sim in rows && c == ToCandidate(fleet, db, recipient, now, c.sim)
      && IsConsidered(fleet, db, recipient, now, rows, c.sim)
  }

  lemma HoldersColumns(fleet: Fleet, db: Db, recipient: Recipient, now: Instant, rows: seq<SimId>)
    requires forall s :: s in rows ==> s in fleet.sims
    ensures var cs := Candidates(fleet, db, recipient, now, rows);
            && (Holders(cs) != [] <==> AnyHolds(fleet, db, recipient, now, rows))
            && (forall c :: c in Holders(cs) <==>
                  && c.sim in rows && c == ToCandidate(fleet, db, recipient, now, c.sim)
                  && HoldsNumber(fleet, db, recipient, now, c.sim))
            && (forall c :: c in WithAllowance(cs) <==>
                  && c.sim in rows && c == ToCandidate(fleet, db, recipient, now, c.sim)
                  && MayTakeNumber(fleet, db, now, c.sim))
  {
    hide ToCandidate, HoldsNumber, MayTakeNumber, HasAllowance, HasSpare, IsFreeAt;
    var cs := Candidates(fleet, db, recipient, now, rows);
    forall c
      ensures c in cs <==> c.sim in rows && c == ToCandidate(fleet, db, recipient, now, c.sim)
      ensures c.sim in rows && c == ToCandidate(fleet, db, recipient, now, c.sim) ==>
                && (c.holdsRecipient <==> HoldsNumber(fleet, db, recipient, now, c.sim))
                && (HasAllowance(c) <==> MayTakeNumber(fleet, db, now, c.sim))
    {
      RowsGiveCandidates(fleet, db, recipient, now, rows, c);
      if c.sim in rows { CandidateColumns(fleet, db, recipient, now, c.sim); }
    }
    if s :| s in rows && HoldsNumber(fleet, db, recipient, now, s) {
      var c := ToCandidate(fleet, db, recipient, now, s);
      CandidateColumns(fleet, db, recipient, now, s);
      assert c in Holders(cs);
    }
    if Holders(cs) != [] { assert Holders(cs)[0] in Holders(cs); }
  }

  // ---- what the plan comes to -------------------------------------------------------------------------

  /** Someone is considered unless every fetched SIM lacks both the number and room for it. */
  lemma SomeoneIsConsidered(fleet: Fleet, db: Db, recipient: Recipient, now: Instant, rows: seq<SimId>)
    requires forall s :: s in rows ==> s in fleet.sims
    ensures (exists s :: s in rows && IsConsidered(fleet, db, recipient, now, rows, s))
       <==> exists s :: s in rows
                     && (HoldsNumber(fleet, db, recipient, now, s) || MayTakeNumber(fleet, db, now, s))
  {
    hide HoldsNumber, MayTakeNumber, Precedes, ToCandidate;
    var open := WithAllowance(Candidates(fleet, db, recipient, now, rows));
    HoldersColumns(fleet, db, recipient, now, rows);
    if s :| s in rows && HoldsNumber(fleet, db, recipient, now, s) {
      assert IsConsidered(fleet, db, recipient, now, rows, s);
    } else if s :| s in rows && MayTakeNumber(fleet, db, now, s) {
      CandidateColumns(fleet, db, recipient, now, s);
      assert ToCandidate(fleet, db, recipient, now, s) in open;
      FirstIsConsidered(fleet, db, recipient, now, rows);
      assert IsConsidered(fleet, db, recipient, now, rows, FirstInFleetOrder(open).sim);
    }
  }

  lemma FirstIsConsidered(fleet: Fleet, db: Db, recipient: Recipient, now: Instant, rows: seq<SimId>)
    requires forall s :: s in rows ==> s in fleet.sims
    requires WithAllowance(Candidates(fleet, db, recipient, now, rows)) != []
    ensures var first := FirstInFleetOrder(WithAllowance(Candidates(fleet, db, recipient, now, rows)));
            && first.sim in rows && first == ToCandidate(fleet, db, recipient, now, first.sim)
            && MayTakeNumber(fleet, db, now, first.sim)
            && forall s :: s in rows && MayTakeNumber(fleet, db, now, s) ==> !Precedes(fleet, s, first.sim)
  {
    hide HoldsNumber, MayTakeNumber, Precedes, ToCandidate, CompareFillOrder, Filter;
    var open := WithAllowance(Candidates(fleet, db, recipient, now, rows));
    HoldersColumns(fleet, db, recipient, now, rows);
    var first := FirstInFleetOrder(open);
    forall s | s in rows && MayTakeNumber(fleet, db, now, s) ensures !Precedes(fleet, s, first.sim) {
      CandidateColumns(fleet, db, recipient, now, s);
      assert ToCandidate(fleet, db, recipient, now, s) in open;
      FillOrderIsPrecedence(fleet, db, recipient, now, first.sim, s);
    }
  }

  lemma OnlyFirstIsUnpreceded(fleet: Fleet, a: SimId, b: SimId)
    requires IsJoin(fleet) && a in fleet.sims && b in fleet.sims && !Precedes(fleet, a, b) && !Precedes(fleet, b, a)
    ensures a == b
  {
  }

  /** Whatever plan there is with someone to consider, it is made of exactly the SIMs considered. */
  lemma PlanIsOfConsidered(fleet: Fleet, db: Db, recipient: Recipient, now: Instant, rows: seq<SimId>,
                           ranked: seq<Candidate>)
    returns (ordered: seq<Candidate>)
    requires IsJoin(fleet) && forall s :: s in rows ==> s in fleet.sims
    requires IsRanking(Candidates(fleet, db, recipient, now, rows), ranked)
    requires exists s :: s in rows && IsConsidered(fleet, db, recipient, now, rows, s)
    ensures ordered != [] && AreConsidered(fleet, db, recipient, now, rows, ordered)
    ensures Plan(Candidates(fleet, db, recipient, now, rows), ranked, fleet.strategy, now) == TryOrWait(ordered, now)
    ensures ordered == ranked || ordered == [ordered[0]]
  {
    hide HoldsNumber, MayTakeNumber, Precedes, ToCandidate, TryOrWait, Filter, FirstInFleetOrder;
    var cs := Candidates(fleet, db, recipient, now, rows);
    HoldersColumns(fleet, db, recipient, now, rows);
    RankedAreShortlisted(cs, ranked);
    var s :| s in rows && IsConsidered(fleet, db, recipient, now, rows, s);
    CandidateColumns(fleet, db, recipient, now, s);
    var c := ToCandidate(fleet, db, recipient, now, s);
    if Holders(cs) != [] || fleet.strategy.Spread? {
      assert c in Shortlist(cs);
      assert c in ranked;
      ordered := ranked;
    } else {
      assert c in WithAllowance(cs);
      FirstAloneIsConsidered(fleet, db, recipient, now, rows);
      ordered := [FirstInFleetOrder(WithAllowance(cs))];
    }
  }

  lemma FirstAloneIsConsidered(fleet: Fleet, db: Db, recipient: Recipient, now: Instant, rows: seq<SimId>)
    requires IsJoin(fleet) && fleet.strategy.Sequential? && forall s :: s in rows ==> s in fleet.sims
    requires !AnyHolds(fleet, db, recipient, now, rows)
    requires WithAllowance(Candidates(fleet, db, recipient, now, rows)) != []
    ensures AreConsidered(fleet, db, recipient, now, rows,
                          [FirstInFleetOrder(WithAllowance(Candidates(fleet, db, recipient, now, rows)))])
  {
    hide HoldsNumber, AnyHolds, MayTakeNumber, Precedes, ToCandidate, Filter, IsJoin, WithAllowance;
    FirstIsConsidered(fleet, db, recipient, now, rows);
    var first := FirstInFleetOrder(WithAllowance(Candidates(fleet, db, recipient, now, rows)));
    forall o | o in rows && IsConsidered(fleet, db, recipient, now, rows, o) ensures o == first.sim {
      OnlyFirstIsUnpreceded(fleet, o, first.sim);
    }
  }

  lemma RankedAreShortlisted(cs: seq<Candidate>, ranked: seq<Candidate>)
    requires IsRanking(cs, ranked)
    ensures forall c :: c in ranked <==> c in Shortlist(cs)
  {
    hide Shortlist;
    forall c ensures c in ranked <==> c in Shortlist(cs) {
      assert c in ranked <==> c in multiset(ranked);
      assert c in Shortlist(cs) <==> c in multiset(Shortlist(cs));
    }
  }

  /** The preference order may put the shortlist in any order: two of its places may always be
      swapped. */
  lemma PlacesMayBeSwapped(cs: seq<Candidate>, ranked: seq<Candidate>, i: nat, j: nat)
    requires IsRanking(cs, ranked) && i < j < |ranked|
    ensures IsRanking(cs, ranked[i := ranked[j]][j := ranked[i]]) && IsRanking(cs, Shortlist(cs))
  {
    hide Shortlist;
    SwappingKeepsElements(ranked, i, j);
  }

  lemma SwappingKeepsElements<T>(s: seq<T>, i: nat, j: nat)
    requires i < j < |s|
    ensures multiset(s[i := s[j]][j := s[i]]) == multiset(s)
  {
    var once := s[i := s[j]];
    assert multiset(once) == multiset(s) - multiset{s[i]} + multiset{s[j]};
    assert multiset(once[j := s[i]]) == multiset(once) - multiset{once[j]} + multiset{s[i]};
  }

  lemma EarliestIsLeast(cs: seq<Candidate>)
    ensures var e := EarliestKnown(cs);
            && (e.None? <==> forall c :: c in cs ==> c.availableAt.None?)
            && (e.Some? ==>
                  && (exists c :: c in cs && c.availableAt == e)
                  && forall c :: c in cs && c.availableAt.Some? ==> e.value <= c.availableAt.value)
  {
    if cs != [] {
      EarliestIsLeast(cs[1..]);
      assert cs == [cs[0]] + cs[1..];
      assert forall c :: c in cs <==> c == cs[0] || c in cs[1..];
    }
  }

  /** The free ones come first in the order they had. */
  lemma FirstKept(p: Candidate -> bool, cs: seq<Candidate>) returns (i: nat)
    requires Filter(p, cs) != []
    ensures i < |cs| && Filter(p, cs)[0] == cs[i] && p(cs[i]) && forall j :: 0 <= j < i ==> !p(cs[j])
  {
    if p(cs[0]) {
      i := 0;
    } else {
      var rest := FirstKept(p, cs[1..]);
      i := rest + 1;
      assert forall j :: 0 < j < i ==> cs[j] == cs[1..][j - 1];
    }
  }

  /** No SIM is fetched, or none of them may have the number: nothing to try, nothing to wait for. */
  lemma PlanGivesUpIff(fleet: Fleet, db: Db, recipient: Recipient, now: Instant, rows: seq<SimId>,
                       ranked: seq<Candidate>)
    requires IsJoin(fleet) && forall s :: s in rows ==> s in fleet.sims
    requires IsRanking(Candidates(fleet, db, recipient, now, rows), ranked)
    ensures var plan := Plan(Candidates(fleet, db, recipient, now, rows), ranked, fleet.strategy, now);
            && (plan.Unavailable? <==> rows == [])
            && (plan.Exhausted? <==>
                  && rows != []
                  && forall s :: s in rows ==>
                       !HoldsNumber(fleet, db, recipient, now, s) && !MayTakeNumber(fleet, db, now, s))
  {
    hide HoldsNumber, MayTakeNumber, Precedes, ToCandidate, Filter;
    HoldersColumns(fleet, db, recipient, now, rows);
    SomeoneIsConsidered(fleet, db, recipient, now, rows);
    if exists s :: s in rows && IsConsidered(fleet, db, recipient, now, rows, s) {
      hide Plan, EarliestKnown;
      var ordered := PlanIsOfConsidered(fleet, db, recipient, now, rows, ranked);
    } else if rows != [] {
      NoneConsideredExhausts(fleet, db, recipient, now, rows, ranked);
    }
  }

  lemma NoneConsideredExhausts(fleet: Fleet, db: Db, recipient: Recipient, now: Instant, rows: seq<SimId>,
                               ranked: seq<Candidate>)
    requires rows != [] && forall s :: s in rows ==> s in fleet.sims
    requires forall s :: s in rows ==>
               !HoldsNumber(fleet, db, recipient, now, s) && !MayTakeNumber(fleet, db, now, s)
    ensures Plan(Candidates(fleet, db, recipient, now, rows), ranked, fleet.strategy, now).Exhausted?
  {
    hide HoldsNumber, MayTakeNumber, ToCandidate, Filter;
    HoldersColumns(fleet, db, recipient, now, rows);
    var cs := Candidates(fleet, db, recipient, now, rows);
    assert forall c :: c !in WithAllowance(cs);
  }

  /** A message that has to wait does so until one of the SIMs considered for it is free, and not a
      moment longer; when all of them hold as many messages as they may, for five seconds. */
  lemma PlanWaitsForTheFirstFree(fleet: Fleet, db: Db, recipient: Recipient, now: Instant, rows: seq<SimId>,
                                 ranked: seq<Candidate>)
    requires IsJoin(fleet) && forall s :: s in rows ==> s in fleet.sims
    requires IsRanking(Candidates(fleet, db, recipient, now, rows), ranked)
    requires Plan(Candidates(fleet, db, recipient, now, rows), ranked, fleet.strategy, now).Wait?
    ensures WaitsForTheFirstFree(fleet, db, recipient, now, rows,
              Plan(Candidates(fleet, db, recipient, now, rows), ranked, fleet.strategy, now).until)
  {
    hide IsConsidered, ToCandidate, HasSpare, IsFreeAt, Plan, IsRanking;
    PlanGivesUpIff(fleet, db, recipient, now, rows, ranked);
    SomeoneIsConsidered(fleet, db, recipient, now, rows);
    var ordered := PlanIsOfConsidered(fleet, db, recipient, now, rows, ranked);
    forall s | s in rows && IsConsidered(fleet, db, recipient, now, rows, s)
      ensures var c := ToCandidate(fleet, db, recipient, now, s);
              c in ordered && (c.availableNow <==> HasSpare(fleet, db, s) && IsFreeAt(fleet, db, s, now))
    {
      CandidateColumns(fleet, db, recipient, now, s);
    }
    WaitOfOrdered(fleet, db, recipient, now, rows, ordered);
  }

  /** The SIM is considered, and could take a message as soon as it is free. */
  predicate IsAwaited(fleet: Fleet, db: Db, recipient: Recipient, now: Instant, rows: seq<SimId>, sim: SimId)
    requires forall s :: s in rows ==> s in fleet.sims
  {
    sim in rows && IsConsidered(fleet, db, recipient, now, rows, sim) && HasSpare(fleet, db, sim)
  }

  ghost predicate WaitsForTheFirstFree(fleet: Fleet, db: Db, recipient: Recipient, now: Instant, rows: seq<SimId>,
                                       until: Instant)
    requires forall s :: s in rows ==> s in fleet.sims
  {
    && (exists s :: s in rows && IsConsidered(fleet, db, recipient, now, rows, s))
    && (forall s :: IsAwaited(fleet, db, recipient, now, rows, s) ==> !IsFreeAt(fleet, db, s, now))
    && (forall s, t | now <= t < until :: IsAwaited(fleet, db, recipient, now, rows, s) ==> !IsFreeAt(fleet, db, s, t))
    && (if exists s :: IsAwaited(fleet, db, recipient, now, rows, s)
        then exists s :: IsAwaited(fleet, db, recipient, now, rows, s) && IsFreeAt(fleet, db, s, until)
        else until == now + 5.0)
  }

  lemma WaitOfOrdered(fleet: Fleet, db: Db, recipient: Recipient, now: Instant, rows: seq<SimId>,
                      ordered: seq<Candidate>)
    requires forall s :: s in rows ==> s in fleet.sims
    requires ordered != [] && AreConsidered(fleet, db, recipient, now, rows, ordered)
    requires TryOrWait(ordered, now).Wait?
    ensures WaitsForTheFirstFree(fleet, db, recipient, now, rows, TryOrWait(ordered, now).until)
  {
    hide IsConsidered, ToCandidate, HasSpare, IsFreeAt;
    forall s | s in rows
      ensures var c := ToCandidate(fleet, db, recipient, now, s);
              && c.sim == s
              && (c.availableNow <==> HasSpare(fleet, db, s) && IsFreeAt(fleet, db, s, now))
              && (c.availableAt.Some? <==> HasSpare(fleet, db, s))
              && (c.availableAt.Some? ==>
                    && c.availableAt.value >= now
                    && forall t :: t >= now ==> (IsFreeAt(fleet, db, s, t) <==> t >= c.availableAt.value))
    {
      CandidateColumns(fleet, db, recipient, now, s);
    }
    EarliestIsLeast(ordered);
    assert ordered[0] in ordered;
    forall s | IsAwaited(fleet, db, recipient, now, rows, s)
      ensures ToCandidate(fleet, db, recipient, now, s) in ordered
    {
    }
    if EarliestKnown(ordered).Some? {
      var c :| c in ordered && c.availableAt == EarliestKnown(ordered);
      assert IsAwaited(fleet, db, recipient, now, rows, c.sim);
    }
  }

  /** The SIM may be given a message at once. */
  predicate IsOpen(fleet: Fleet, db: Db, recipient: Recipient, now: Instant, rows: seq<SimId>, sim: SimId)
    requires forall s :: s in rows ==> s in fleet.sims
  {
    IsAwaited(fleet, db, recipient, now, rows, sim) && IsFreeAt(fleet, db, sim, now)
  }

  predicate IsOpenCandidate(fleet: Fleet, db: Db, recipient: Recipient, now: Instant, rows: seq<SimId>, c: Candidate)
    requires forall s :: s in rows ==> s in fleet.sims
  {
    IsOpen(fleet, db, recipient, now, rows, c.sim) && c == ToCandidate(fleet, db, recipient, now, c.sim)
  }

  /** Otherwise it is tried on exactly the SIMs considered that are free and have a message to
      spare. */
  lemma PlanTriesTheFree(fleet: Fleet, db: Db, recipient: Recipient, now: Instant, rows: seq<SimId>,
                         ranked: seq<Candidate>)
    requires IsJoin(fleet) && forall s :: s in rows ==> s in fleet.sims
    requires IsRanking(Candidates(fleet, db, recipient, now, rows), ranked)
    ensures var plan := Plan(Candidates(fleet, db, recipient, now, rows), ranked, fleet.strategy, now);
            && (plan.Try? <==> exists s :: IsOpen(fleet, db, recipient, now, rows, s))
            && (plan.Try? ==>
                  forall c :: c in plan.candidates <==> IsOpenCandidate(fleet, db, recipient, now, rows, c))
  {
    hide HoldsNumber, MayTakeNumber, IsConsidered, ToCandidate, HasSpare, IsFreeAt, IsRanking, Plan, TryOrWait;
    PlanGivesUpIff(fleet, db, recipient, now, rows, ranked);
    SomeoneIsConsidered(fleet, db, recipient, now, rows);
    if exists s :: s in rows && IsConsidered(fleet, db, recipient, now, rows, s) {
      var ordered := PlanIsOfConsidered(fleet, db, recipient, now, rows, ranked);
      TryOfOrdered(fleet, db, recipient, now, rows, ordered);
    }
  }

  lemma TryOfOrdered(fleet: Fleet, db: Db, recipient: Recipient, now: Instant, rows: seq<SimId>,
                     ordered: seq<Candidate>)
    requires forall s :: s in rows ==> s in fleet.sims
    requires AreConsidered(fleet, db, recipient, now, rows, ordered)
    ensures var plan := TryOrWait(ordered, now);
            && (plan.Try? <==> exists s :: IsOpen(fleet, db, recipient, now, rows, s))
            && (plan.Try? ==>
                  forall c :: c in plan.candidates <==> IsOpenCandidate(fleet, db, recipient, now, rows, c))
  {
    hide IsConsidered, ToCandidate, HasSpare, IsFreeAt, EarliestKnown;
    forall s | s in rows
      ensures var c := ToCandidate(fleet, db, recipient, now, s);
              c.sim == s && (c.availableNow <==> HasSpare(fleet, db, s) && IsFreeAt(fleet, db, s, now))
    {
      CandidateColumns(fleet, db, recipient, now, s);
    }
    forall s | IsOpen(fleet, db, recipient, now, rows, s) ensures ToCandidate(fleet, db, recipient, now, s) in ordered {
    }
    var plan := TryOrWait(ordered, now);
    if plan.Try? { assert IsOpenCandidate(fleet, db, recipient, now, rows, plan.candidates[0]); }
  }

  /** And first of all on the one of them that comes first in the preference order. */
  lemma PlanTriesThePreferred(cs: seq<Candidate>, ranked: seq<Candidate>, strategy: FillStrategy, now: Instant)
    returns (i: nat)
    requires Plan(cs, ranked, strategy, now).Try? && (Holders(cs) != [] || strategy.Spread?)
    ensures i < |ranked| && Plan(cs, ranked, strategy, now).candidates != []
    ensures Plan(cs, ranked, strategy, now).candidates[0] == ranked[i] && ranked[i].availableNow
    ensures forall j :: 0 <= j < i ==> !ranked[j].availableNow
  {
    i := FirstKept((c: Candidate) => c.availableNow, ranked);
  }
}
