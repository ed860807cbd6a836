/** From eligible SIMs to a routing plan. */
module SimProfileSelector {
  import opened SmsTypes
  import opened RecipientAllowance
  import opened DeliveryState
  import opened SimPacing
  import opened SetSizes

  const UNKNOWN_WAIT_SECONDS: real := 5.0

  /** Rows one query returns at most. */
  const CANDIDATE_LIMIT := 50

  /** A SIM as the selector sees it. What only the preference order `compare` reads is not
      part of it: that order is taken as given, see `IsRanking`. */
  datatype Candidate = Candidate(
    sim: SimId,
    gateway: GatewayId,
    slot: nat,
    gatewayPriority: int,
    availableNow: bool,
    availableAt: Option<Instant>,
    holdsRecipient: bool,
    recipientLimit: Option<nat>,
    recipientsUsed: nat)

  datatype RoutePlan =
    | Try(candidates: seq<Candidate>)
    | Wait(until: Instant)
    | Exhausted
    | Unavailable

  // ---- the query --------------------------------------------------------------------

  /** How many recipients a SIM may take in a day. In a tenant's device only its own cap counts. */
  function EffectiveLimit(fleet: Fleet, db: Db, sim: SimId): Option<nat>
    requires sim in fleet.sims
  {
    var info := fleet.sims[sim];
    if AssignmentOf(db, info.gateway).Owned? then info.dailyRecipientLimit
    else if info.dailyRecipientLimit.Some? then info.dailyRecipientLimit
    else if info.operator.Some? then info.operatorLimit
    else fleet.defaultLimit
  }

  predicate MayCarry(assignment: Assignment, message: Message) {
    assignment.Pool? || (message.requestedGateway.Some? && assignment == Owned(message.tenant))
  }

  predicate WithinQuota(db: Db, sim: SimId, quota: Option<nat>, today: Day) {
    var counter := CounterOf(db.counters, sim);
    quota.None? || counter.sentToday < quota.value || counter.counterDate != Some(today)
  }

  /** A SIM that could carry the message. `usable` are the SIMs that are ready, funded and
      in a device that is active and connected here. */
  predicate IsEligible(fleet: Fleet, db: Db, job: Job, usable: set<SimId>, today: Day, sim: SimId) {
    && sim in usable && sim in fleet.sims
    && var info, message := fleet.sims[sim], job.message;
    && MayCarry(AssignmentOf(db, info.gateway), message)
    && WithinQuota(db, sim, info.dailyQuota, today)
    && (message.requestedGateway.Some? ==> info.gateway == message.requestedGateway.value)
    && (message.requestedOperator.Some? ==> info.operator == message.requestedOperator)
    && (message.requestedSlot.Some? ==> info.slot == message.requestedSlot.value)
    && (forall k :: k in job.attempts ==> job.attempts[k].sim != sim)
  }

  function Eligible(fleet: Fleet, db: Db, job: Job, usable: set<SimId>, today: Day): set<SimId> {
    set sim | sim in usable && IsEligible(fleet, db, job, usable, today, sim)
  }

  /** What the query may return: eligible SIMs in some order, all of them unless there are
      more than it fetches. */
  ghost predicate IsFetch(eligible: set<SimId>, rows: seq<SimId>) {
    && (forall i :: 0 <= i < |rows| ==> rows[i] in eligible)
    && (forall i, j :: 0 <= i < j < |rows| ==> rows[i] != rows[j])
    && |rows| == Min(|eligible|, CANDIDATE_LIMIT)
  }

  function ToCandidate(fleet: Fleet, db: Db, recipient: Recipient, now: Instant, sim: SimId): Candidate
    requires sim in fleet.sims
  {
    var info := fleet.sims[sim];
    var simFree := SimFree(db.pacing, sim, now);
    var deviceFree := info.gatewaySmsPerMinute.None? || GatewayFree(db.pacing, info.gateway, now);
    var slotsFree := |InFlightOn(db.jobs, sim)| < info.maxInFlight;
    var availableAt :=
      if !slotsFree then None
      else if simFree && deviceFree then Some(now)
      else if simFree then Some(db.pacing.gateways[info.gateway])
      else if deviceFree then Some(db.pacing.sims[sim])
      else Some(Later(db.pacing.sims[sim], db.pacing.gateways[info.gateway]));
    var today := fleet.billingDay(now);
    Candidate(sim, info.gateway, info.slot, info.gatewayPriority, simFree && deviceFree && slotsFree, availableAt,
              Slot(sim, today, recipient) in db.ledger, EffectiveLimit(fleet, db, sim),
              |UsedSlots(db.ledger, sim, today)|)
  }

  function Later(a: Instant, b: Instant): Instant {
    if a >= b then a else b
  }

  function Candidates(fleet: Fleet, db: Db, recipient: Recipient, now: Instant, rows: seq<SimId>): (cs: seq<Candidate>)
    requires forall i :: 0 <= i < |rows| ==> rows[i] in fleet.sims
    ensures |cs| == |rows|
    ensures forall i :: 0 <= i < |cs| ==> cs[i] == ToCandidate(fleet, db, recipient, now, rows[i])
  {
    seq(|rows|, i requires 0 <= i < |rows| => ToCandidate(fleet, db, recipient, now, rows[i]))
  }

  // ---- the plan ---------------------------------------------------------------------

  predicate HasAllowance(c: Candidate) {
    HasRoom(c.recipientsUsed, c.recipientLimit)
  }

  /** Fleet order, lexicographic in priority, device id and slot. */
  function CompareFillOrder(a: Candidate, b: Candidate): int {
    if a.gatewayPriority != b.gatewayPriority then a.gatewayPriority - b.gatewayPriority
    else if a.gateway != b.gateway then a.gateway - b.gateway
    else a.slot - b.slot
  }

  function Filter(p: Candidate -> bool, cs: seq<Candidate>): (kept: seq<Candidate>)
    ensures forall c :: c in kept <==> c in cs && p(c)
    ensures kept == [] <==> forall c :: c in cs ==> !p(c)
  {
    if cs == [] then [] else (if p(cs[0]) then [cs[0]] else []) + Filter(p, cs[1..])
  }

  function Holders(cs: seq<Candidate>): seq<Candidate> {
    Filter((c: Candidate) => c.holdsRecipient, cs)
  }

  function WithAllowance(cs: seq<Candidate>): seq<Candidate> {
    Filter((c: Candidate) => HasAllowance(c), cs)
  }

  /** The first candidate in fleet order. */
  function FirstInFleetOrder(cs: seq<Candidate>): (first: Candidate)
    requires cs != []
    ensures first in cs
    ensures forall c :: c in cs ==> CompareFillOrder(first, c) <= 0
  {
    if |cs| == 1 then cs[0]
    else
      var rest := FirstInFleetOrder(cs[1..]);
      assert forall c :: c in cs ==> c == cs[0] || c in cs[1..];
      if CompareFillOrder(cs[0], rest) <= 0 then cs[0] else rest
  }

  /** The candidates the preference order is applied to, when it is. */
  function Shortlist(cs: seq<Candidate>): seq<Candidate> {
    if Holders(cs) != [] then Holders(cs) else WithAllowance(cs)
  }

  /** The preference order is not transitive, so sorting by it yields some arrangement of
      the shortlist and no more can be said. */
  ghost predicate IsRanking(cs: seq<Candidate>, ranked: seq<Candidate>) {
    multiset(ranked) == multiset(Shortlist(cs))
  }

  function EarliestKnown(cs: seq<Candidate>): Option<Instant> {
    if cs == [] then None
    else
      var rest := EarliestKnown(cs[1..]);
      if cs[0].availableAt.None? then rest
      else if rest.None? || cs[0].availableAt.value <= rest.value then cs[0].availableAt
      else rest
  }

  function TryOrWait(ordered: seq<Candidate>, now: Instant): RoutePlan {
    var free := Filter((c: Candidate) => c.availableNow, ordered);
    if free != [] then Try(free)
    else
      var known := EarliestKnown(ordered);
      var until := if known.Some? then known.value else now + UNKNOWN_WAIT_SECONDS;
      Wait(if until < now then now else until)
  }

  function Plan(cs: seq<Candidate>, ranked: seq<Candidate>, strategy: FillStrategy, now: Instant): RoutePlan {
    if cs == [] then Unavailable
    else if Holders(cs) != [] then TryOrWait(ranked, now)
    else if WithAllowance(cs) == [] then Exhausted
    else if strategy.Sequential? then TryOrWait([FirstInFleetOrder(WithAllowance(cs))], now)
    else TryOrWait(ranked, now)
  }

  // ---- laws -------------------------------------------------------------------------

  /** Fleet order is a total order that tells any two SIMs of a fleet apart. */
  lemma FillOrderIsTotal(fleet: Fleet, db: Db, recipient: Recipient, now: Instant, s: SimId, t: SimId, u: SimId)
    requires IsJoin(fleet) && s in fleet.sims && t in fleet.sims && u in fleet.sims
    ensures var a := ToCandidate(fleet, db, recipient, now, s);
            var b := ToCandidate(fleet, db, recipient, now, t);
            var c := ToCandidate(fleet, db, recipient, now, u);
            && (CompareFillOrder(a, b) == 0 <==> s == t)
            && (CompareFillOrder(a, b) < 0 <==> CompareFillOrder(b, a) > 0)
            && (CompareFillOrder(a, b) <= 0 && CompareFillOrder(b, c) <= 0 ==> CompareFillOrder(a, c) <= 0)
  {
  }

  lemma SameElementsSameFirst(a: seq<Candidate>, b: seq<Candidate>)
    requires a != [] && b != []
    requires forall c :: c in a <==> c in b
    requires forall x, y :: x in a && y in a && CompareFillOrder(x, y) == 0 ==> x == y
    ensures FirstInFleetOrder(a) == FirstInFleetOrder(b)
  {
    var f, g := FirstInFleetOrder(a), FirstInFleetOrder(b);
    assert CompareFillOrder(f, g) <= 0 && CompareFillOrder(g, f) <= 0;
  }

  lemma SameElementsSameSequentialPlan(a: seq<Candidate>, b: seq<Candidate>, ra: seq<Candidate>, rb: seq<Candidate>,
                                       now: Instant)
    requires forall c :: c in a <==> c in b
    requires forall c :: c in a ==> !c.holdsRecipient
    requires forall x, y :: x in a && y in a && CompareFillOrder(x, y) == 0 ==> x == y
    ensures Plan(a, ra, Sequential, now) == Plan(b, rb, Sequential, now)
  {
    assert a == [] <==> b == [] by {
      if a != [] { assert a[0] in b; }
      if b != [] { assert b[0] in a; }
    }
    assert Holders(a) == [] && Holders(b) == [];
    if WithAllowance(a) != [] {
      SameElementsSameFirst(WithAllowance(a), WithAllowance(b));
    }
  }

  lemma RowsGiveCandidates(fleet: Fleet, db: Db, recipient: Recipient, now: Instant, rows: seq<SimId>, c: Candidate)
    requires forall s :: s in rows ==> s in fleet.sims
    ensures c in Candidates(fleet, db, recipient, now, rows)
       <==> c.sim in rows && c == ToCandidate(fleet, db, recipient, now, c.sim)
  {
    var cs := Candidates(fleet, db, recipient, now, rows);
    if c.sim in rows {
      var i :| 0 <= i < |rows| && rows[i] == c.sim;
      assert cs[i] in cs;
    }
  }

  /** When no SIM holds the number, the sequential plan does not depend on the order in
      which the query happened to return the rows. */
  lemma SequentialPlanIgnoresRowOrder(fleet: Fleet, db: Db, recipient: Recipient, now: Instant,
                                      rows: seq<SimId>, rows': seq<SimId>,
                                      ranked: seq<Candidate>, ranked': seq<Candidate>)
    requires IsJoin(fleet) && forall s :: s in rows <==> s in rows'
    requires forall s :: s in rows ==> s in fleet.sims && SlotAt(fleet, s, recipient, now) !in db.ledger
    ensures Plan(Candidates(fleet, db, recipient, now, rows), ranked, Sequential, now)
         == Plan(Candidates(fleet, db, recipient, now, rows'), ranked', Sequential, now)
  {
    var a := Candidates(fleet, db, recipient, now, rows);
    var b := Candidates(fleet, db, recipient, now, rows');
    forall c ensures c in a <==> c.sim in rows && c == ToCandidate(fleet, db, recipient, now, c.sim) {
      RowsGiveCandidates(fleet, db, recipient, now, rows, c);
    }
    forall c ensures c in b <==> c.sim in rows && c == ToCandidate(fleet, db, recipient, now, c.sim) {
      RowsGiveCandidates(fleet, db, recipient, now, rows', c);
    }
    forall x, y | x in a && y in a && CompareFillOrder(x, y) == 0 ensures x == y {
      FillOrderIsTotal(fleet, db, recipient, now, x.sim, y.sim, x.sim);
    }
    SameElementsSameSequentialPlan(a, b, ranked, ranked', now);
  }

  function Elements(rows: seq<SimId>): set<SimId> {
    set i | 0 <= i < |rows| :: rows[i]
  }

  lemma DistinctRowsCount(rows: seq<SimId>)
    requires forall i, j :: 0 <= i < j < |rows| ==> rows[i] != rows[j]
    ensures |Elements(rows)| == |rows|
  {
    if rows != [] {
      var n := |rows| - 1;
      DistinctRowsCount(rows[..n]);
      assert Elements(rows) == Elements(rows[..n]) + {rows[n]};
    }
  }

  lemma Enumerate(s: set<SimId>, n: nat) returns (rows: seq<SimId>)
    requires n <= |s|
    ensures |rows| == n
    ensures forall i :: 0 <= i < |rows| ==> rows[i] in s
    ensures forall i, j :: 0 <= i < j < |rows| ==> rows[i] != rows[j]
  {
    if n == 0 {
      rows := [];
    } else {
      var x :| x in s;
      var rest := Enumerate(s - {x}, n - 1);
      rows := rest + [x];
    }
  }

  /** Every fetch has a SIM of a wanted kind if and only if too few others are eligible to fill
      it without one. */
  lemma FetchSeesSomeIff(eligible: set<SimId>, wanted: set<SimId>)
    requires wanted <= eligible && wanted != {}
    ensures (forall rows :: IsFetch(eligible, rows) ==> exists s :: s in wanted && s in rows)
       <==> |eligible - wanted| < 50
  {
    assert |eligible| == |eligible - wanted| + |wanted| by { assert eligible == (eligible - wanted) + wanted; }
    if |eligible - wanted| < CANDIDATE_LIMIT {
      forall rows | IsFetch(eligible, rows) ensures exists s :: s in wanted && s in rows {
        DistinctRowsCount(rows);
        if forall s :: s in wanted ==> s !in rows {
          SubsetSize(Elements(rows), eligible - wanted);
        }
      }
    } else {
      var rows := Enumerate(eligible - wanted, CANDIDATE_LIMIT);
      assert IsFetch(eligible, rows);
    }
  }

  /** So it is sure to have one particular SIM as long as no more are eligible than it fetches. */
  lemma FetchSeesAllIff(eligible: set<SimId>, sim: SimId)
    requires sim in eligible
    ensures (forall rows :: IsFetch(eligible, rows) ==> sim in rows) <==> |eligible| <= 50
  {
    FetchSeesSomeIff(eligible, {sim});
    assert |eligible| == |eligible - {sim}| + 1;
    forall rows | IsFetch(eligible, rows) ensures sim in rows <==> exists s :: s in {sim} && s in rows {
      if sim in rows { assert sim in {sim}; }
    }
  }
}
