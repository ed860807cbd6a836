/** What the query's limit costs: in a device with more SIMs than the query returns, a run may come
    to a dispatch that opens a slot past an earlier SIM that has room, and even past one that holds
    the number. */
module FetchLimit {
  import opened SmsTypes
  import opened MessageJob
  import opened RecipientAllowance
  import opened DeliveryState
  import opened SimProfileSelector
  import opened DeliveryProtocol
  import opened SequentialFill
  import opened SampleFleet
  import opened SoleDispatch

  const RECIPIENT := Asked(1).recipient

  /** The message to be dispatched, and when. */
  function Next(held: bool): MessageId {
    if held then 1 else 0
  }

  const LATER: Instant := 1.0

  /** Of two messages to one number, the first was given to the first SIM and reported sent. */
  function FirstSent(n: nat): Db
    requires n > 0
  {
    RecordSuccess(Device(n), GivenTo(Device(n), TwoWaiting(), 0, 0.0, 0), 0, 1, 0.0)
  }

  /** One message is queued; if `held`, the first SIM already holds its number today. */
  function Waiting(n: nat, held: bool): Db
    requires n > 0
  {
    if held then FirstSent(n) else OneWaiting(1)
  }

  /** The message waits, nothing is in flight, no window is taken any more by then, and the only
      slot there may be is the first SIM's. */
  ghost predicate Waits(db: Db, held: bool) {
    && Next(held) in db.jobs && db.jobs[Next(held)] == NewJob(Asked(1))
    && (forall m :: m in db.jobs ==> !InFlight(db.jobs[m].message.status))
    && db.ledger.Keys == (if held then {Slot(0, 0, RECIPIENT)} else {})
    && db.assignments == map[0 := Pool]
    && (forall s :: s in db.pacing.sims ==> db.pacing.sims[s] <= LATER)
  }

  lemma FirstIsGiven(n: nat)
    requires n > 0
    ensures var given := GivenTo(Device(n), TwoWaiting(), 0, 0.0, 0);
            && given.jobs == map[0 := Assign(NewJob(Asked(1)), 0, 0, 0.0), 1 := NewJob(Asked(1))]
            && given.ledger == map[Slot(0, 0, RECIPIENT) := 0] && given.assignments == map[0 := Pool]
            && given.pacing.sims == map[0 := LATER]
  {
    hide Assign;
  }

  /** A success of the one attempt at a message in flight gives no slot back. */
  lemma FirstSucceeds(fleet: Fleet, db: Db)
    requires 0 in db.jobs && db.jobs[0] == Assign(NewJob(Asked(1)), 0, 0, 0.0) && fleet.billingDay(0.0) == 0
    ensures var after := RecordSuccess(fleet, db, 0, 1, 0.0);
            && after.jobs == db.jobs[0 := after.jobs[0]] && !InFlight(after.jobs[0].message.status)
            && after.ledger.Keys == db.ledger.Keys + {Slot(0, 0, RECIPIENT)}
            && after.assignments == db.assignments && after.pacing == db.pacing
  {
  }

  lemma WaitingWaits(n: nat, held: bool)
    requires n > 0
    ensures Waits(Waiting(n, held), held)
  {
    if held {
      hide RecordSuccess, GivenTo;
      FirstIsGiven(n);
      FirstSucceeds(Device(n), GivenTo(Device(n), TwoWaiting(), 0, 0.0, 0));
    }
  }

  lemma FirstIsOpen(n: nat)
    requires n > 0
    ensures IsOpenTo(Device(n), TwoWaiting(), 0, 0.0, 0)
  {
    assert InFlightOn(TwoWaiting().jobs, 0) == {};
  }

  lemma FirstReports(n: nat)
    requires n > 0
    ensures Step(Device(n), GivenTo(Device(n), TwoWaiting(), 0, 0.0, 0), 0.0, SendResult(0, 0, SentVerdict, 0.0))
         == FirstSent(n)
  {
    hide RecordSuccess;
  }

  lemma WaitingIsReached(n: nat, held: bool)
    requires n > 0
    ensures Reachable(Device(n), Waiting(n, held))
  {
    hide Reachable, Device, FirstSent, OnlyTo, IsOpenTo, GivenTo, DispatchOne, RecordResult;
    var fleet := Device(n);
    OneWaitingIsReached(fleet, 1);
    TwoWaitingAreReached(fleet);
    FirstIsOpen(n);
    assert 0 in fleet.sims by { SimIsInDevice(n, 0); }
    OnlySimIsTaken(fleet, TwoWaiting(), 0, 0.0, 0);
    StepReaches(fleet, TwoWaiting(), 0.0, Dispatch(0, OnlyTo(fleet, TwoWaiting(), 0, 0.0, 0, true)));
    StepReaches(fleet, GivenTo(fleet, TwoWaiting(), 0, 0.0, 0), 0.0, SendResult(0, 0, SentVerdict, 0.0));
    FirstReports(n);
  }

  /** `n` rows that leave out the first SIM. */
  function RowsAfterFirst(n: nat): (rows: seq<SimId>)
    ensures |rows| == n && forall i :: 0 <= i < n ==> rows[i] == i + 1
  {
    if n == 0 then [] else RowsAfterFirst(n - 1) + [n]
  }

  function Fetched(n: nat, held: bool): (cs: seq<Candidate>)
    requires n > CANDIDATE_LIMIT
    ensures |cs| == CANDIDATE_LIMIT
    ensures forall i :: 0 <= i < |cs| ==> cs[i] == ToCandidate(Device(n), Waiting(n, held), RECIPIENT, LATER, i + 1)
  {
    Candidates(Device(n), Waiting(n, held), RECIPIENT, LATER, RowsAfterFirst(CANDIDATE_LIMIT))
  }

  function Overlooking(n: nat, held: bool): Choice
    requires n > CANDIDATE_LIMIT
  {
    Choice(FirstSims(n), RowsAfterFirst(CANDIDATE_LIMIT), Shortlist(Fetched(n, held)), 0.0, true)
  }

  lemma AllAreEligible(n: nat, held: bool)
    requires n > 0
    ensures Eligible(Device(n), Waiting(n, held), NewJob(Asked(1)), FirstSims(n), 0) == FirstSims(n)
  {
    hide Waiting;
    WaitingWaits(n, held);
    forall s | s in FirstSims(n) ensures IsEligible(Device(n), Waiting(n, held), NewJob(Asked(1)), FirstSims(n), 0, s) {
    }
  }

  lemma CandidatesAreFree(n: nat, held: bool, sim: SimId)
    requires 1 <= sim < n
    ensures ToCandidate(Device(n), Waiting(n, held), RECIPIENT, LATER, sim)
         == Candidate(sim, 0, sim, 0, true, Some(LATER), false, None, 0)
  {
    hide Waiting;
    WaitingWaits(n, held);
    assert InFlightOn(Waiting(n, held).jobs, sim) == {};
    assert UsedSlots(Waiting(n, held).ledger, sim, 0) == {};
  }

  /** The second SIM is the first in fleet order of those the query returned. */
  lemma PlanOverlooksFirst(n: nat, held: bool)
    requires n > CANDIDATE_LIMIT
    ensures Holders(Fetched(n, held)) == [] && Shortlist(Fetched(n, held)) == WithAllowance(Fetched(n, held))
    ensures Plan(Fetched(n, held), Shortlist(Fetched(n, held)), Sequential, LATER) == Try([Fetched(n, held)[0]])
    ensures Fetched(n, held)[0].sim == 1
  {
    hide ToCandidate, Fetched;
    var cs := Fetched(n, held);
    forall i | 0 <= i < |cs| ensures cs[i] == Candidate(i + 1, 0, i + 1, 0, true, Some(LATER), false, None, 0) {
      CandidatesAreFree(n, held, i + 1);
    }
    forall c | c in cs ensures c == Candidate(c.slot, 0, c.slot, 0, true, Some(LATER), false, None, 0) && c.slot >= 1 {
      var i :| 0 <= i < |cs| && cs[i] == c;
    }
    assert cs[0] in cs && cs[0] in WithAllowance(cs);
    var target := FirstInFleetOrder(WithAllowance(cs));
    assert target in cs && CompareFillOrder(target, cs[0]) <= 0;
    assert target == cs[0];
    assert [target][1..] == [];
  }

  lemma FetchIsPossible(n: nat)
    requires n > CANDIDATE_LIMIT
    ensures IsFetch(FirstSims(n), RowsAfterFirst(CANDIDATE_LIMIT))
  {
    hide FirstSims, RowsAfterFirst;
  }

  lemma FetchedAreInFleet(n: nat, held: bool, c: Candidate)
    requires n > CANDIDATE_LIMIT && c in Shortlist(Fetched(n, held))
    ensures c.sim in Device(n).sims
  {
    hide ToCandidate, Fetched, Shortlist, Device;
    var cs := Fetched(n, held);
    ShortlistIsPart(cs, c);
    var i :| 0 <= i < |cs| && cs[i] == c;
    CandidatesAreFree(n, held, i + 1);
    SimIsInDevice(n, i + 1);
  }

  lemma ShortlistIsPart(cs: seq<Candidate>, c: Candidate)
    requires c in Shortlist(cs)
    ensures c in cs
  {
    hide Filter;
  }

  lemma SimIsInDevice(n: nat, sim: SimId)
    ensures sim in Device(n).sims <==> sim < n
  {
  }

  lemma ChoiceIsPossible(n: nat, held: bool)
    requires n > CANDIDATE_LIMIT
    ensures IsChoice(Device(n), Waiting(n, held), NewJob(Asked(1)), LATER, Overlooking(n, held))
  {
    hide ToCandidate, Eligible, Filter, Plan, IsFetch, FirstSims, Shortlist;
    AllAreEligible(n, held);
    FetchIsPossible(n);
    forall c | c in Shortlist(Fetched(n, held)) ensures c.sim in Device(n).sims {
      FetchedAreInFleet(n, held, c);
    }
  }

  lemma RouteIsToSecond(n: nat, held: bool)
    requires n > CANDIDATE_LIMIT
    ensures IsChoice(Device(n), Waiting(n, held), NewJob(Asked(1)), LATER, Overlooking(n, held))
    ensures var d := PickRoute(Device(n), Waiting(n, held), NewJob(Asked(1)), LATER, Overlooking(n, held));
            d.Take? && d.route.sim == 1 && Slot(1, 0, RECIPIENT) in d.route.ledger
  {
    hide IsChoice, Walk, Plan, ToCandidate;
    ChoiceIsPossible(n, held);
    PlanOverlooksFirst(n, held);
    FirstIsFree(n, held);
  }

  lemma FirstIsFree(n: nat, held: bool)
    requires n > CANDIDATE_LIMIT
    ensures AreFleetSims(Device(n), [Fetched(n, held)[0]])
    ensures var db, cs := Waiting(n, held), [Fetched(n, held)[0]];
            var route := Walk(Device(n), db.pacing, db.ledger, RECIPIENT, LATER, cs);
            route.Routed? && route.sim == 1 && Slot(1, 0, RECIPIENT) in route.ledger
  {
    hide Waiting;
    WaitingWaits(n, held);
    CandidatesAreFree(n, held, 1);
  }

  lemma DispatchTakesSecond(n: nat, held: bool)
    requires n > CANDIDATE_LIMIT
    ensures var after := DispatchOne(Device(n), Waiting(n, held), Next(held), LATER, Overlooking(n, held));
            Slot(1, 0, RECIPIENT) in after.ledger
  {
    WaitingWaits(n, held);
    hide Waiting, IsChoice, PickRoute, Assign, Overlooking;
    RouteIsToSecond(n, held);
    assert Overlooking(n, held).delivered by { DeviceIsThere(n, held); }
  }

  lemma DeviceIsThere(n: nat, held: bool)
    requires n > CANDIDATE_LIMIT
    ensures Overlooking(n, held).delivered && Overlooking(n, held).usable == FirstSims(n)
  {
  }

  /** For every fleet size beyond the limit, some run leads to a state in which the first SIM has
      room, or even holds the number, and the dispatch opens a slot for that number on the
      second. */
  lemma SlotOpensPastFirst(n: nat, held: bool)
    requires n > CANDIDATE_LIMIT
    ensures Reachable(Device(n), Waiting(n, held)) && Next(held) in Waiting(n, held).jobs
    ensures var db, message := Waiting(n, held), Next(held);
            && 0 in Eligible(Device(n), db, db.jobs[message], Overlooking(n, held).usable, 0)
            && (0 in Device(n).sims && 1 in Device(n).sims)
            && Precedes(Device(n), 0, 1) && !IsFull(Device(n), db, 0, 0)
            && (held <==> SlotAt(Device(n), 0, db.jobs[message].message.recipient, LATER) in db.ledger)
            && OpensSlot(Device(n), db, message, LATER, Overlooking(n, held), 1)
  {
    hide DispatchOne, Eligible, Overlooking, Run, Waiting;
    WaitingIsReached(n, held);
    WaitingWaits(n, held);
    AllAreEligible(n, held);
    DeviceIsThere(n, held);
    DispatchTakesSecond(n, held);
  }
}
