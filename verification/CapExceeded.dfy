/** How far past its cap a SIM may get: any number of leases run out, and the messages turn out to
    have been sent after all. */
module CapExceeded {
  import opened SmsTypes
  import opened MessageJob
  import opened RecipientAllowance
  import opened DeliveryState
  import opened SimPacing
  import opened SimProfileSelector
  import opened DeliveryProtocol
  import opened SampleFleet
  import opened SoleDispatch

  /** A number for each message. */
  function Number(m: MessageId): (recipient: Recipient)
    ensures |recipient| == m
  {
    seq(m, _ => '1')
  }

  function OnceTo(m: MessageId): Accepted {
    Asked(1).(recipient := Number(m))
  }

  /** The only attempt at `m` is given up, and nobody has reported on it. */
  ghost predicate LeaseRanOut(job: Job, m: MessageId) {
    && job.message.recipient == Number(m) && job.message.status.Failed? && !WasSent(job.message)
    && job.message.attempts == 1 && job.attempts.Keys == {1}
    && job.attempts[1].sim == 0 && job.attempts[1].gateway == 0
  }

  /** Each message gets a while of its own. */
  function Turn(m: MessageId): Instant {
    20.0 * m as real
  }

  // ---- leases run out -------------------------------------------------------------------------------

  /** So many messages were given out in turn, and every lease ran out. */
  ghost predicate AllRanOut(db: Db, n: nat) {
    && (forall m: MessageId :: m in db.jobs <==> m < n)
    && (forall m :: m in db.jobs ==> LeaseRanOut(db.jobs[m], m))
    && db.ledger == map[] && db.assignments == map[0 := Pool] && SimFree(db.pacing, 0, Turn(n))
  }

  lemma NextIsOpen(db: Db, n: nat)
    requires AllRanOut(db, n)
    ensures IsOpenTo(Capped(), SetJob(db, n, NewJob(OnceTo(n))), n, Turn(n), 0)
  {
    var jobs := SetJob(db, n, NewJob(OnceTo(n))).jobs;
    assert InFlightOn(jobs, 0) == {};
    assert UsedSlots(map[], 0, 0) == {};
  }

  lemma LeaseRunsOut(m: MessageId)
    ensures var given := Assign(NewJob(OnceTo(m)), 0, 0, Turn(m));
            LeaseExpired(given.message, Turn(m) + 10.0) && LeaseRanOut(ReclaimLease(given, Turn(m) + 10.0, 0.0), m)
  {
  }

  lemma NextRunsOut(db: Db, n: nat)
    requires AllRanOut(db, n)
    ensures var asked := SetJob(db, n, NewJob(OnceTo(n)));
            var given := GivenTo(Capped(), asked, n, Turn(n), 0);
            AllRanOut(SweepExpiredLease(Capped(), given, n, Turn(n) + 10.0, 0.0), n + 1)
  {
    hide ReclaimLease, Assign, LeaseRanOut, LeaseExpired;
    var given := GivenTo(Capped(), SetJob(db, n, NewJob(OnceTo(n))), n, Turn(n), 0);
    LeaseRunsOut(n);
    SlotIsReturned(db, n);
    assert Turn(n + 1) >= Turn(n) + 1.0;
  }

  lemma SlotIsReturned(db: Db, n: nat)
    requires AllRanOut(db, n)
    ensures var given := GivenTo(Capped(), SetJob(db, n, NewJob(OnceTo(n))), n, Turn(n), 0);
            ReturnedLedger(Capped(), given, n) == map[]
  {
  }

  lemma NextRound(db: Db, n: nat) returns (after: Db)
    requires AllRanOut(db, n) && Reachable(Capped(), db)
    ensures AllRanOut(after, n + 1) && Reachable(Capped(), after)
  {
    hide Capped, AllRanOut, Reachable, IsOpenTo, OnlyTo, GivenTo, DispatchOne, SweepExpiredLease, NewJob;
    var fleet, asked := Capped(), SetJob(db, n, NewJob(OnceTo(n)));
    NextIsOpen(db, n);
    StepReaches(fleet, db, Turn(n), Accept(n, OnceTo(n)));
    NotYetAsked(db, n);
    OnlySimIsTaken(fleet, asked, n, Turn(n), 0);
    StepReaches(fleet, asked, Turn(n), Dispatch(n, OnlyTo(fleet, asked, n, Turn(n), 0, true)));
    var given := GivenTo(fleet, asked, n, Turn(n), 0);
    StepReaches(fleet, given, Turn(n) + 10.0, SweepLease(n, 0.0));
    after := SweepExpiredLease(fleet, given, n, Turn(n) + 10.0, 0.0);
    NextRunsOut(db, n);
  }

  lemma NotYetAsked(db: Db, n: nat)
    requires AllRanOut(db, n)
    ensures n !in db.jobs && 0 in Capped().sims
  {
  }

  lemma {:induction false} AllRunOut(n: nat) returns (db: Db)
    ensures AllRanOut(db, n) && Reachable(Capped(), db)
    decreases n
  {
    hide Capped, Reachable;
    if n == 0 {
      EmptyIsReached(Capped());
      StepReaches(Capped(), EMPTY_DB, 0.0, AssignGateway(0, Pool));
      db := Step(Capped(), EMPTY_DB, 0.0, AssignGateway(0, Pool));
    } else {
      var before := AllRunOut(n - 1);
      db := NextRound(before, n - 1);
    }
  }

  // ---- and the messages were sent -------------------------------------------------------------------

  function SlotsBelow(n: nat): (slots: set<Slot>)
    ensures |slots| == n
    ensures forall slot :: slot in slots ==> slot.sim == 0 && slot.day == 0 && |slot.recipient| < n
  {
    if n == 0 then {} else SlotsBelow(n - 1) + {Slot(0, 0, Number(n - 1))}
  }

  /** Of `n` such messages, the first `sent` were reported sent. */
  ghost predicate ReportedSent(db: Db, n: nat, sent: nat) {
    && (forall m: MessageId :: m in db.jobs <==> m < n)
    && (forall m :: m in db.jobs && m >= sent ==> LeaseRanOut(db.jobs[m], m))
    && db.ledger.Keys == SlotsBelow(sent) && db.assignments == map[0 := Pool]
  }

  /** A success of an attempt that was given up writes its slot's row. */
  lemma LateSuccess(db: Db, m: MessageId, now: Instant)
    requires m in db.jobs && LeaseRanOut(db.jobs[m], m)
    ensures var after := Step(Capped(), db, now, SendResult(0, m, SentVerdict, 0.0));
            && after.jobs == db.jobs[m := EnsureSent(db.jobs[m], 1)] && after.assignments == db.assignments
            && after.ledger.Keys == db.ledger.Keys + {Slot(0, 0, Number(m))}
  {
    hide EnsureSent, CountAgainstDailyQuota;
    assert OwnedAttempt(db.jobs[m], 0) == Some(1);
  }

  lemma OneMoreSent(db: Db, n: nat, sent: nat)
    requires ReportedSent(db, n, sent) && sent < n
    ensures ReportedSent(Step(Capped(), db, Turn(n), SendResult(0, sent, SentVerdict, 0.0)), n, sent + 1)
  {
    hide EnsureSent, Step, LeaseRanOut, Capped;
    LateSuccess(db, sent, Turn(n));
  }

  lemma {:induction false} AllWereSent(n: nat, sent: nat) returns (db: Db)
    requires sent <= n
    ensures ReportedSent(db, n, sent) && Reachable(Capped(), db)
    decreases sent
  {
    hide Capped, Reachable, Step, LeaseRanOut;
    if sent == 0 {
      db := AllRunOut(n);
    } else {
      var before := AllWereSent(n, sent - 1);
      OneMoreSent(before, n, sent - 1);
      StepReaches(Capped(), before, Turn(n), SendResult(0, sent - 1, SentVerdict, 0.0));
      db := Step(Capped(), before, Turn(n), SendResult(0, sent - 1, SentVerdict, 0.0));
    }
  }

  /** A SIM that may take one number a day ends up with any number of them. */
  lemma CapIsExceededByAny(n: nat) returns (db: Db)
    ensures Reachable(Capped(), db) && 0 in Capped().sims && EffectiveLimit(Capped(), db, 0) == Some(1)
    ensures |UsedSlots(db.ledger, 0, 0)| == n
  {
    hide Reachable, LeaseRanOut;
    db := AllWereSent(n, n);
    assert UsedSlots(db.ledger, 0, 0) == SlotsBelow(n);
  }
}
