/** What holds in every state that any run of the protocol can lead to. */
module DeliveryTheorems {
  import opened SmsTypes
  import opened MessageJob
  import opened MessageLaws
  import opened RecipientAllowance
  import opened DeliveryState
  import opened DeliveryProtocol
  import opened LedgerCounts
  import opened ProtocolInvariant

  /** Ledger conservation: through late successes, duplicate reports, releases and re-created
      rows, `messages_sent` of a SIM, day and number is exactly how many attempts were sent
      there, started on that day, for messages to that number. */
  lemma LedgerConservation(fleet: Fleet, db: Db, slot: Slot)
    requires Reachable(fleet, db)
    ensures MessagesSent(db.ledger, slot)
         == |set m, k | m in db.jobs && k in db.jobs[m].attempts
                     && db.jobs[m].attempts[k].status.AttemptSent?
                     && db.jobs[m].attempts[k].sim == slot.sim
                     && fleet.billingDay(db.jobs[m].attempts[k].startedAt) == slot.day
                     && db.jobs[m].message.recipient == slot.recipient :: (m, k)|
  {
    hide JobInv, SlotsInv, InFlightInv, JobsInv;
    ReachableIsSound(fleet, db);
    var counted := set m, k | m in db.jobs && k in db.jobs[m].attempts
                           && db.jobs[m].attempts[k].status.AttemptSent?
                           && db.jobs[m].attempts[k].sim == slot.sim
                           && fleet.billingDay(db.jobs[m].attempts[k].startedAt) == slot.day
                           && db.jobs[m].message.recipient == slot.recipient :: (m, k);
    assert counted == SentAttempts(fleet, db.jobs, slot);
  }

  /** Slot protection: a message in flight has its row in the ledger, and no release made for
      another message takes it away. */
  lemma SlotProtection(fleet: Fleet, db: Db, m: MessageId, other: MessageId, released: Slot)
    requires Reachable(fleet, db) && m in db.jobs && InFlight(db.jobs[m].message.status)
    ensures var message := db.jobs[m].message;
            && message.sim.Some? && message.assignedAt.Some?
            && var slot := SlotAt(fleet, message.sim.value, message.recipient, message.assignedAt.value);
               && slot in db.ledger
               && (other != m ==> slot in Release(db.jobs, db.ledger, released, other))
  {
    hide LedgerInv, InFlightInv, AttemptsShape, KnownSims;
    ReachableIsSound(fleet, db);
    var job := db.jobs[m];
    assert JobInv(job) && HoldsSlot(fleet, job, db.ledger);
  }

  /** In-flight bound: with dispatches taken one at a time, a SIM never has more messages
      assigned or sending than its device may hold. */
  lemma InFlightBound(fleet: Fleet, db: Db, sim: SimId)
    requires Reachable(fleet, db) && sim in fleet.sims
    ensures |set m | m in db.jobs && (db.jobs[m].message.status.Assigned? || db.jobs[m].message.status.Sending?)
                  && db.jobs[m].message.sim == Some(sim)| <= fleet.sims[sim].maxInFlight
  {
    hide LedgerInv, SlotsInv, JobsInv;
    ReachableIsSound(fleet, db);
    assert (set m | m in db.jobs && (db.jobs[m].message.status.Assigned? || db.jobs[m].message.status.Sending?)
                  && db.jobs[m].message.sim == Some(sim)) == InFlightOn(db.jobs, sim);
  }

  /** Attempt history: numbered exactly 1..attempts, on pairwise different SIMs, never more
      than allowed; only the last can be live, and what is in flight agrees with it; a queued
      message can still be tried. */
  lemma AttemptHistory(fleet: Fleet, db: Db, m: MessageId, i: nat, j: nat)
    requires Reachable(fleet, db) && m in db.jobs
    ensures var message, attempts := db.jobs[m].message, db.jobs[m].attempts;
            && (i in attempts <==> 1 <= i <= message.attempts)
            && (i in attempts && j in attempts && attempts[i].sim == attempts[j].sim ==> i == j)
            && (i in attempts && Live(attempts[i].status) ==> i == message.attempts)
            && message.attempts <= message.maxAttempts
            && (message.status.Queued? ==> message.attempts < message.maxAttempts)
            && (InFlight(message.status) ==>
                  && message.attempts in attempts && Live(attempts[message.attempts].status)
                  && message.sim == Some(attempts[message.attempts].sim)
                  && message.assignedAt == Some(attempts[message.attempts].startedAt))
            && (i in attempts ==>
                  attempts[i].sim in fleet.sims && attempts[i].gateway == fleet.sims[attempts[i].sim].gateway)
  {
    hide LedgerInv, SlotsInv, InFlightInv, HasSent;
    ReachableIsSound(fleet, db);
    assert JobInv(db.jobs[m]) && KnownSims(fleet, db.jobs[m]);
  }
}
