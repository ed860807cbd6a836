/** What holds in every state that any run of the protocol leads to. */
module ProtocolInvariant {
  import opened SmsTypes
  import opened RetryPolicy
  import opened MessageJob
  import opened MessageLaws
  import opened RecipientAllowance
  import opened DeliveryState
  import opened SimPacing
  import opened SimProfileSelector
  import opened DeliveryProtocol
  import opened LedgerCounts

  /** Attempts name SIMs of the fleet, with their own device. */
  ghost predicate KnownSims(fleet: Fleet, job: Job) {
    forall k :: k in job.attempts ==>
                  && job.attempts[k].sim in fleet.sims
                  && job.attempts[k].gateway == fleet.sims[job.attempts[k].sim].gateway
  }

  ghost predicate JobsInv(fleet: Fleet, db: Db) {
    forall m :: m in db.jobs ==> JobInv(db.jobs[m]) && KnownSims(fleet, db.jobs[m])
  }

  /** Ledger conservation: `messages_sent` counts exactly the attempts sent on that slot. */
  ghost predicate LedgerInv(fleet: Fleet, db: Db) {
    forall slot :: MessagesSent(db.ledger, slot) == |SentAttempts(fleet, db.jobs, slot)|
  }

  /** The slot a message in flight was given. */
  function HeldSlot(fleet: Fleet, job: Job): Slot
    requires job.message.attempts in job.attempts
  {
    AttemptSlot(fleet, job, job.message.attempts)
  }

  ghost predicate HoldsSlot(fleet: Fleet, job: Job, ledger: Ledger) {
    InFlight(job.message.status) ==> job.message.attempts in job.attempts && HeldSlot(fleet, job) in ledger
  }

  /** Slot protection: whatever is in flight still has its row in the ledger. */
  ghost predicate SlotsInv(fleet: Fleet, db: Db) {
    forall m :: m in db.jobs ==> HoldsSlot(fleet, db.jobs[m], db.ledger)
  }

  /** No SIM has more messages in flight than its device may hold. */
  ghost predicate InFlightInv(fleet: Fleet, db: Db) {
    forall sim :: sim in fleet.sims ==> |InFlightOn(db.jobs, sim)| <= fleet.sims[sim].maxInFlight
  }

  ghost predicate Inv(fleet: Fleet, db: Db) {
    && JobsInv(fleet, db)
    && LedgerInv(fleet, db)
    && SlotsInv(fleet, db)
    && InFlightInv(fleet, db)
  }

  // ---- one message replaced -----------------------------------------------------------

  ghost predicate Replaces(db: Db, after: Db, m: MessageId) {
    m in db.jobs && m in after.jobs && after.jobs == db.jobs[m := after.jobs[m]]
  }

  ghost predicate LedgerShift(fleet: Fleet, db: Db, after: Db, was: Job, now: Job) {
    forall slot :: MessagesSent(after.ledger, slot) - MessagesSent(db.ledger, slot)
                == |SentKeys(fleet, now, slot)| - |SentKeys(fleet, was, slot)|
  }

  ghost predicate OthersHold(fleet: Fleet, jobs: Jobs, ledger: Ledger, m: MessageId) {
    forall o :: o in jobs && o != m ==> HoldsSlot(fleet, jobs[o], ledger)
  }

  ghost predicate HasRoomInFlight(fleet: Fleet, jobs: Jobs, sim: SimId) {
    sim in fleet.sims ==> |InFlightOn(jobs, sim)| < fleet.sims[sim].maxInFlight
  }

  /** The message is not newly in flight, or its SIM had room for one more. */
  ghost predicate RoomKept(fleet: Fleet, jobs: Jobs, was: Message, now: Message) {
    InFlight(now.status) ==>
      || (InFlight(was.status) && was.sim == now.sim)
      || (now.sim.Some? && HasRoomInFlight(fleet, jobs, now.sim.value))
  }

  lemma LedgerShiftKeepsLedger(fleet: Fleet, db: Db, after: Db, m: MessageId)
    requires Replaces(db, after, m) && LedgerInv(fleet, db)
    requires LedgerShift(fleet, db, after, db.jobs[m], after.jobs[m])
    ensures LedgerInv(fleet, after)
  {
    hide SentAttempts, SentKeys;
    forall slot ensures MessagesSent(after.ledger, slot) == |SentAttempts(fleet, after.jobs, slot)| {
      ReplacingShiftsCount(fleet, db.jobs, m, after.jobs[m], slot);
    }
  }

  lemma RoomKeptKeepsInFlight(fleet: Fleet, db: Db, after: Db, m: MessageId)
    requires Replaces(db, after, m) && InFlightInv(fleet, db)
    requires RoomKept(fleet, db.jobs, db.jobs[m].message, after.jobs[m].message)
    ensures InFlightInv(fleet, after)
  {
    forall sim | sim in fleet.sims
      ensures |InFlightOn(after.jobs, sim)| <= fleet.sims[sim].maxInFlight
    {
      InFlightAfterReplacing(db.jobs, m, after.jobs[m], sim);
    }
  }

  lemma SoundJobKeepsJobs(fleet: Fleet, db: Db, after: Db, m: MessageId)
    requires Replaces(db, after, m) && JobsInv(fleet, db)
    requires JobInv(after.jobs[m]) && KnownSims(fleet, after.jobs[m])
    ensures JobsInv(fleet, after)
  {
    hide JobInv, KnownSims;
    forall o | o in after.jobs ensures JobInv(after.jobs[o]) && KnownSims(fleet, after.jobs[o]) {
      if o != m { assert o in db.jobs && after.jobs[o] == db.jobs[o]; }
    }
  }

  lemma HeldSlotsKeepSlots(fleet: Fleet, db: Db, after: Db, m: MessageId)
    requires Replaces(db, after, m)
    requires HoldsSlot(fleet, after.jobs[m], after.ledger) && OthersHold(fleet, db.jobs, after.ledger, m)
    ensures SlotsInv(fleet, after)
  {
    hide HoldsSlot;
    forall o | o in after.jobs ensures HoldsSlot(fleet, after.jobs[o], after.ledger) {
      if o != m { assert o in db.jobs && after.jobs[o] == db.jobs[o]; }
    }
  }

  /** What a transaction on one message has to keep for the whole state to stay sound. */
  lemma SoundChangeKeepsInv(fleet: Fleet, db: Db, after: Db, m: MessageId)
    requires Inv(fleet, db) && Replaces(db, after, m)
    requires JobInv(after.jobs[m]) && KnownSims(fleet, after.jobs[m])
    requires LedgerShift(fleet, db, after, db.jobs[m], after.jobs[m])
    requires HoldsSlot(fleet, after.jobs[m], after.ledger) && OthersHold(fleet, db.jobs, after.ledger, m)
    requires RoomKept(fleet, db.jobs, db.jobs[m].message, after.jobs[m].message)
    ensures Inv(fleet, after)
  {
    hide JobsInv, LedgerInv, SlotsInv, InFlightInv, JobInv, KnownSims, LedgerShift, HoldsSlot, OthersHold, RoomKept;
    LedgerShiftKeepsLedger(fleet, db, after, m);
    RoomKeptKeepsInFlight(fleet, db, after, m);
    SoundJobKeepsJobs(fleet, db, after, m);
    HeldSlotsKeepSlots(fleet, db, after, m);
  }

  lemma InFlightAfterReplacing(jobs: Jobs, m: MessageId, job: Job, sim: SimId)
    requires m in jobs
    ensures var was, now := InFlightOn(jobs, sim), InFlightOn(jobs[m := job], sim);
            && |now| <= |was| + 1
            && (|now| <= |was| || (InFlight(job.message.status) && job.message.sim == Some(sim) && m !in was))
  {
    var was, now := InFlightOn(jobs, sim), InFlightOn(jobs[m := job], sim);
    if InFlight(job.message.status) && job.message.sim == Some(sim) {
      assert now == was + {m};
    } else {
      assert now == was - {m};
    }
  }

  // ---- releasing a slot -----------------------------------------------------------------

  /** A release never frees a slot that another message in flight still needs. */
  lemma ReleaseSparesOthers(fleet: Fleet, db: Db, slot: Slot, m: MessageId, o: MessageId)
    requires JobsInv(fleet, db) && SlotsInv(fleet, db)
    requires o in db.jobs && o != m
    ensures HoldsSlot(fleet, db.jobs[o], Release(db.jobs, db.ledger, slot, m))
  {
    hide KnownSims, AttemptsShape;
    var job := db.jobs[o];
    if InFlight(job.message.status) && HeldSlot(fleet, job) == slot {
      assert HeldByOther(db.jobs, slot, m);
    }
  }

  ghost predicate SameSent(was: Job, now: Job) {
    && (forall k :: k in now.attempts && now.attempts[k].status.AttemptSent? ==>
          k in was.attempts && was.attempts[k] == now.attempts[k])
    && (forall k :: k in was.attempts && was.attempts[k].status.AttemptSent? ==>
          k in now.attempts && was.attempts[k] == now.attempts[k])
  }

  lemma SameSentKeys(fleet: Fleet, was: Job, now: Job, slot: Slot)
    requires was.message.recipient == now.message.recipient && SameSent(was, now)
    ensures SentKeys(fleet, was, slot) == SentKeys(fleet, now, slot)
  {
  }

  ghost predicate SoundJob(fleet: Fleet, job: Job) {
    JobInv(job) && KnownSims(fleet, job)
  }

  /** A change that sends nothing and takes the message nowhere new. */
  ghost predicate QuietJob(fleet: Fleet, was: Job, now: Job) {
    && SoundJob(fleet, now)
    && was.message.recipient == now.message.recipient
    && SameSent(was, now)
    && (InFlight(now.message.status) ==>
          && InFlight(was.message.status) && was.message.sim == now.message.sim
          && was.message.attempts == now.message.attempts
          && was.message.attempts in was.attempts && now.message.attempts in now.attempts
          && HeldSlot(fleet, was) == HeldSlot(fleet, now))
  }

  /** A quiet transaction that releases at most one slot, and none while its own message is
      in flight. */
  lemma QuietChange(fleet: Fleet, db: Db, after: Db, m: MessageId, released: Slot)
    requires Inv(fleet, db) && Replaces(db, after, m) && QuietJob(fleet, db.jobs[m], after.jobs[m])
    requires || after.ledger == db.ledger
             || (after.ledger == Release(db.jobs, db.ledger, released, m) && !InFlight(after.jobs[m].message.status))
    ensures Inv(fleet, after)
  {
    hide LedgerInv, InFlightInv, JobInv, KnownSims, SentKeys, SameSent;
    forall slot ensures SentKeys(fleet, db.jobs[m], slot) == SentKeys(fleet, after.jobs[m], slot) {
      SameSentKeys(fleet, db.jobs[m], after.jobs[m], slot);
    }
    forall o | o in db.jobs && o != m ensures HoldsSlot(fleet, db.jobs[o], after.ledger) {
      ReleaseSparesOthers(fleet, db, released, m, o);
    }
    SoundChangeKeepsInv(fleet, db, after, m);
  }

  // ---- each transaction -------------------------------------------------------------------

  lemma SuccessIsSound(fleet: Fleet, job: Job, k: nat)
    requires SoundJob(fleet, job) && k in job.attempts && CountsSend(job, k)
    ensures var sent := EnsureSent(job, k);
            && SoundJob(fleet, sent) && !InFlight(sent.message.status)
            && HasSent(sent) && WasSent(sent.message)
            && forall slot :: |SentKeys(fleet, sent, slot)|
                              == |SentKeys(fleet, job, slot)| + if AttemptSlot(fleet, job, k) == slot then 1 else 0
  {
    var sent := EnsureSent(job, k);
    EnsureSentIsLawful(job, k);
    assert !job.attempts[k].status.AttemptSent?;
    forall slot ensures |SentKeys(fleet, sent, slot)|
                     == |SentKeys(fleet, job, slot)| + if AttemptSlot(fleet, job, k) == slot then 1 else 0 {
      SentOneMore(fleet, job, sent, k, slot);
    }
  }

  lemma SupersededKeeps(fleet: Fleet, db: Db, m: MessageId, k: nat)
    requires JobsInv(fleet, db) && SlotsInv(fleet, db)
    requires m in db.jobs && k in db.jobs[m].attempts
    ensures forall slot :: MessagesSent(SupersededLedger(fleet, db, m, k), slot) == MessagesSent(db.ledger, slot)
    ensures OthersHold(fleet, db.jobs, SupersededLedger(fleet, db, m, k), m)
  {
    hide JobInv, KnownSims, HoldsSlot;
    var job := db.jobs[m];
    if !WasSent(job.message) && CallsOffCurrent(job, k) {
      forall o | o in db.jobs && o != m ensures HoldsSlot(fleet, db.jobs[o], SupersededLedger(fleet, db, m, k)) {
        ReleaseSparesOthers(fleet, db, AttemptSlot(fleet, job, job.message.attempts), m, o);
      }
    }
  }

  lemma SuccessKeepsInv(fleet: Fleet, db: Db, m: MessageId, k: nat, now: Instant)
    requires Inv(fleet, db) && m in db.jobs && k in db.jobs[m].attempts
    ensures Inv(fleet, RecordSuccess(fleet, db, m, k, now))
  {
    hide JobInv, SentAttempts, SentKeys, KnownSims, HasSent, EnsureSent, SupersededLedger;
    if CountsSend(db.jobs[m], k) {
      var after := RecordSuccess(fleet, db, m, k, now);
      SuccessIsSound(fleet, db.jobs[m], k);
      SupersededKeeps(fleet, db, m, k);
      assert after.jobs[m] == EnsureSent(db.jobs[m], k);
      SoundChangeKeepsInv(fleet, db, after, m);
    }
  }

  lemma SentOneMore(fleet: Fleet, was: Job, now: Job, k: nat, slot: Slot)
    requires was.message.recipient == now.message.recipient
    requires k in was.attempts && !was.attempts[k].status.AttemptSent?
    requires now.attempts.Keys == was.attempts.Keys
    requires now.attempts[k] == was.attempts[k].(status := AttemptSent, error := None)
    requires forall j :: j in was.attempts && j != k
                         && (was.attempts[j].status.AttemptSent? || now.attempts[j].status.AttemptSent?) ==>
                           now.attempts[j] == was.attempts[j]
    ensures |SentKeys(fleet, now, slot)|
         == |SentKeys(fleet, was, slot)| + if AttemptSlot(fleet, was, k) == slot then 1 else 0
  {
    var before, after := SentKeys(fleet, was, slot), SentKeys(fleet, now, slot);
    if AttemptSlot(fleet, was, k) == slot {
      assert after == before + {k};
    } else {
      assert after == before;
    }
  }

  // Each quiet transition, seen from one message.

  lemma ClosingIsQuiet(fleet: Fleet, job: Job, settled: AttemptStatus, code: ErrorCode)
    requires SoundJob(fleet, job) && InFlight(job.message.status) && !settled.AttemptSent?
    ensures var put := PutCurrentAttempt(job, settled, Some(code));
            KnownSims(fleet, put) && SameSent(job, put) && put.message == job.message
  {
    hide HasSent, LeaseIsHeld;
  }

  lemma SameAttemptsStayQuiet(fleet: Fleet, was: Job, a: Job, b: Job)
    requires KnownSims(fleet, a) && SameSent(was, a) && a.attempts == b.attempts
    ensures KnownSims(fleet, b) && SameSent(was, b)
  {
  }

  lemma RetryLeavesAttempts(job: Job, code: ErrorCode, now: Instant, random: Random)
    ensures var failed := RetryOrFail(job, code, now, random);
            && failed.attempts == job.attempts && failed.message.recipient == job.message.recipient
            && !InFlight(failed.message.status)
  {
  }

  lemma FailureIsQuiet(fleet: Fleet, job: Job, settled: AttemptStatus, code: ErrorCode, now: Instant, random: Random)
    requires SoundJob(fleet, job) && InFlight(job.message.status)
    requires settled.AttemptFailed? || settled.AttemptTimedOut?
    ensures var failed := RetryOrFail(PutCurrentAttempt(job, settled, Some(code)), code, now, random);
            QuietJob(fleet, job, failed) && !InFlight(failed.message.status)
  {
    hide RetryOrFail, PutCurrentAttempt, JobInv, Progress, SameSent, KnownSims;
    var put := PutCurrentAttempt(job, settled, Some(code));
    RetryOrFailIsLawful(job, settled, code, now, random);
    ClosingIsQuiet(fleet, job, settled, code);
    RetryLeavesAttempts(put, code, now, random);
    SameAttemptsStayQuiet(fleet, job, put, RetryOrFail(put, code, now, random));
  }

  lemma LateFailureIsQuiet(fleet: Fleet, job: Job, k: nat, code: ReportedCode)
    requires SoundJob(fleet, job) && k in job.attempts && !IsCurrent(job, k)
    ensures QuietJob(fleet, job, ApplyLateFailure(job, k, code))
  {
    LateFailureIsLawful(job, k, code);
  }

  lemma SettleIsQuiet(fleet: Fleet, job: Job, delivered: bool)
    requires SoundJob(fleet, job) && HasSent(job) && !ReportIsKnown(job.message, delivered)
    ensures QuietJob(fleet, job, Settle(job, delivered))
  {
    SettleIsLawful(job, delivered);
  }

  lemma AcknowledgeIsQuiet(fleet: Fleet, job: Job, k: nat, now: Instant)
    requires SoundJob(fleet, job) && k in job.attempts && IsCurrent(job, k) && job.message.status.Assigned?
    ensures QuietJob(fleet, job, Acknowledge(job, now))
  {
    AcknowledgeIsLawful(job, k, now);
  }

  lemma EndIsQuiet(fleet: Fleet, job: Job)
    requires SoundJob(fleet, job) && IsCancellable(job.message.status)
    ensures QuietJob(fleet, job, Cancel(job))
    ensures IsWaiting(job.message.status) ==>
              && QuietJob(fleet, job, Expire(job)) && QuietJob(fleet, job, FailStranded(job))
              && QuietJob(fleet, job, MarkExpired(job)) && QuietJob(fleet, job, MarkUndeliverable(job))
  {
    CancelIsLawful(job);
    if IsWaiting(job.message.status) {
      WaitingEndIsLawful(job);
      DispatchEndIsLawful(job);
    }
  }

  lemma DeferIsQuiet(fleet: Fleet, job: Job, until: Instant, reason: DeferReason)
    requires SoundJob(fleet, job) && job.message.status.Queued?
    ensures QuietJob(fleet, job, Defer(job, until, reason))
  {
    DeferIsLawful(job, until, reason);
  }

  lemma ResultKeepsInv(fleet: Fleet, db: Db, g: GatewayId, m: MessageId, verdict: Verdict, now: Instant, random: Random)
    requires Inv(fleet, db)
    ensures Inv(fleet, RecordResult(fleet, db, g, m, verdict, now, random))
  {
    var owned := AttemptOf(db, g, m);
    if owned.Some? {
      if verdict.SentVerdict? {
        SuccessKeepsInv(fleet, db, m, owned.value, now);
      } else {
        FailureKeepsInv(fleet, db, m, owned.value, verdict.code, now, random);
      }
    }
  }

  lemma FailureKeepsInv(fleet: Fleet, db: Db, m: MessageId, k: nat, code: ReportedCode, now: Instant, random: Random)
    requires Inv(fleet, db) && m in db.jobs && k in db.jobs[m].attempts
    ensures Inv(fleet, RecordFailure(fleet, db, m, k, code, now, random))
  {
    hide LedgerInv, SlotsInv, InFlightInv, QuietJob, JobInv, KnownSims, RetryOrFail, ApplyLateFailure;
    var job := db.jobs[m];
    if IsCurrent(job, k) {
      FailureIsQuiet(fleet, job, AttemptFailed, NormalizeErrorCode(code), now, random);
    } else {
      LateFailureIsQuiet(fleet, job, k, code);
    }
    QuietChange(fleet, db, RecordFailure(fleet, db, m, k, code, now, random), m, OwnSlot(fleet, job));
  }

  /** The slot `retryOrFail` would hand back; any slot at all when it would hand back none. */
  function OwnSlot(fleet: Fleet, job: Job): Slot {
    if job.message.sim.Some? && job.message.assignedAt.Some?
    then SlotAt(fleet, job.message.sim.value, job.message.recipient, job.message.assignedAt.value)
    else Slot(0, 0, "")
  }

  lemma DeliveredKeepsInv(fleet: Fleet, db: Db, g: GatewayId, m: MessageId, delivered: bool, now: Instant)
    requires Inv(fleet, db)
    ensures Inv(fleet, RecordDelivered(fleet, db, g, m, delivered, now))
  {
    hide LedgerInv, SlotsInv, InFlightInv, QuietJob, JobInv, KnownSims, HasSent, Settle;
    var owned := AttemptOf(db, g, m);
    if owned.Some? && !ReportIsKnown(db.jobs[m].message, delivered) {
      var sent := RecordSuccess(fleet, db, m, owned.value, now);
      SuccessKeepsInv(fleet, db, m, owned.value, now);
      SuccessSettles(fleet, db, m, owned.value, now, delivered);
      SettleIsQuiet(fleet, sent.jobs[m], delivered);
      QuietChange(fleet, sent, RecordDelivered(fleet, db, g, m, delivered, now), m, Slot(0, 0, ""));
    }
  }

  lemma SuccessSettles(fleet: Fleet, db: Db, m: MessageId, k: nat, now: Instant, delivered: bool)
    requires m in db.jobs && SoundJob(fleet, db.jobs[m]) && k in db.jobs[m].attempts
    requires !ReportIsKnown(db.jobs[m].message, delivered)
    ensures var sent := RecordSuccess(fleet, db, m, k, now).jobs;
            && m in sent && sent[m] == EnsureSent(db.jobs[m], k)
            && HasSent(sent[m]) && !ReportIsKnown(sent[m].message, delivered)
  {
    EnsureSentIsLawful(db.jobs[m], k);
  }

  lemma AcknowledgeKeepsInv(fleet: Fleet, db: Db, g: GatewayId, m: MessageId, now: Instant)
    requires Inv(fleet, db)
    ensures Inv(fleet, RecordAcknowledgement(db, g, m, now))
  {
    hide LedgerInv, SlotsInv, InFlightInv, QuietJob, JobInv, KnownSims, Acknowledge;
    var k := AttemptOf(db, g, m);
    if k.Some? && IsCurrent(db.jobs[m], k.value) && db.jobs[m].message.status.Assigned? {
      AcknowledgeIsQuiet(fleet, db.jobs[m], k.value, now);
      QuietChange(fleet, db, RecordAcknowledgement(db, g, m, now), m, Slot(0, 0, ""));
    }
  }

  lemma SweepLeaseKeepsInv(fleet: Fleet, db: Db, m: MessageId, now: Instant, random: Random)
    requires Inv(fleet, db)
    ensures Inv(fleet, SweepExpiredLease(fleet, db, m, now, random))
  {
    hide LedgerInv, SlotsInv, InFlightInv, QuietJob, JobInv, KnownSims, RetryOrFail;
    if m in db.jobs && LeaseExpired(db.jobs[m].message, now) {
      FailureIsQuiet(fleet, db.jobs[m], AttemptTimedOut, LEASE_EXPIRED, now, random);
      QuietChange(fleet, db, SweepExpiredLease(fleet, db, m, now, random), m, OwnSlot(fleet, db.jobs[m]));
    }
  }

  lemma EndKeepsInv(fleet: Fleet, db: Db, m: MessageId, now: Instant, tenant: TenantId)
    requires Inv(fleet, db)
    ensures Inv(fleet, SweepExpiredMessage(db, m, now)) && Inv(fleet, CancelMessage(db, tenant, m))
  {
    hide LedgerInv, SlotsInv, InFlightInv, QuietJob, JobInv, KnownSims, Cancel, Expire;
    if m in db.jobs && IsCancellable(db.jobs[m].message.status) {
      EndIsQuiet(fleet, db.jobs[m]);
      if CancelMessage(db, tenant, m) != db { QuietChange(fleet, db, CancelMessage(db, tenant, m), m, Slot(0, 0, "")); }
      if DeadlinePassed(db.jobs[m].message, now) {
        QuietChange(fleet, db, SweepExpiredMessage(db, m, now), m, Slot(0, 0, ""));
      }
    }
  }

  /** A change to the jobs that sends nothing and puts nothing in flight. */
  ghost predicate Inert(fleet: Fleet, was: Job, now: Job) {
    && SoundJob(fleet, now)
    && (forall slot :: SentKeys(fleet, now, slot) == SentKeys(fleet, was, slot))
    && (now == was || (!InFlight(now.message.status) && !InFlight(was.message.status)))
  }

  lemma InertChangesKeepInv(fleet: Fleet, db: Db, after: Db)
    requires Inv(fleet, db) && after.ledger == db.ledger && after.jobs.Keys == db.jobs.Keys
    requires forall m :: m in db.jobs ==> Inert(fleet, db.jobs[m], after.jobs[m])
    ensures Inv(fleet, after)
  {
    hide JobInv, KnownSims, SentKeys, SentAttempts;
    forall slot ensures SentAttempts(fleet, after.jobs, slot) == SentAttempts(fleet, db.jobs, slot) {
      SameKeysSameCount(fleet, db.jobs, after.jobs, slot);
    }
    forall sim ensures InFlightOn(after.jobs, sim) == InFlightOn(db.jobs, sim) {}
    assert JobsInv(fleet, after);
  }

  lemma StrandingIsInert(fleet: Fleet, job: Job)
    requires SoundJob(fleet, job)
    ensures Inert(fleet, job, job)
    ensures IsWaiting(job.message.status) ==> Inert(fleet, job, FailStranded(job))
  {
    if IsWaiting(job.message.status) { WaitingEndIsLawful(job); }
  }

  lemma AssignDeviceKeepsInv(fleet: Fleet, db: Db, g: GatewayId, assignment: Assignment)
    requires Inv(fleet, db)
    ensures Inv(fleet, AssignDevice(db, g, assignment))
  {
    hide LedgerInv, SlotsInv, InFlightInv, JobInv, KnownSims, FailStranded, Inert;
    var after := AssignDevice(db, g, assignment);
    forall m | m in db.jobs ensures Inert(fleet, db.jobs[m], after.jobs[m]) {
      StrandingIsInert(fleet, db.jobs[m]);
    }
    InertChangesKeepInv(fleet, db, after);
  }

  lemma NewJobIsSound(fleet: Fleet, request: Accepted)
    ensures SoundJob(fleet, NewJob(request)) && !InFlight(NewJob(request).message.status)
    ensures forall slot :: SentKeys(fleet, NewJob(request), slot) == {}
  {
    NewJobIsLawful(request);
  }

  lemma AcceptKeepsInv(fleet: Fleet, db: Db, m: MessageId, request: Accepted)
    requires Inv(fleet, db) && m !in db.jobs
    ensures Inv(fleet, SetJob(db, m, NewJob(request)))
  {
    hide JobInv, KnownSims, SentKeys, SentAttempts, NewJob;
    var after := SetJob(db, m, NewJob(request));
    NewJobIsSound(fleet, request);
    forall slot ensures SentAttempts(fleet, after.jobs, slot) == SentAttempts(fleet, db.jobs, slot) {
      SameKeysSameCount(fleet, db.jobs, after.jobs, slot);
    }
    forall sim ensures InFlightOn(after.jobs, sim) == InFlightOn(db.jobs, sim) {}
  }

  // ---- dispatch -----------------------------------------------------------------------------

  /** What the walk leaves behind: the chosen SIM was on the shortlist, and the number has a
      slot on it, taken anew unless it was there. */
  lemma WalkClaims(fleet: Fleet, pacing: Pacing, ledger: Ledger, recipient: Recipient, now: Instant, cs: seq<Candidate>)
    requires AreFleetSims(fleet, cs)
    ensures var route := Walk(fleet, pacing, ledger, recipient, now, cs);
            route.Routed? ==>
              var slot := SlotAt(fleet, route.sim, recipient, now);
              && (exists c :: c in cs && c.sim == route.sim)
              && slot in route.ledger
              && route.ledger == (if slot in ledger then ledger else ledger[slot := 0])
    decreases |cs|
  {
    if cs != [] {
      var sim := cs[0].sim;
      var (reserved, held) := Reserve(fleet, pacing, sim, now);
      if !reserved {
        WalkClaims(fleet, held, ledger, recipient, now, cs[1..]);
      } else {
        WalkClaims(fleet, Unreserve(fleet, held, sim), ledger, recipient, now, cs[1..]);
      }
    }
  }

  /** What a dispatch may take: a SIM new to the message, with room for one more in flight,
      that holds the number or has just been given a slot for it. */
  ghost predicate GoodRoute(fleet: Fleet, db: Db, job: Job, now: Instant, route: Route) {
    && route.Routed? && route.sim in fleet.sims
    && var slot := SlotAt(fleet, route.sim, job.message.recipient, now);
    && (forall k :: k in job.attempts ==> job.attempts[k].sim != route.sim)
    && |InFlightOn(db.jobs, route.sim)| < fleet.sims[route.sim].maxInFlight
    && slot in route.ledger
    && route.ledger == (if slot in db.ledger then db.ledger else db.ledger[slot := 0])
  }

  lemma PickedRouteIsGood(fleet: Fleet, db: Db, job: Job, now: Instant, choice: Choice)
    requires IsChoice(fleet, db, job, now, choice)
    ensures var d := PickRoute(fleet, db, job, now, choice);
            d.Take? ==> GoodRoute(fleet, db, job, now, d.route)
  {
    var d := PickRoute(fleet, db, job, now, choice);
    if d.Take? {
      var cs := Candidates(fleet, db, job.message.recipient, now, choice.rows);
      PlanStaysInFleet(fleet, cs, choice.ranked, fleet.strategy, now);
      var plan := Plan(cs, choice.ranked, fleet.strategy, now);
      WalkClaims(fleet, db.pacing, db.ledger, job.message.recipient, now, plan.candidates);
      var c :| c in plan.candidates && c.sim == d.route.sim;
      PlannedIsFetched(cs, choice.ranked, fleet.strategy, now, c);
      var i :| 0 <= i < |cs| && cs[i] == c;
      assert choice.rows[i] in Eligible(fleet, db, job, choice.usable, fleet.billingDay(now));
    }
  }

  lemma PlannedIsFetched(cs: seq<Candidate>, ranked: seq<Candidate>, strategy: FillStrategy, now: Instant, c: Candidate)
    requires IsRanking(cs, ranked)
    requires var plan := Plan(cs, ranked, strategy, now);
             plan.Try? && c in plan.candidates
    ensures c in cs && c.availableNow
  {
    assert c in ranked ==> c in multiset(ranked);
    assert c in multiset(Shortlist(cs)) ==> c in Shortlist(cs);
  }

  lemma AssignIsSound(fleet: Fleet, job: Job, sim: SimId, now: Instant, random: Random)
    requires SoundJob(fleet, job) && job.message.status.Queued? && sim in fleet.sims
    requires forall k :: k in job.attempts ==> job.attempts[k].sim != sim
    ensures var given := Assign(job, sim, fleet.sims[sim].gateway, now);
            && SoundJob(fleet, given) && InFlight(given.message.status) && given.message.sim == Some(sim)
            && SameSent(job, given) && given.message.recipient == job.message.recipient
            && given.message.attempts in given.attempts
            && HeldSlot(fleet, given) == SlotAt(fleet, sim, job.message.recipient, now)
            && QuietJob(fleet, given, Requeue(given, given.message.attempts, now, random))
            && !InFlight(Requeue(given, given.message.attempts, now, random).message.status)
  {
    AssignIsLawful(job, sim, fleet.sims[sim].gateway, now);
    RequeueUndoesAssign(job, sim, fleet.sims[sim].gateway, now, random);
  }

  lemma AssignToKeepsInv(fleet: Fleet, db: Db, m: MessageId, now: Instant, route: Route)
    requires Inv(fleet, db) && m in db.jobs && db.jobs[m].message.status.Queued?
    requires GoodRoute(fleet, db, db.jobs[m], now, route)
    ensures Inv(fleet, AssignTo(fleet, db, m, now, route))
  {
    hide JobInv, KnownSims, SentAttempts, SentKeys, SameSent, Assign, QuietJob;
    var job, given := db.jobs[m], AssignTo(fleet, db, m, now, route);
    AssignIsSound(fleet, job, route.sim, now, 0.0);
    forall slot ensures SentKeys(fleet, job, slot) == SentKeys(fleet, given.jobs[m], slot) {
      SameSentKeys(fleet, job, given.jobs[m], slot);
    }
    SoundChangeKeepsInv(fleet, db, given, m);
  }

  lemma HandOverKeepsInv(fleet: Fleet, db: Db, m: MessageId, now: Instant, route: Route, choice: Choice)
    requires Inv(fleet, db) && m in db.jobs && db.jobs[m].message.status.Queued?
    requires GoodRoute(fleet, db, db.jobs[m], now, route)
    ensures Inv(fleet, HandOver(fleet, db, m, now, route, choice))
  {
    hide JobInv, KnownSims, LedgerInv, SlotsInv, InFlightInv, QuietJob, Assign, Requeue;
    var given := AssignTo(fleet, db, m, now, route);
    AssignToKeepsInv(fleet, db, m, now, route);
    AssignIsSound(fleet, db.jobs[m], route.sim, now, choice.random);
    var after := HandOver(fleet, db, m, now, route, choice);
    if choice.delivered {
      HandOffRecordKeepsInv(fleet, given, after);
    } else {
      QuietChange(fleet, given, after, m, SlotAt(fleet, route.sim, db.jobs[m].message.recipient, now));
    }
  }

  lemma HandOffRecordKeepsInv(fleet: Fleet, db: Db, after: Db)
    requires Inv(fleet, db) && after.jobs == db.jobs && after.ledger == db.ledger
    ensures Inv(fleet, after)
  {
  }

  lemma DispatchKeepsInv(fleet: Fleet, db: Db, m: MessageId, now: Instant, choice: Choice)
    requires Inv(fleet, db)
    ensures Inv(fleet, DispatchOne(fleet, db, m, now, choice))
  {
    hide JobInv, KnownSims, LedgerInv, SlotsInv, InFlightInv, QuietJob, HandOver, GoodRoute, IsChoice, PickRoute, Defer,
         MarkExpired, MarkUndeliverable;
    var after := DispatchOne(fleet, db, m, now, choice);
    if m in db.jobs && Due(db.jobs[m].message, now) {
      var job := db.jobs[m];
      EndIsQuiet(fleet, job);
      if IsExpiredAt(job.message, now) || !job.message.hasBody {
        QuietChange(fleet, db, after, m, Slot(0, 0, ""));
      } else if IsChoice(fleet, db, job, now, choice) {
        var d := PickRoute(fleet, db, job, now, choice);
        if d.Park? {
          DeferIsQuiet(fleet, job, d.until, d.reason);
          QuietChange(fleet, db, after, m, Slot(0, 0, ""));
        } else {
          PickedRouteIsGood(fleet, db, job, now, choice);
          HandOverKeepsInv(fleet, db, m, now, d.route, choice);
        }
      }
    }
  }

  // ---- every step, every run ------------------------------------------------------------------

  lemma StepKeepsInv(fleet: Fleet, db: Db, now: Instant, action: Action)
    requires Inv(fleet, db)
    ensures Inv(fleet, Step(fleet, db, now, action))
  {
    hide Inv;
    match action
    case Accept(m, request) => if m !in db.jobs { AcceptKeepsInv(fleet, db, m, request); }
    case Dispatch(m, choice) => DispatchKeepsInv(fleet, db, m, now, choice);
    case SendResult(g, m, verdict, random) => ResultKeepsInv(fleet, db, g, m, verdict, now, random);
    case DeliveryStatus(g, m, delivered) => DeliveredKeepsInv(fleet, db, g, m, delivered, now);
    case AssignGateway(g, assignment) => AssignDeviceKeepsInv(fleet, db, g, assignment);
    case Acknowledgement(g, m) => AcknowledgeKeepsInv(fleet, db, g, m, now);
    case SweepLease(m, random) => SweepLeaseKeepsInv(fleet, db, m, now, random);
    case SweepDeadline(m) => EndKeepsInv(fleet, db, m, now, 0);
    case CancelRequest(tenant, m) => EndKeepsInv(fleet, db, m, now, tenant);
  }

  lemma {:induction false} RunKeepsInv(fleet: Fleet, db: Db, trace: seq<Event>)
    requires Inv(fleet, db)
    ensures Inv(fleet, Run(fleet, db, trace))
    decreases |trace|
  {
    hide Inv, Step;
    if trace != [] {
      var last := trace[|trace| - 1];
      RunKeepsInv(fleet, db, trace[..|trace| - 1]);
      StepKeepsInv(fleet, Run(fleet, db, trace[..|trace| - 1]), last.now, last.action);
    }
  }

  lemma ReachableIsSound(fleet: Fleet, db: Db)
    requires Reachable(fleet, db)
    ensures Inv(fleet, db)
  {
    var trace :| Run(fleet, EMPTY_DB, trace) == db;
    assert Inv(fleet, EMPTY_DB) by {
      forall slot ensures SentAttempts(fleet, EMPTY_DB.jobs, slot) == {} {}
      forall sim ensures InFlightOn(EMPTY_DB.jobs, sim) == {} {}
    }
    RunKeepsInv(fleet, EMPTY_DB, trace);
  }
}
