/** Reports and sweeps, statement by statement. Each contract ties the writes of a transaction to
    the protocol step they make up. */
module SmsResultService {
  import opened SmsTypes
  import opened RetryPolicy
  import opened MessageJob
  import opened MessageLaws
  import opened RecipientAllowance
  import opened DeliveryState
  import opened DeliveryProtocol
  import opened Database
  import opened SetSizes

  /** The attempt a report is about, if its device made one, and whether it holds the message. */
  method LockOwnedMessage(db: Tables, g: GatewayId, m: MessageId) returns (k: Option<nat>, isCurrent: bool)
    ensures k == AttemptOf(db.State(), g, m)
    ensures isCurrent <==> k.Some? && IsCurrent(db.jobs[m], k.value)
  {
    if m !in db.jobs { return None, false; }
    k := OwnedAttempt(db.jobs[m], g);
    isCurrent := k.Some? && IsCurrent(db.jobs[m], k.value);
  }

  method Acknowledge(db: Tables, g: GatewayId, m: MessageId, now: Instant)
    modifies db
    ensures db.State() == RecordAcknowledgement(old(db.State()), g, m, now)
  {
    var k, isCurrent := LockOwnedMessage(db, g, m);
    if !isCurrent || !db.jobs[m].message.status.Assigned? { return; }
    db.SaveMessage(m, db.jobs[m].message.(status := Sending, leaseExpiresAt := Some(now + LEASE_SECONDS)));
    db.UpdateCurrentAttempt(m, AttemptSending, None);
  }

  method CountSend(db: Tables, fleet: Fleet, sim: SimId, recipient: Recipient, startedAt: Instant, now: Instant)
    modifies db`counters, db`ledger
    ensures db.counters == CountAgainstDailyQuota(old(db.counters), sim, fleet.billingDay(now))
    ensures db.ledger == RecordSent(old(db.ledger), SlotAt(fleet, sim, recipient, startedAt))
  {
    db.CountQuota(sim, fleet.billingDay(now));
    db.RecordSentOn(SlotAt(fleet, sim, recipient, startedAt));
  }

  /** Attempt `k` succeeded: whatever newer attempt is in flight fails as superseded. */
  method SupersedeCurrentAttempt(db: Tables, fleet: Fleet, m: MessageId, k: nat)
    requires m in db.jobs && k in db.jobs[m].attempts && !WasSent(db.jobs[m].message)
    modifies db`jobs, db`ledger
    ensures db.ledger == SupersededLedger(fleet, old(db.State()), m, k)
    ensures db.jobs == old(db.jobs)[m := if CallsOffCurrent(old(db.jobs[m]), k)
                                         then PutCurrentAttempt(old(db.jobs[m]), AttemptFailed, Some(SUPERSEDED))
                                         else old(db.jobs[m])]
  {
    var job := db.jobs[m];
    if !InFlight(job.message.status) { return; }
    var current := job.message.attempts;
    if current !in job.attempts || current == k { return; }
    db.FinishAttempt(m, current, AttemptFailed, Some(SUPERSEDED));
    HeldByOtherIgnoresExcept(old(db.jobs), AttemptSlot(fleet, job, current), m, db.jobs[m]);
    db.ReleaseSlot(AttemptSlot(fleet, job, current), m);
  }

  /** The job once the attempt overtaken by `k`, if any, is called off. */
  ghost function CalledOff(job: Job, k: nat): (settled: Job)
    requires k in job.attempts
    ensures k in settled.attempts && settled.attempts[k] == job.attempts[k] && settled.message == job.message
  {
    if CallsOffCurrent(job, k) then PutCurrentAttempt(job, AttemptFailed, Some(SUPERSEDED)) else job
  }

  /** A first success, as the transaction writes it: row by row. */
  lemma FirstSuccessInWrites(job: Job, k: nat)
    requires k in job.attempts && !WasSent(job.message)
    ensures var attempt := job.attempts[k];
            var settled := CalledOff(job, k);
            var moved := settled.(message := job.message.(sim := Some(attempt.sim),
                                                          assignedAt := Some(attempt.startedAt)));
            var closed := PutAttempt(moved, k, AttemptSent, None);
            EnsureSent(job, k) == Publish(closed.(message := closed.message.(
              status := Sent, leaseExpiresAt := None, nextAttemptAt := None, error := None, hasBody := false)), SmsSent)
  {
  }

  method MoveToSent(db: Tables, fleet: Fleet, m: MessageId, k: nat, isCurrent: bool, now: Instant)
    requires m in db.jobs && k in db.jobs[m].attempts && isCurrent == IsCurrent(db.jobs[m], k)
    requires !WasSent(db.jobs[m].message)
    modifies db`jobs, db`ledger, db`counters
    ensures db.jobs == old(db.jobs)[m := EnsureSent(old(db.jobs[m]), k)]
    ensures db.ledger == RecordSent(SupersededLedger(fleet, old(db.State()), m, k),
                                    AttemptSlot(fleet, old(db.jobs[m]), k))
    ensures db.counters == CountAgainstDailyQuota(old(db.counters), old(db.jobs[m]).attempts[k].sim,
                                                  fleet.billingDay(now))
  {
    hide CountAgainstDailyQuota, RecordSent, EnsureSent, PutAttempt, PutCurrentAttempt, Publish, Release;
    var job := db.jobs[m];
    var attempt := job.attempts[k];
    FirstSuccessInWrites(job, k);
    if !isCurrent {
      SupersedeCurrentAttempt(db, fleet, m, k);
    }
    assert db.jobs[m] == CalledOff(job, k);
    db.SaveMessage(m, db.jobs[m].message.(sim := Some(attempt.sim), assignedAt := Some(attempt.startedAt)));
    db.FinishAttempt(m, k, AttemptSent, None);
    db.SaveMessage(m, db.jobs[m].message.(
      status := Sent, leaseExpiresAt := None, nextAttemptAt := None, error := None, hasBody := false));
    CountSend(db, fleet, attempt.sim, job.message.recipient, attempt.startedAt, now);
    db.PublishEvent(m, SmsSent);
  }

  /** A success of attempt `k`, counted unless it was counted before. */
  method EnsureSentBy(db: Tables, fleet: Fleet, m: MessageId, k: nat, isCurrent: bool, now: Instant)
    requires m in db.jobs && k in db.jobs[m].attempts && isCurrent == IsCurrent(db.jobs[m], k)
    modifies db`jobs, db`ledger, db`counters
    ensures db.State() == RecordSuccess(fleet, old(db.State()), m, k, now)
  {
    hide CountAgainstDailyQuota, RecordSent, Release, CallsOffCurrent, PutCurrentAttempt;
    var job := db.jobs[m];
    var attempt := job.attempts[k];
    if !WasSent(job.message) {
      MoveToSent(db, fleet, m, k, isCurrent, now);
      return;
    }
    if !attempt.status.AttemptSent? {
      db.FinishAttempt(m, k, AttemptSent, None);
      CountSend(db, fleet, attempt.sim, job.message.recipient, attempt.startedAt, now);
    }
  }

  /** Hands the slot back and decides whether the message is queued again or stops here. */
  method RetryOrFailWith(db: Tables, fleet: Fleet, m: MessageId, code: ErrorCode, now: Instant, random: Random)
    requires m in db.jobs
    modifies db`jobs, db`ledger
    ensures db.ledger == ReturnedLedger(fleet, old(db.State()), m)
    ensures db.jobs == old(db.jobs)[m := RetryOrFail(old(db.jobs[m]), code, now, random)]
  {
    hide Release, DecideRetry, SlotAt;
    var message := db.jobs[m].message;
    if message.sim.Some? && message.assignedAt.Some? {
      db.ReleaseSlot(SlotAt(fleet, message.sim.value, message.recipient, message.assignedAt.value), m);
    }
    var decision := DecideRetry(Some(code), message.attempts, message.maxAttempts, random);
    if decision.Retry? {
      db.SaveMessage(m, message.(
        status := Queued, sim := None, assignedAt := None, leaseExpiresAt := None,
        error := Some(code), nextAttemptAt := Some(now + decision.delaySeconds as real)));
      return;
    }
    db.SaveMessage(m, message.(
      status := Failed, error := Some(if decision.reason.Exhausted? then ATTEMPTS_EXHAUSTED else code),
      leaseExpiresAt := None, hasBody := false));
    db.PublishEvent(m, SmsFailed);
  }

  /** A slot is handed back by the message's own columns, which closing its attempt leaves. */
  lemma ReturnedLedgerIgnoresAttempt(fleet: Fleet, db: Db, m: MessageId, status: AttemptStatus,
                                     error: Option<ErrorCode>)
    requires m in db.jobs
    ensures ReturnedLedger(fleet, db.(jobs := db.jobs[m := PutCurrentAttempt(db.jobs[m], status, error)]), m)
         == ReturnedLedger(fleet, db, m)
  {
    var message := db.jobs[m].message;
    if message.sim.Some? && message.assignedAt.Some? {
      HeldByOtherIgnoresExcept(db.jobs, SlotAt(fleet, message.sim.value, message.recipient, message.assignedAt.value),
                               m,
                               PutCurrentAttempt(db.jobs[m], status, error));
    }
  }

  method ApplyFailureTo(db: Tables, fleet: Fleet, m: MessageId, code: ReportedCode, now: Instant, random: Random)
    requires m in db.jobs
    modifies db`jobs, db`ledger
    ensures db.ledger == ReturnedLedger(fleet, old(db.State()), m)
    ensures db.jobs == old(db.jobs)[m := ApplyFailure(old(db.jobs[m]), code, now, random)]
  {
    var error := NormalizeErrorCode(code);
    ReturnedLedgerIgnoresAttempt(fleet, db.State(), m, AttemptFailed, Some(error));
    db.UpdateCurrentAttempt(m, AttemptFailed, Some(error));
    RetryOrFailWith(db, fleet, m, error, now, random);
  }

  method ApplyLateFailureTo(db: Tables, m: MessageId, k: nat, code: ReportedCode)
    requires m in db.jobs && k in db.jobs[m].attempts
    modifies db`jobs
    ensures db.jobs == old(db.jobs)[m := ApplyLateFailure(old(db.jobs[m]), k, code)]
  {
    var status := db.jobs[m].attempts[k].status;
    if status.AttemptSent? { return; }
    if status.AttemptFailed? { return; }
    db.FinishAttempt(m, k, AttemptFailed, Some(NormalizeErrorCode(code)));
  }

  /** A send result: success goes one way, failure by whether the attempt is current. */
  method HandleResult(db: Tables, fleet: Fleet, g: GatewayId, m: MessageId, verdict: Verdict, now: Instant,
                      random: Random)
    modifies db
    ensures db.State() == RecordResult(fleet, old(db.State()), g, m, verdict, now, random)
  {
    var k, isCurrent := LockOwnedMessage(db, g, m);
    if k.None? { return; }
    if verdict.SentVerdict? {
      EnsureSentBy(db, fleet, m, k.value, isCurrent, now);
      return;
    }
    if isCurrent {
      ApplyFailureTo(db, fleet, m, verdict.code, now, random);
    } else {
      ApplyLateFailureTo(db, m, k.value, verdict.code);
    }
  }

  /** A delivery report, which implies the send it is about. */
  method HandleDelivered(db: Tables, fleet: Fleet, g: GatewayId, m: MessageId, delivered: bool, now: Instant)
    modifies db
    ensures db.State() == RecordDelivered(fleet, old(db.State()), g, m, delivered, now)
  {
    hide IsCurrent, WasSent, CountsSend, EnsureSent, SupersededLedger, OwnedAttempt, RecordSent, CountAgainstDailyQuota;
    var k, isCurrent := LockOwnedMessage(db, g, m);
    if k.None? { return; }
    var message := db.jobs[m].message;
    if message.status.Delivered? { return; }
    if !delivered && message.status.Failed? && message.error == Some(DELIVERY_FAILED) { return; }

    EnsureSentBy(db, fleet, m, k.value, isCurrent, now);
    if !delivered {
      db.SaveMessage(m, db.jobs[m].message.(status := Failed, error := Some(DELIVERY_FAILED)));
      db.PublishEvent(m, SmsFailed);
      return;
    }
    db.SaveMessage(m, db.jobs[m].message.(status := Delivered));
    db.PublishEvent(m, SmsDelivered);
  }

  // ---- sweeps -------------------------------------------------------------------------------------

  /** One lease step per row, each with its own clock reading and its own draw. */
  function LeaseSweeps(rows: seq<MessageId>, times: nat -> Instant, draws: nat -> Random): seq<Event> {
    seq(|rows|, i requires 0 <= i < |rows| => At(times(i), Action.SweepLease(rows[i], draws(i))))
  }

  function DeadlineSweeps(rows: seq<MessageId>, times: nat -> Instant): seq<Event> {
    seq(|rows|, i requires 0 <= i < |rows| => At(times(i), Action.SweepDeadline(rows[i])))
  }

  /** What the query of a deadline sweep, run at `from`, found, and later clock readings. */
  ghost predicate SelectedDeadlines(jobs: Jobs, rows: seq<MessageId>, from: Instant, times: nat -> Instant) {
    forall i :: 0 <= i < |rows| ==>
      from <= times(i) && (rows[i] in jobs ==> DeadlinePassed(jobs[rows[i]].message, from))
  }

  /** The transaction of one row, with the code's own re-check under the lock. */
  method SweepLeaseOf(db: Tables, fleet: Fleet, m: MessageId, now: Instant, random: Random) returns (reclaimed: bool)
    requires m in db.jobs ==> LeaseIsHeld(db.jobs[m].message)
    modifies db
    ensures db.State() == SweepExpiredLease(fleet, old(db.State()), m, now, random)
    ensures reclaimed <==> m in old(db.jobs) && LeaseExpired(old(db.jobs[m].message), now)
    ensures db.jobs.Keys == old(db.jobs.Keys)
    ensures reclaimed ==> InFlight(old(db.jobs[m].message.status))
    ensures reclaimed ==> m in db.jobs && !InFlight(db.jobs[m].message.status) && LeaseIsHeld(db.jobs[m].message)
    ensures m in db.jobs ==> !LeaseExpired(db.jobs[m].message, now)
    ensures !reclaimed ==> db.jobs == old(db.jobs)
    ensures forall x :: x in db.jobs && x != m ==> db.jobs[x] == old(db.jobs)[x]
  {
    if m !in db.jobs || db.jobs[m].message.leaseExpiresAt.None? { return false; }
    var message := db.jobs[m].message;
    if message.leaseExpiresAt.value > now { return false; }
    if IsTerminal(message.status) { return false; }
    ReturnedLedgerIgnoresAttempt(fleet, db.State(), m, AttemptTimedOut, Some(LEASE_EXPIRED));
    db.UpdateCurrentAttempt(m, AttemptTimedOut, Some(LEASE_EXPIRED));
    RetryOrFailWith(db, fleet, m, LEASE_EXPIRED, now, random);
    return true;
  }

  /** No row in `done` has a lease that ran out by its turn, and the others are as they were. */
  ghost predicate Reclaimed(was: Jobs, now: Jobs, done: seq<MessageId>, times: nat -> Instant) {
    && now.Keys == was.Keys
    && (forall i :: 0 <= i < |done| && done[i] in now ==> !LeaseExpired(now[done[i]].message, times(i)))
    && (forall m :: m in now ==> now[m] == was[m] || (m in done && !InFlight(now[m].message.status)))
    && (forall m :: m in now ==> LeaseIsHeld(now[m].message))
  }

  /** The messages that are not what they were. */
  function Changed(was: Jobs, now: Jobs): set<MessageId> {
    set m | m in was && m in now && now[m] != was[m]
  }

  /** One more message changed, and it had not before; or none. */
  lemma ChangedOneMore(was: Jobs, before: Jobs, after: Jobs, m: MessageId)
    requires was.Keys == before.Keys == after.Keys
    requires forall x :: x in after && x != m ==> after[x] == before[x]
    requires m in after ==> before[m] == was[m] || after[m] == before[m]
    ensures |Changed(was, after)|
         == |Changed(was, before)| + if m in after && after[m] != before[m] then 1 else 0
  {
    if m in after && after[m] != before[m] {
      OneMore(Changed(was, before), Changed(was, after), m, true);
    } else {
      assert after == before;
    }
  }

  lemma NothingChanged(jobs: Jobs)
    ensures Changed(jobs, jobs) == {}
  {
  }

  lemma ReclaimedOneMore(was: Jobs, before: Jobs, after: Jobs, done: seq<MessageId>, m: MessageId,
                         times: nat -> Instant)
    requires Reclaimed(was, before, done, times) && after.Keys == before.Keys
    requires forall x :: x in after && x != m ==> after[x] == before[x]
    requires m in after ==> !LeaseExpired(after[m].message, times(|done|)) && LeaseIsHeld(after[m].message)
    requires m in after ==> after[m] == before[m] || !InFlight(after[m].message.status)
    ensures Reclaimed(was, after, done + [m], times)
  {
  }

  lemma NextLeaseSweep(fleet: Fleet, db: Db, rows: seq<MessageId>, times: nat -> Instant, draws: nat -> Random, i: nat)
    requires i < |rows|
    ensures Run(fleet, db, LeaseSweeps(rows[..i + 1], times, draws))
         == SweepExpiredLease(fleet, Run(fleet, db, LeaseSweeps(rows[..i], times, draws)), rows[i], times(i), draws(i))
  {
    hide SweepExpiredLease;
    assert LeaseSweeps(rows[..i + 1], times, draws)[..i] == LeaseSweeps(rows[..i], times, draws);
  }

  lemma NextDeadlineSweep(fleet: Fleet, db: Db, rows: seq<MessageId>, times: nat -> Instant, i: nat)
    requires i < |rows|
    ensures Run(fleet, db, DeadlineSweeps(rows[..i + 1], times))
         == SweepExpiredMessage(Run(fleet, db, DeadlineSweeps(rows[..i], times)), rows[i], times(i))
  {
    hide SweepExpiredMessage;
    assert DeadlineSweeps(rows[..i + 1], times)[..i] == DeadlineSweeps(rows[..i], times);
  }

  /** Reclaims messages from devices that stopped answering: one transaction per row, whatever has
      become of the rows since they were selected. */
  method SweepExpiredLeases(db: Tables, fleet: Fleet, rows: seq<MessageId>, times: nat -> Instant, draws: nat -> Random)
    returns (reclaimed: nat)
    requires forall m :: m in db.jobs ==> LeaseIsHeld(db.jobs[m].message)
    modifies db
    ensures db.State() == Run(fleet, old(db.State()), LeaseSweeps(rows, times, draws))
    ensures Reclaimed(old(db.jobs), db.jobs, rows, times)
    ensures reclaimed == |Changed(old(db.jobs), db.jobs)|
  {
    hide SweepExpiredLease, LeaseSweeps, Run, LeaseExpired, Changed;
    NothingSwept(fleet, db.State(), times, draws);
    NothingChanged(db.jobs);
    assert rows[..0] == [];
    reclaimed := 0;
    for i := 0 to |rows|
      invariant db.State() == Run(fleet, old(db.State()), LeaseSweeps(rows[..i], times, draws))
      invariant Reclaimed(old(db.jobs), db.jobs, rows[..i], times)
      invariant reclaimed == |Changed(old(db.jobs), db.jobs)|
    {
      hide Reclaimed;
      ghost var before := db.jobs;
      NextLeaseSweep(fleet, old(db.State()), rows, times, draws, i);
      RowHasItsLease(old(db.jobs), before, rows[..i], times, rows[i]);
      var did := SweepLeaseOf(db, fleet, rows[i], times(i), draws(i));
      if did { reclaimed := reclaimed + 1; }
      KeysStay(old(db.jobs), before, rows[..i], times);
      ChangedOneMore(old(db.jobs), before, db.jobs, rows[i]);
      ReclaimedOneMore(old(db.jobs), before, db.jobs, rows[..i], rows[i], times);
      assert rows[..i + 1] == rows[..i] + [rows[i]];
    }
    assert rows[..|rows|] == rows;
  }

  lemma RowHasItsLease(was: Jobs, now: Jobs, done: seq<MessageId>, times: nat -> Instant, m: MessageId)
    requires Reclaimed(was, now, done, times)
    ensures m in now ==> LeaseIsHeld(now[m].message)
    ensures m in now ==> now[m] == was[m] || !InFlight(now[m].message.status)
  {
  }

  lemma KeysStay(was: Jobs, now: Jobs, done: seq<MessageId>, times: nat -> Instant)
    requires Reclaimed(was, now, done, times)
    ensures now.Keys == was.Keys
  {
  }

  lemma NothingSwept(fleet: Fleet, db: Db, times: nat -> Instant, draws: nat -> Random)
    ensures Run(fleet, db, LeaseSweeps([], times, draws)) == db && Run(fleet, db, DeadlineSweeps([], times)) == db
    ensures (forall m :: m in db.jobs ==> LeaseIsHeld(db.jobs[m].message)) ==> Reclaimed(db.jobs, db.jobs, [], times)
    ensures Ended(db.jobs, db.jobs, [])
  {
  }

  /** The transaction of one row, which re-checks only that the message has not ended. */
  method SweepDeadlineOf(db: Tables, m: MessageId, now: Instant) returns (expired: bool)
    requires m in db.jobs ==> IsTerminal(db.jobs[m].message.status) || DeadlinePassed(db.jobs[m].message, now)
    modifies db`jobs
    ensures db.State() == SweepExpiredMessage(old(db.State()), m, now)
    ensures expired <==> m in old(db.jobs) && DeadlinePassed(old(db.jobs[m].message), now)
    ensures db.jobs.Keys == old(db.jobs.Keys)
    ensures m in db.jobs ==> IsTerminal(db.jobs[m].message.status)
    ensures expired ==> IsWaiting(old(db.jobs[m].message.status))
    ensures !expired ==> db.jobs == old(db.jobs)
    ensures forall x :: x in db.jobs && x != m ==> db.jobs[x] == old(db.jobs)[x]
  {
    if m !in db.jobs || IsTerminal(db.jobs[m].message.status) { return false; }
    db.SaveMessage(m, db.jobs[m].message.(status := Expired, error := Some(MESSAGE_EXPIRED), hasBody := false));
    db.PublishEvent(m, SmsExpired);
    return true;
  }

  /** The rows in `done` have ended, and the others are as they were. */
  ghost predicate Ended(was: Jobs, now: Jobs, done: seq<MessageId>) {
    && now.Keys == was.Keys
    && (forall m :: m in done && m in now ==> IsTerminal(now[m].message.status))
    && (forall m :: m in now && m !in done ==> now[m] == was[m])
  }

  lemma EndedOneMore(was: Jobs, before: Jobs, after: Jobs, done: seq<MessageId>, m: MessageId)
    requires Ended(was, before, done) && after.Keys == before.Keys
    requires m in after ==> IsTerminal(after[m].message.status)
    requires forall x :: x in after && x != m ==> after[x] == before[x]
    ensures Ended(was, after, done + [m])
  {
  }

  lemma RowWasNotEnded(was: Jobs, now: Jobs, done: seq<MessageId>, m: MessageId)
    requires Ended(was, now, done)
    ensures now.Keys == was.Keys && (m in now ==> now[m] == was[m] || IsTerminal(now[m].message.status))
  {
  }

  lemma RowAwaitsDeadline(was: Jobs, now: Jobs, rows: seq<MessageId>, from: Instant, times: nat -> Instant, i: nat)
    requires SelectedDeadlines(was, rows, from, times) && i < |rows| && Ended(was, now, rows[..i])
    ensures rows[i] in now ==> IsTerminal(now[rows[i]].message.status) || DeadlinePassed(now[rows[i]].message, times(i))
  {
  }

  /** Ends messages that waited past their deadline: one transaction per selected row, each row
      still as it was selected when its turn comes. */
  method SweepExpiredMessages(db: Tables, fleet: Fleet, rows: seq<MessageId>, from: Instant, times: nat -> Instant)
    returns (expired: nat)
    requires SelectedDeadlines(db.jobs, rows, from, times)
    modifies db`jobs
    ensures db.State() == Run(fleet, old(db.State()), DeadlineSweeps(rows, times))
    ensures Ended(old(db.jobs), db.jobs, rows)
    ensures expired == |Changed(old(db.jobs), db.jobs)|
  {
    hide SweepExpiredMessage, DeadlineSweeps, Ended, Run, SelectedDeadlines, Changed;
    NothingSwept(fleet, db.State(), times, _ => 0.0);
    NothingChanged(db.jobs);
    assert rows[..0] == [];
    expired := 0;
    for i := 0 to |rows|
      invariant db.State() == Run(fleet, old(db.State()), DeadlineSweeps(rows[..i], times))
      invariant Ended(old(db.jobs), db.jobs, rows[..i])
      invariant expired == |Changed(old(db.jobs), db.jobs)|
    {
      ghost var before := db.jobs;
      NextDeadlineSweep(fleet, old(db.State()), rows, times, i);
      RowAwaitsDeadline(old(db.jobs), before, rows, from, times, i);
      var did := SweepDeadlineOf(db, rows[i], times(i));
      if did { expired := expired + 1; }
      RowWasNotEnded(old(db.jobs), before, rows[..i], rows[i]);
      ChangedOneMore(old(db.jobs), before, db.jobs, rows[i]);
      EndedOneMore(old(db.jobs), before, db.jobs, rows[..i], rows[i]);
      assert rows[..i + 1] == rows[..i] + [rows[i]];
    }
    assert rows[..|rows|] == rows;
  }
}
