/** The bound on status changes is attained, however many attempts a message may make: every
    attempt but the last is given out, acknowledged and failed, and so is the last; then it turns
    out to have been sent, is reported lost, and reported delivered after all. */
module BoundAttained {
  import opened SmsTypes
  import opened RetryPolicy
  import opened MessageJob
  import opened DeliveryState
  import opened DeliveryProtocol
  import opened DeliveryRuns
  import opened PacingRuns
  import opened SampleFleet
  import opened SoleDispatch

  // ---- one message ------------------------------------------------------------------------------

  /** `k` attempts were made, each by the next SIM of the device, and the message waits again. */
  ghost predicate Waits(job: Job, n: MaxAttempts, k: nat) {
    && job.message == NewJob(Asked(n)).message.(attempts := k, error := job.message.error,
                                                nextAttemptAt := job.message.nextAttemptAt)
    && (forall a :: a in job.attempts <==> 1 <= a <= k)
    && (forall a :: a in job.attempts ==> job.attempts[a].sim == a - 1 && job.attempts[a].gateway == 0)
  }

  function DueAt(job: Job): Instant {
    if job.message.nextAttemptAt.Some? then job.message.nextAttemptAt.value else 0.0
  }

  function Given(job: Job, k: nat): Job {
    Assign(job, k, 0, DueAt(job))
  }

  function Acknowledged(job: Job, k: nat): Job {
    Acknowledge(Given(job, k), DueAt(job))
  }

  function FailedAgain(job: Job, k: nat): Job {
    ApplyFailure(Acknowledged(job, k), Missing, DueAt(job), 0.0)
  }

  lemma AnAttemptFails(job: Job, n: MaxAttempts, k: nat)
    requires Waits(job, n, k) && k < n
    ensures Given(job, k).message.status.Assigned? && Acknowledged(job, k).message.status.Sending?
    ensures IsCurrent(Given(job, k), k + 1) && OwnedAttempt(Given(job, k), 0) == Some(k + 1)
    ensures IsCurrent(Acknowledged(job, k), k + 1) && OwnedAttempt(Acknowledged(job, k), 0) == Some(k + 1)
    ensures k + 1 < n ==> Waits(FailedAgain(job, k), n, k + 1)
    ensures k + 1 == n ==> FailedAgain(job, k).message.status.Failed? && !WasSent(FailedAgain(job, k).message)
    ensures k + 1 in FailedAgain(job, k).attempts && OwnedAttempt(FailedAgain(job, k), 0) == Some(k + 1)
    ensures FailedAgain(job, k).attempts[k + 1].status.AttemptFailed?
  {
    hide WithJitter;
  }

  lemma AFailureEndsDelivered(job: Job, k: nat)
    requires k in job.attempts && OwnedAttempt(job, 0) == Some(k) && k == job.message.attempts
    requires job.message.status.Failed? && !WasSent(job.message)
    ensures var sent := EnsureSent(job, k);
            && sent.message.status.Sent? && OwnedAttempt(sent, 0) == Some(k)
            && var lost := DeliveryReport(sent, k, false);
            && lost.message.status.Failed? && k in lost.attempts && OwnedAttempt(lost, 0) == Some(k)
            && DeliveryReport(lost, k, true).message.status.Delivered?
  {
  }

  // ---- the device's SIMs, one after the other -----------------------------------------------------

  /** The next SIM has not been used, and nothing else goes on. */
  ghost predicate Ready(db: Db, job: Job, k: nat) {
    db.jobs == map[0 := job] && db.assignments == map[0 := Pool] && forall s :: s in db.pacing.sims ==> s < k
  }

  lemma NextIsOpen(n: MaxAttempts, k: nat, db: Db, job: Job)
    requires k < n && Waits(job, n, k) && Ready(db, job, k)
    ensures IsOpenTo(Device(n), db, 0, DueAt(job), k)
  {
    assert InFlightOn(db.jobs, k) == {};
  }

  // ---- one step of the platform ---------------------------------------------------------------------

  function NextDispatch(n: MaxAttempts, k: nat, db: Db, job: Job): Action
    requires k < n && 0 in db.jobs
  {
    Dispatch(0, OnlyTo(Device(n), db, 0, DueAt(job), k, true))
  }

  /** The only message is at `job`, and SIMs from `k` on have not been used. */
  lemma DispatchGives(n: MaxAttempts, k: nat, db: Db, job: Job)
    requires k < n && Waits(job, n, k) && Ready(db, job, k)
    ensures Ready(Step(Device(n), db, DueAt(job), NextDispatch(n, k, db, job)), Given(job, k), k + 1)
  {
    hide IsOpenTo, OnlyTo, Assign, Step, Waits;
    NextIsOpen(n, k, db, job);
    OnlySimIsTaken(Device(n), db, 0, DueAt(job), k);
  }

  lemma ReportKeepsRest(fleet: Fleet, db: Db, now: Instant, action: Action, job: Job, next: Job, k: nat)
    requires Ready(db, job, k) && (action.Acknowledgement? || action.SendResult? || action.DeliveryStatus?)
    requires Step(fleet, db, now, action).jobs == map[0 := next]
    ensures Ready(Step(fleet, db, now, action), next, k)
  {
    hide EnsureSent, ApplyFailure, ApplyLateFailure, Acknowledge, Settle, SupersededLedger, ReturnedLedger,
         OwnedAttempt;
  }

  lemma AcknowledgementSettles(fleet: Fleet, db: Db, job: Job, k: nat, now: Instant)
    requires Ready(db, job, k) && OwnedAttempt(job, 0) == Some(k) && IsCurrent(job, k) && job.message.status.Assigned?
    ensures Ready(Step(fleet, db, now, Acknowledgement(0, 0)), Acknowledge(job, now), k)
  {
    hide Acknowledge, OwnedAttempt;
    ReportKeepsRest(fleet, db, now, Acknowledgement(0, 0), job, Acknowledge(job, now), k);
  }

  lemma FailureSettles(fleet: Fleet, db: Db, job: Job, k: nat, now: Instant)
    requires Ready(db, job, k) && OwnedAttempt(job, 0) == Some(k) && IsCurrent(job, k)
    ensures Ready(Step(fleet, db, now, SendResult(0, 0, FailedVerdict(Missing), 0.0)),
                  ApplyFailure(job, Missing, now, 0.0), k)
  {
    hide ApplyFailure, ReturnedLedger, OwnedAttempt;
    ReportKeepsRest(fleet, db, now, SendResult(0, 0, FailedVerdict(Missing), 0.0), job,
                    ApplyFailure(job, Missing, now, 0.0), k);
  }

  lemma SuccessSettles(fleet: Fleet, db: Db, job: Job, k: nat, now: Instant)
    requires Ready(db, job, k) && OwnedAttempt(job, 0) == Some(k)
    ensures Ready(Step(fleet, db, now, SendResult(0, 0, SentVerdict, 0.0)), EnsureSent(job, k), k)
  {
    hide EnsureSent, OwnedAttempt, RecordSuccess;
    SuccessOnJob(fleet, db, 0, k, now);
    ReportKeepsRest(fleet, db, now, SendResult(0, 0, SentVerdict, 0.0), job, EnsureSent(job, k), k);
  }

  lemma ReportSettles(fleet: Fleet, db: Db, job: Job, k: nat, delivered: bool, now: Instant)
    requires Ready(db, job, k) && OwnedAttempt(job, 0) == Some(k)
    ensures Ready(Step(fleet, db, now, DeliveryStatus(0, 0, delivered)), DeliveryReport(job, k, delivered), k)
  {
    hide EnsureSent, Settle, RecordSuccess, OwnedAttempt;
    SuccessOnJob(fleet, db, 0, k, now);
    ReportKeepsRest(fleet, db, now, DeliveryStatus(0, 0, delivered), job, DeliveryReport(job, k, delivered), k);
  }

  // ---- the run --------------------------------------------------------------------------------------

  /** After `trace`, the message is at `job`, and its status has changed so many times. */
  ghost predicate Stands(n: MaxAttempts, trace: seq<Event>, job: Job, k: nat, changes: nat) {
    && Ready(Run(Device(n), OneWaiting(n), trace), job, k)
    && StatusChanges(Device(n), OneWaiting(n), trace, 0) == changes
  }

  /** The clock does not go back, and has not passed `now`. */
  ghost predicate Clocked(trace: seq<Event>, now: Instant) {
    && (forall i, j :: 0 <= i < j < |trace| ==> trace[i].now <= trace[j].now)
    && (forall i :: 0 <= i < |trace| ==> trace[i].now <= now)
  }

  lemma ThreeAt(trace: seq<Event>, now: Instant, a: Action, b: Action, c: Action)
    requires Clocked(trace, now)
    ensures Clocked(trace + [At(now, a)] + [At(now, b)] + [At(now, c)], now)
  {
  }

  lemma ClockGoesOn(trace: seq<Event>, now: Instant, later: Instant)
    requires Clocked(trace, now) && now <= later
    ensures Clocked(trace, later)
  {
  }

  lemma OneMore(n: MaxAttempts, trace: seq<Event>, event: Event, job: Job, k: nat, changes: nat, next: Job, k': nat)
    requires Stands(n, trace, job, k, changes) && next.message.status != job.message.status
    requires Ready(Step(Device(n), Run(Device(n), OneWaiting(n), trace), event.now, event.action), next, k')
    ensures Stands(n, trace + [event], next, k', changes + 1)
  {
    hide Step;
    assert (trace + [event])[..|trace|] == trace;
  }

  /** One more attempt: given out, acknowledged, failed. */
  lemma AnotherAttempt(n: MaxAttempts, k: nat, trace: seq<Event>, job: Job, changes: nat) returns (longer: seq<Event>)
    requires k < n && Waits(job, n, k) && Stands(n, trace, job, k, changes) && Clocked(trace, DueAt(job))
    ensures Stands(n, longer, FailedAgain(job, k), k + 1, changes + 3) && Clocked(longer, DueAt(job))
  {
    hide Run, StatusChanges, Step, Waits, Ready, IsCurrent, OwnedAttempt, Acknowledge, ApplyFailure, Assign, Clocked;
    var now, db := DueAt(job), Run(Device(n), OneWaiting(n), trace);
    StandsMeans(n, trace, job, k, changes);
    var a, b, c := NextDispatch(n, k, db, job), Acknowledgement(0, 0),
        SendResult(0, 0, FailedVerdict(Missing), 0.0);
    var t1 := trace + [At(now, a)];
    var t2 := t1 + [At(now, b)];
    AnAttemptFails(job, n, k);
    AttemptStartsQueued(job, n, k);
    DispatchGives(n, k, db, job);
    OneMore(n, trace, At(now, a), job, k, changes, Given(job, k), k + 1);
    StandsMeans(n, t1, Given(job, k), k + 1, changes + 1);
    AcknowledgementSettles(Device(n), Run(Device(n), OneWaiting(n), t1), Given(job, k), k + 1, now);
    OneMore(n, t1, At(now, b), Given(job, k), k + 1, changes + 1, Acknowledged(job, k), k + 1);
    StandsMeans(n, t2, Acknowledged(job, k), k + 1, changes + 2);
    FailureSettles(Device(n), Run(Device(n), OneWaiting(n), t2), Acknowledged(job, k), k + 1, now);
    OneMore(n, t2, At(now, c), Acknowledged(job, k), k + 1, changes + 2, FailedAgain(job, k), k + 1);
    ThreeAt(trace, now, a, b, c);
    longer := t2 + [At(now, c)];
  }

  lemma StandsMeans(n: MaxAttempts, trace: seq<Event>, job: Job, k: nat, changes: nat)
    requires Stands(n, trace, job, k, changes)
    ensures Ready(Run(Device(n), OneWaiting(n), trace), job, k)
    ensures StatusChanges(Device(n), OneWaiting(n), trace, 0) == changes
    ensures Run(Device(n), OneWaiting(n), trace).jobs == map[0 := job]
  {
  }

  lemma AttemptStartsQueued(job: Job, n: MaxAttempts, k: nat)
    requires Waits(job, n, k) && k < n
    ensures job.message.status.Queued?
    ensures k + 1 < n ==> FailedAgain(job, k).message.status.Queued? && DueAt(job) <= DueAt(FailedAgain(job, k))
    ensures k + 1 == n ==> FailedAgain(job, k).message.status.Failed? && FailedAgain(job, k).message.attempts == n
  {
    hide WithJitter;
    JitterStaysNearBase(BACKOFF_SECONDS[BackoffIndex(k + 1)], 0.0);
  }

  lemma NoAttemptYet(n: MaxAttempts)
    ensures Waits(NewJob(Asked(n)), n, 0) && Stands(n, [], NewJob(Asked(n)), 0, 0)
    ensures Clocked([], DueAt(NewJob(Asked(n))))
  {
  }

  lemma {:induction false} FailedAttempts(n: MaxAttempts, k: nat) returns (trace: seq<Event>, job: Job)
    requires k < n
    ensures Waits(job, n, k) && Stands(n, trace, job, k, 3 * k) && Clocked(trace, DueAt(job))
    decreases k
  {
    hide FailedAgain, Stands, Waits, Clocked;
    if k == 0 {
      NoAttemptYet(n);
      trace, job := [], NewJob(Asked(n));
    } else {
      var before, was := FailedAttempts(n, k - 1);
      trace := AnotherAttempt(n, k - 1, before, was, 3 * (k - 1));
      AttemptStartsQueued(was, n, k - 1);
      AnAttemptFails(was, n, k - 1);
      job := FailedAgain(was, k - 1);
      ClockGoesOn(trace, DueAt(was), DueAt(job));
    }
  }

  /** Sent after all, lost, delivered. */
  lemma LateEnd(n: MaxAttempts, trace: seq<Event>, job: Job, k: nat, changes: nat, now: Instant)
    returns (longer: seq<Event>, end: Job)
    requires Stands(n, trace, job, k, changes) && Clocked(trace, now)
    requires k in job.attempts && OwnedAttempt(job, 0) == Some(k) && k == job.message.attempts
    requires job.message.status.Failed? && !WasSent(job.message)
    ensures end.message.status.Delivered? && Stands(n, longer, end, k, changes + 3) && Clocked(longer, now)
  {
    hide Run, StatusChanges, Step, Ready, OwnedAttempt, EnsureSent, DeliveryReport, Clocked;
    AFailureEndsDelivered(job, k);
    var sent := EnsureSent(job, k);
    var lost := DeliveryReport(sent, k, false);
    end := DeliveryReport(lost, k, true);
    var a, b, c := SendResult(0, 0, SentVerdict, 0.0), DeliveryStatus(0, 0, false), DeliveryStatus(0, 0, true);
    var t1 := trace + [At(now, a)];
    var t2 := t1 + [At(now, b)];
    StandsMeans(n, trace, job, k, changes);
    SuccessSettles(Device(n), Run(Device(n), OneWaiting(n), trace), job, k, now);
    OneMore(n, trace, At(now, a), job, k, changes, sent, k);
    StandsMeans(n, t1, sent, k, changes + 1);
    ReportSettles(Device(n), Run(Device(n), OneWaiting(n), t1), sent, k, false, now);
    OneMore(n, t1, At(now, b), sent, k, changes + 1, lost, k);
    StandsMeans(n, t2, lost, k, changes + 2);
    ReportSettles(Device(n), Run(Device(n), OneWaiting(n), t2), lost, k, true, now);
    OneMore(n, t2, At(now, c), lost, k, changes + 2, end, k);
    ThreeAt(trace, now, a, b, c);
    longer := t2 + [At(now, c)];
  }

  /** However many attempts a message may make, some run from its acceptance on, its clock never
      going back, changes its status exactly three times per attempt and three times more, and
      ends with it delivered. */
  lemma BoundIsAttained(n: MaxAttempts) returns (trace: seq<Event>)
    ensures Reachable(Device(n), OneWaiting(n)) && OneWaiting(n).jobs == map[0 := NewJob(Asked(n))]
    ensures InClockOrder(trace)
    ensures StatusChanges(Device(n), OneWaiting(n), trace, 0) == 3 * n + 3
    ensures 0 in Run(Device(n), OneWaiting(n), trace).jobs
    ensures Run(Device(n), OneWaiting(n), trace).jobs[0].message.status.Delivered?
  {
    hide Run, StatusChanges, Stands, Waits, FailedAgain;
    OneWaitingIsReached(Device(n), n);
    var before, job := FailedAttempts(n, n - 1);
    var failed := AnotherAttempt(n, n - 1, before, job, 3 * (n - 1));
    AnAttemptFails(job, n, n - 1);
    AttemptStartsQueued(job, n, n - 1);
    var end: Job;
    trace, end := LateEnd(n, failed, FailedAgain(job, n - 1), n, 3 * n, DueAt(job));
    StandsMeans(n, trace, end, n, 3 * n + 3);
  }
}
