/** What the other transactions come to, read off the columns: which messages a released device
    strands, which ones a deadline or a cancellation ends, and how a message begins. */
module EndingOutcomes {
  import opened SmsTypes
  import opened MessageJob
  import opened DeliveryState
  import opened DeliveryProtocol

  /** The message ends as failed because its device was released, and its tenant is told. */
  function Released(job: Job): Job {
    Job(job.message.(status := Failed, error := Some(DEVICE_RELEASED), hasBody := false), job.attempts,
        job.published + [SmsFailed])
  }

  /** The device leaves its tenant, whose message waits for just that device. */
  predicate IsStranded(db: Db, g: GatewayId, assignment: Assignment, message: Message) {
    && g in db.assignments && db.assignments[g] == Owned(message.tenant) && assignment != Owned(message.tenant)
    && message.requestedGateway == Some(g)
    && (message.status.Created? || message.status.Queued?)
  }

  /** A device changes hands. A message changes if and only if the device was its own tenant's and is
      not any more, the message names the device, and it has not been given out: it then fails as
      released, without its body and with one event. */
  lemma ReassignmentComesTo(fleet: Fleet, db: Db, now: Instant, g: GatewayId, assignment: Assignment)
    ensures var after := Step(fleet, db, now, AssignGateway(g, assignment));
            && after == db.(jobs := after.jobs, assignments := db.assignments[g := assignment])
            && after.jobs.Keys == db.jobs.Keys
            && forall m :: m in db.jobs ==>
                 && (after.jobs[m] != db.jobs[m] <==> IsStranded(db, g, assignment, db.jobs[m].message))
                 && (after.jobs[m] != db.jobs[m] ==> after.jobs[m] == Released(db.jobs[m]))
  {
    hide Released;
    var after := Step(fleet, db, now, AssignGateway(g, assignment));
    assert after == db.(jobs := after.jobs, assignments := db.assignments[g := assignment]);
    forall m | m in db.jobs
      ensures m in after.jobs
      ensures after.jobs[m] != db.jobs[m] <==> IsStranded(db, g, assignment, db.jobs[m].message)
      ensures after.jobs[m] != db.jobs[m] ==> after.jobs[m] == Released(db.jobs[m])
    {
      ReleaseShows(db.jobs[m]);
    }
  }

  lemma ReleaseShows(job: Job)
    ensures FailStranded(job) == Released(job) && Released(job) != job
  {
    assert |Released(job).published| == |job.published| + 1;
  }

  /** The deadline sweep ends a message if and only if it has not been given out and its deadline has
      passed. */
  lemma DeadlineComesTo(fleet: Fleet, db: Db, now: Instant, m: MessageId)
    requires m in db.jobs
    ensures var was := db.jobs[m];
            Step(fleet, db, now, SweepDeadline(m))
              == if && (was.message.status.Created? || was.message.status.Queued?)
                    && was.message.expiresAt.Some? && was.message.expiresAt.value <= now
                 then db.(jobs := db.jobs[m := Job(
                   was.message.(status := Expired, error := Some(MESSAGE_EXPIRED), hasBody := false), was.attempts,
                   was.published + [SmsExpired])])
                 else db
  {
  }

  /** A cancellation ends a message if and only if it is the tenant's own and no device has confirmed
      that it has it. It keeps its body, and its slot. */
  lemma CancellationComesTo(fleet: Fleet, db: Db, now: Instant, tenant: TenantId, m: MessageId)
    requires m in db.jobs
    ensures var was := db.jobs[m];
            Step(fleet, db, now, CancelRequest(tenant, m))
              == if && was.message.tenant == tenant
                    && (was.message.status.Created? || was.message.status.Queued? || was.message.status.Assigned?)
                 then db.(jobs := db.jobs[m := Job(
                   was.message.(status := Cancelled, error := Some(CANCELLED_BY_CLIENT)), was.attempts,
                   was.published + [SmsCancelled])])
                 else db
  {
  }

  /** A message begins queued, untried and due at once, and nothing was published about it. */
  lemma AcceptanceComesTo(fleet: Fleet, db: Db, now: Instant, m: MessageId, request: Accepted)
    ensures Step(fleet, db, now, Accept(m, request))
         == if m in db.jobs then db
            else db.(jobs := db.jobs[m := Job(
              Message(request.tenant, request.recipient, Queued, None, None, 0, request.maxAttempts, None, None, None,
                      request.expiresAt, request.requestedOperator, request.requestedGateway, request.requestedSlot,
                      request.hasBody),
              map[], [])])
  {
  }

  /** No transaction touches a message that is not on record. */
  lemma UnknownMessagesStayUnknown(fleet: Fleet, db: Db, now: Instant, action: Action)
    requires !action.Accept? && !action.AssignGateway? && action.m !in db.jobs
    ensures Step(fleet, db, now, action) == db
  {
  }
}
