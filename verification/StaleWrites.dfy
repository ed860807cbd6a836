/** The two writes that act on a status read earlier, and what they may overwrite. */
module StaleWrites {
  import opened SmsTypes
  import opened MessageJob
  import opened MessageLaws
  import opened PublishedEvents

  /** The deadline sweep's transaction by itself: its re-check under the row lock is only
      that the message is not terminal. */
  function ExpireUnlessTerminal(job: Job): Job {
    if IsTerminal(job.message.status) then job else Expire(job)
  }

  /** Left to its own re-check, the sweep is sound for exactly the messages that are not at
      `sent`: that status is not terminal, so a success between the select and the lock
      would be overwritten. */
  lemma DeadlineRecheckIsSoundIff(job: Job)
    requires JobInv(job) && Truthful(job)
    ensures JobInv(ExpireUnlessTerminal(job)) && Truthful(ExpireUnlessTerminal(job)) <==> !job.message.status.Sent?
  {
    hide Rank;
    var after := ExpireUnlessTerminal(job);
    assert after.attempts == job.attempts;
    assert HasSent(after) <==> HasSent(job);
  }

  /** The lease sweep's re-check is another matter: a lease that ran out on a message that has not
      ended is all its query asked for, so the query may be as old as it likes. */
  lemma LeaseRecheckIsEnough(job: Job, now: Instant)
    requires JobInv(job)
    ensures LeaseExpired(job.message, now)
       <==> job.message.leaseExpiresAt.Some? && job.message.leaseExpiresAt.value <= now
            && !IsTerminal(job.message.status)
  {
  }

  /** Saving a cancellation over whatever the row has become keeps the record sound if and only
      if nothing has been published about the message. There are two ways to fail: it was sent,
      and the row now denies it; or it ended, and the tenant is told of a second ending. */
  lemma UnlockedCancelIsSoundIff(job: Job)
    requires JobInv(job) && Truthful(job)
    ensures JobInv(Cancel(job)) && Truthful(Cancel(job)) <==> job.published == []
    ensures JobInv(Cancel(job)) <==> !WasSent(job.message)
    ensures Truthful(Cancel(job)) <==> job.published == []
    ensures job.published == []
       <==> IsWaiting(job.message.status) || InFlight(job.message.status) || EndedSilently(job)
  {
    hide Rank;
    assert HasSent(Cancel(job)) <==> HasSent(job);
  }

  /** The endings only a dispatch makes: expired, or found without a body, and never announced. */
  predicate EndedSilently(job: Job) {
    && job.published == []
    && (job.message.status.Expired? || (job.message.status.Failed? && job.message.error == Some(BODY_UNAVAILABLE)))
  }

  /** The second way at its plainest: a cancel that read the message while a device held it, and
      is saved after the last attempt failed. Nothing was sent, and the events break. */
  lemma CancelAfterFailureAnnouncesTwice(request: Accepted, sim: SimId, gateway: GatewayId, now: Instant,
                                         random: Random)
    requires request.maxAttempts == 1
    ensures var failed := ApplyFailure(Assign(NewJob(request), sim, gateway, now), Missing, now, random);
            && JobInv(failed) && Truthful(failed) && !WasSent(failed.message)
            && Cancel(failed).published == [SmsFailed, SmsCancelled]
            && !IsLifecycle(Cancel(failed).published)
  {
    var given := Assign(NewJob(request), sim, gateway, now);
    assert given.attempts == map[1 := Attempt(sim, gateway, AttemptAssigned, None, now)];
    var failed := ApplyFailure(given, Missing, now, random);
    assert [SmsFailed, SmsCancelled][1..] == [SmsCancelled];
    hide Rank, RetryOrFail;
    assert JobInv(given);
    RetryOrFailKeepsInv(given, AttemptFailed, GENERIC_FAILURE, now, random);
  }

  /** The same after the deadline sweep: the message expired, and is then cancelled as well. */
  lemma CancelAfterSweepAnnouncesTwice(job: Job)
    requires JobInv(job) && Truthful(job) && IsWaiting(job.message.status)
    ensures Cancel(Expire(job)).published == [SmsExpired, SmsCancelled]
    ensures !IsLifecycle(Cancel(Expire(job)).published)
  {
    assert [SmsExpired, SmsCancelled][1..] == [SmsCancelled];
  }
}
