/** Counting sent attempts, the independent measure the allowance ledger is held to. */
module LedgerCounts {
  import opened SmsTypes
  import opened RecipientAllowance
  import opened DeliveryState

  /** The attempts of one message that were sent on a slot. */
  function SentKeys(fleet: Fleet, job: Job, slot: Slot): set<nat> {
    set k | k in job.attempts && job.attempts[k].status.AttemptSent? && AttemptSlot(fleet, job, k) == slot
  }

  /** The attempts of all messages that were sent on a slot. */
  function SentAttempts(fleet: Fleet, jobs: Jobs, slot: Slot): set<(MessageId, nat)> {
    set m, k | m in jobs && k in SentKeys(fleet, jobs[m], slot) :: (m, k)
  }

  function Tagged(m: MessageId, ks: set<nat>): set<(MessageId, nat)> {
    set k | k in ks :: (m, k)
  }

  lemma TaggingKeepsSize(m: MessageId, ks: set<nat>)
    ensures |Tagged(m, ks)| == |ks|
  {
    if ks != {} {
      var k :| k in ks;
      TaggingKeepsSize(m, ks - {k});
      assert Tagged(m, ks) == Tagged(m, ks - {k}) + {(m, k)};
    }
  }

  /** One message's sent attempts can be counted apart from all others'. */
  lemma SentAttemptsSplit(fleet: Fleet, jobs: Jobs, m: MessageId, slot: Slot)
    requires m in jobs
    ensures |SentAttempts(fleet, jobs, slot)|
         == |SentAttempts(fleet, jobs - {m}, slot)| + |SentKeys(fleet, jobs[m], slot)|
  {
    var own := Tagged(m, SentKeys(fleet, jobs[m], slot));
    var others := SentAttempts(fleet, jobs - {m}, slot);
    assert SentAttempts(fleet, jobs, slot) == others + own;
    assert others !! own;
    TaggingKeepsSize(m, SentKeys(fleet, jobs[m], slot));
  }

  /** Replacing one message's record changes the count by what its own attempts changed. */
  lemma ReplacingShiftsCount(fleet: Fleet, jobs: Jobs, m: MessageId, job: Job, slot: Slot)
    requires m in jobs
    ensures |SentAttempts(fleet, jobs[m := job], slot)| - |SentAttempts(fleet, jobs, slot)|
         == |SentKeys(fleet, job, slot)| - |SentKeys(fleet, jobs[m], slot)|
  {
    SentAttemptsSplit(fleet, jobs, m, slot);
    SentAttemptsSplit(fleet, jobs[m := job], m, slot);
    assert jobs[m := job] - {m} == jobs - {m};
  }

  lemma SameKeysSameCount(fleet: Fleet, was: Jobs, now: Jobs, slot: Slot)
    requires was.Keys <= now.Keys
    requires forall m :: m in now ==>
              SentKeys(fleet, now[m], slot) == if m in was then SentKeys(fleet, was[m], slot) else {}
    ensures SentAttempts(fleet, now, slot) == SentAttempts(fleet, was, slot)
  {
  }
}
