/** The ledger of recipients: rows of `sim_daily_recipients`, and what each statement makes of
    them. */
module RecipientAllowance {
  import opened SmsTypes

  type Jobs = map<MessageId, Job>

  datatype ClaimOutcome = Existing | Claimed | Full

  /** `messages_sent`, read as zero when the row is absent. */
  function MessagesSent(ledger: Ledger, slot: Slot): nat {
    if slot in ledger then ledger[slot] else 0
  }

  /** Distinct recipients a SIM has taken on a day. */
  function UsedSlots(ledger: Ledger, sim: SimId, day: Day): set<Slot> {
    set slot | slot in ledger && slot.sim == sim && slot.day == day
  }

  predicate HasRoom(used: nat, limit: Option<nat>) {
    limit.None? || used < limit.value
  }

  function Claim(ledger: Ledger, slot: Slot, limit: Option<nat>): (ClaimOutcome, Ledger) {
    if slot in ledger then (Existing, ledger)
    else if !HasRoom(|UsedSlots(ledger, slot.sim, slot.day)|, limit) then (Full, ledger)
    else (Claimed, ledger[slot := 0])
  }

  function RecordSent(ledger: Ledger, slot: Slot): Ledger {
    ledger[slot := MessagesSent(ledger, slot) + 1]
  }

  /** Another message to this number is in flight on this SIM, on whatever day. */
  predicate HeldByOther(jobs: Jobs, slot: Slot, except: MessageId) {
    exists m :: && m in jobs && m != except
                && InFlight(jobs[m].message.status)
                && jobs[m].message.sim == Some(slot.sim)
                && jobs[m].message.recipient == slot.recipient
  }

  function Release(jobs: Jobs, ledger: Ledger, slot: Slot, except: MessageId): Ledger {
    if slot in ledger && ledger[slot] == 0 && !HeldByOther(jobs, slot, except) then ledger - {slot} else ledger
  }

  lemma HeldByOtherIgnoresExcept(jobs: Jobs, slot: Slot, except: MessageId, job: Job)
    ensures HeldByOther(jobs[except := job], slot, except) == HeldByOther(jobs, slot, except)
  {
    var jobs' := jobs[except := job];
    if HeldByOther(jobs, slot, except) {
      var m :| m in jobs && m != except && InFlight(jobs[m].message.status)
               && jobs[m].message.sim == Some(slot.sim) && jobs[m].message.recipient == slot.recipient;
      assert m in jobs' && jobs'[m] == jobs[m];
    }
    if HeldByOther(jobs', slot, except) {
      var m :| m in jobs' && m != except && InFlight(jobs'[m].message.status)
               && jobs'[m].message.sim == Some(slot.sim) && jobs'[m].message.recipient == slot.recipient;
      assert m in jobs && jobs'[m] == jobs[m];
    }
  }

  /** Handing a slot back and taking it again changes no count, whatever was sent on it. */
  lemma ReleaseKeepsCounts(jobs: Jobs, ledger: Ledger, slot: Slot, except: MessageId, any: Slot)
    ensures MessagesSent(Release(jobs, ledger, slot, except), any) == MessagesSent(ledger, any)
  {
  }
}
