/** The tables as the services write them, one statement at a time. */
module Database {
  import opened SmsTypes
  import opened RecipientAllowance
  import opened DeliveryState
  import opened SimPacing
  import opened MessageJob

  class Tables {
    var jobs: Jobs
    var ledger: Ledger
    var counters: map<SimId, Counter>
    var simWindows: map<SimId, Instant>
    var gatewayWindows: map<GatewayId, Instant>
    var assignments: map<GatewayId, Assignment>
    var handOffs: seq<HandOff>

    constructor ()
      ensures State() == EMPTY_DB
    {
      jobs, ledger, counters := map[], map[], map[];
      simWindows, gatewayWindows, assignments, handOffs := map[], map[], map[], [];
    }

    function Windows(): Pacing
      reads this
    {
      Pacing(simWindows, gatewayWindows)
    }

    function State(): Db
      reads this
    {
      Db(jobs, ledger, counters, Windows(), assignments, handOffs)
    }

    // ---- message and attempt rows -------------------------------------------------------------

    method SaveMessage(m: MessageId, message: Message)
      requires m in jobs
      modifies this`jobs
      ensures jobs == old(jobs)[m := old(jobs[m]).(message := message)]
    {
      jobs := jobs[m := jobs[m].(message := message)];
    }

    method FinishAttempt(m: MessageId, k: nat, status: AttemptStatus, error: Option<ErrorCode>)
      requires m in jobs && k in jobs[m].attempts
      modifies this`jobs
      ensures jobs == old(jobs)[m := PutAttempt(old(jobs[m]), k, status, error)]
    {
      var attempt := jobs[m].attempts[k].(status := status, error := error);
      jobs := jobs[m := jobs[m].(attempts := jobs[m].attempts[k := attempt])];
    }

    method UpdateCurrentAttempt(m: MessageId, status: AttemptStatus, error: Option<ErrorCode>)
      requires m in jobs
      modifies this`jobs
      ensures jobs == old(jobs)[m := PutCurrentAttempt(old(jobs[m]), status, error)]
    {
      var k := jobs[m].message.attempts;
      if k in jobs[m].attempts {
        FinishAttempt(m, k, status, error);
      }
    }

    method CreateAttempt(m: MessageId, k: nat, attempt: Attempt)
      requires m in jobs
      modifies this`jobs
      ensures jobs == old(jobs)[m := old(jobs[m]).(attempts := old(jobs[m]).attempts[k := attempt])]
    {
      jobs := jobs[m := jobs[m].(attempts := jobs[m].attempts[k := attempt])];
    }

    method DeleteAttempt(m: MessageId, k: nat)
      requires m in jobs
      modifies this`jobs
      ensures jobs == old(jobs)[m := old(jobs[m]).(attempts := old(jobs[m]).attempts - {k})]
    {
      jobs := jobs[m := jobs[m].(attempts := jobs[m].attempts - {k})];
    }

    method RecordHandOff(handOff: HandOff)
      modifies this`handOffs
      ensures handOffs == old(handOffs) + [handOff]
    {
      handOffs := handOffs + [handOff];
    }

    method PublishEvent(m: MessageId, event: WebhookEvent)
      requires m in jobs
      modifies this`jobs
      ensures jobs == old(jobs)[m := Publish(old(jobs[m]), event)]
    {
      jobs := jobs[m := jobs[m].(published := jobs[m].published + [event])];
    }

    // ---- sim_daily_recipients -----------------------------------------------------------------

    /** Takes a slot, or confirms the number already holds one. */
    method ClaimSlot(slot: Slot, limit: Option<nat>) returns (outcome: ClaimOutcome)
      modifies this`ledger
      ensures (outcome, ledger) == Claim(old(ledger), slot, limit)
    {
      if slot in ledger { return Existing; }
      if limit.Some? {
        var used := |UsedSlots(ledger, slot.sim, slot.day)|;
        if used >= limit.value { return Full; }
      }
      ledger := ledger[slot := 0];
      return Claimed;
    }

    method RecordSentOn(slot: Slot)
      modifies this`ledger
      ensures ledger == RecordSent(old(ledger), slot)
    {
      if slot in ledger {
        ledger := ledger[slot := ledger[slot] + 1];
      } else {
        ledger := ledger[slot := 1];
      }
    }

    /** Hands a slot back. Its row goes exactly when it carried nothing and no other message to
        that number is in flight on that SIM; no other row goes, and no count changes. */
    method ReleaseSlot(slot: Slot, except: MessageId)
      modifies this`ledger
      ensures ledger == Release(jobs, old(ledger), slot, except)
      ensures slot in ledger <==> slot in old(ledger) && (old(ledger)[slot] != 0 || HeldByOther(jobs, slot, except))
      ensures forall any :: any != slot ==> (any in ledger <==> any in old(ledger))
      ensures forall any :: MessagesSent(ledger, any) == MessagesSent(old(ledger), any)
    {
      if slot in ledger && ledger[slot] == 0 && !HeldByOther(jobs, slot, except) {
        ledger := ledger - {slot};
      }
    }

    /** Today's count of a SIM grows by one and what was counted on other days is forgotten; no
        other SIM is touched. */
    method CountQuota(sim: SimId, today: Day)
      modifies this`counters
      ensures counters == CountAgainstDailyQuota(old(counters), sim, today)
      ensures CountedOn(counters, sim, today) == CountedOn(old(counters), sim, today) + 1
      ensures forall day :: day != today ==> CountedOn(counters, sim, day) == 0
      ensures forall other :: other != sim ==> CounterOf(counters, other) == CounterOf(old(counters), other)
    {
      var counter := CounterOf(counters, sim);
      if counter.counterDate != Some(today) {
        counters := counters[sim := Counter(1, Some(today))];
      } else {
        counters := counters[sim := counter.(sentToday := counter.sentToday + 1)];
      }
    }

    // ---- pacing windows -----------------------------------------------------------------------

    method ReserveSim(fleet: Fleet, sim: SimId, now: Instant) returns (ok: bool)
      requires sim in fleet.sims
      modifies this`simWindows, this`gatewayWindows
      ensures (ok, Windows()) == Reserve(fleet, old(Windows()), sim, now)
    {
      var info := fleet.sims[sim];
      if sim in simWindows && now < simWindows[sim] { return false; }
      simWindows := simWindows[sim := now + Spacing(info.smsPerMinute)];
      if info.gatewaySmsPerMinute.None? { return true; }
      if info.gateway !in gatewayWindows || gatewayWindows[info.gateway] <= now {
        gatewayWindows := gatewayWindows[info.gateway := now + Spacing(info.gatewaySmsPerMinute.value)];
        return true;
      }
      // The phone is not free after all: the SIM is given back.
      simWindows := simWindows - {sim};
      assert simWindows == old(simWindows) - {sim};
      return false;
    }

    /** Undoes a reservation: whatever windows it was made on, and whenever, availability from
        that moment on is as it would have been without it. */
    method ReleaseSim(fleet: Fleet, sim: SimId)
      requires sim in fleet.sims
      modifies this`simWindows, this`gatewayWindows
      ensures Windows() == Unreserve(fleet, old(Windows()), sim)
      ensures forall before: Pacing, now: Instant :: Reserve(fleet, before, sim, now) == (true, old(Windows())) ==>
                SameAvailability(before, Windows(), now)
    {
      forall before: Pacing, now: Instant | Reserve(fleet, before, sim, now) == (true, Windows())
        ensures SameAvailability(before, Unreserve(fleet, Windows(), sim), now)
      {
        ReserveOutcomes(fleet, before, sim, now);
      }
      simWindows := simWindows - {sim};
      if fleet.sims[sim].gatewaySmsPerMinute.Some? {
        gatewayWindows := gatewayWindows - {fleet.sims[sim].gateway};
      }
    }
  }
}
