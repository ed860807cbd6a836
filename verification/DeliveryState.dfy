/** The platform's state, and the fixed facts about its fleet. */
module DeliveryState {
  import opened SmsTypes
  import opened RecipientAllowance

  /** A device serves nobody, the pool, or one tenant. */
  datatype Assignment = Unassigned | Pool | Owned(tenant: TenantId)

  /** A SIM joined with its device and its operator: the columns nobody changes during a
      run. `operatorLimit` is the operator's cap, when the operator is known. */
  datatype SimRow = SimRow(
    slot: nat, smsPerMinute: int, dailyRecipientLimit: Option<nat>, dailyQuota: Option<nat>,
    gateway: GatewayId, gatewayPriority: int, maxInFlight: nat, gatewaySmsPerMinute: Option<int>,
    operator: Option<OperatorId>, operatorLimit: Option<nat>)

  datatype FillStrategy = Sequential | Spread

  /** `billingDay` is the operator's calendar: any function from instants to days. */
  datatype Fleet = Fleet(
    sims: map<SimId, SimRow>,
    defaultLimit: Option<nat>,
    strategy: FillStrategy,
    billingDay: Instant -> Day)

  /** A device has at most one SIM per slot, and one row of its own. */
  ghost predicate IsJoin(fleet: Fleet) {
    forall s, t :: s in fleet.sims && t in fleet.sims && fleet.sims[s].gateway == fleet.sims[t].gateway ==>
      && (fleet.sims[s].slot == fleet.sims[t].slot ==> s == t)
      && fleet.sims[s].gatewayPriority == fleet.sims[t].gatewayPriority
      && fleet.sims[s].gatewaySmsPerMinute == fleet.sims[t].gatewaySmsPerMinute
  }

  /** `next_available_at` of each SIM and device; an absent key is NULL. */
  datatype Pacing = Pacing(sims: map<SimId, Instant>, gateways: map<GatewayId, Instant>)

  /** `sent_today` and `counter_date` of a SIM. */
  datatype Counter = Counter(sentToday: nat, counterDate: Option<Day>)

  /** A job written to a device's socket. */
  datatype HandOff = HandOff(sim: SimId, gateway: GatewayId, at: Instant)

  /** The rows every transaction works on. A SIM absent from `counters` has the column
      defaults. `handOffs` records what devices were handed, oldest first. */
  datatype Db = Db(
    jobs: Jobs,
    ledger: Ledger,
    counters: map<SimId, Counter>,
    pacing: Pacing,
    assignments: map<GatewayId, Assignment>,
    handOffs: seq<HandOff>)

  const EMPTY_DB := Db(map[], map[], map[], Pacing(map[], map[]), map[], [])

  function CounterOf(counters: map<SimId, Counter>, sim: SimId): Counter {
    if sim in counters then counters[sim] else Counter(0, None)
  }

  /** The sends counted against a SIM on a day: a counter of another day reads as none. */
  function CountedOn(counters: map<SimId, Counter>, sim: SimId, day: Day): nat {
    if CounterOf(counters, sim).counterDate == Some(day) then CounterOf(counters, sim).sentToday else 0
  }

  function AssignmentOf(db: Db, g: GatewayId): Assignment {
    if g in db.assignments then db.assignments[g] else Unassigned
  }

  /** The slot a SIM spends when it carries a message to `recipient` at `at`. */
  function SlotAt(fleet: Fleet, sim: SimId, recipient: Recipient, at: Instant): Slot {
    Slot(sim, fleet.billingDay(at), recipient)
  }

  function AttemptSlot(fleet: Fleet, job: Job, k: nat): Slot
    requires k in job.attempts
  {
    SlotAt(fleet, job.attempts[k].sim, job.message.recipient, job.attempts[k].startedAt)
  }

  /** Messages a device has been given and not reported on, by SIM. */
  function InFlightOn(jobs: Jobs, sim: SimId): set<MessageId> {
    set m | m in jobs && InFlight(jobs[m].message.status) && jobs[m].message.sim == Some(sim)
  }

  /** One more message counted against a SIM's daily message quota. */
  function CountAgainstDailyQuota(counters: map<SimId, Counter>, sim: SimId, today: Day): map<SimId, Counter> {
    var was := CounterOf(counters, sim);
    counters[sim := Counter(if was.counterDate == Some(today) then was.sentToday + 1 else 1, Some(today))]
  }
}
