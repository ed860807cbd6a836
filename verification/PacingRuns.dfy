/** No SIM and no rated device is handed more messages in a minute than its rate. */
module PacingRuns {
  import opened SmsTypes
  import opened MessageJob
  import opened DeliveryState
  import opened SimPacing
  import opened RecipientAllowance
  import opened SimProfileSelector
  import opened DeliveryProtocol

  // ---- rates and windows ------------------------------------------------------------------------

  ghost predicate Spaced(log: seq<Instant>, spacing: real) {
    forall i :: 0 <= i < |log| - 1 ==> log[i] + spacing <= log[i + 1]
  }

  /** The entries of a log that fall into the half-open minute from `from`. */
  ghost function Minute(log: seq<Instant>, from: Instant): set<nat> {
    set i: nat | i < |log| && from <= log[i] < from + 60.0
  }

  lemma {:induction false} SpacedApart(log: seq<Instant>, spacing: real, i: nat, j: nat)
    requires Spaced(log, spacing) && spacing >= 0.0 && i <= j < |log|
    ensures log[i] + (j - i) as real * spacing <= log[j]
    decreases j - i
  {
    if i < j {
      SpacedApart(log, spacing, i, j - 1);
      assert (j - i) as real * spacing == (j - 1 - i) as real * spacing + spacing;
    }
  }

  lemma DivideAndMultiply(a: real, r: real)
    requires a > 0.0 && r > 0.0
    ensures r * (a / r) == a && a / r > 0.0
  {
  }

  lemma CancelFactor(a: real, b: real, c: real)
    requires c > 0.0 && a * c < b * c
    ensures a < b
  {
  }

  lemma SpacingFillsMinute(rate: int)
    ensures var r := Max(1, rate) as real; r * Spacing(rate) == 60.0
    ensures Spacing(rate) > 0.0
  {
    var r := Max(1, rate) as real;
    assert r >= 1.0;
    DivideAndMultiply(60.0, r);
    assert Spacing(rate) == 60.0 / r;
    assert r * Spacing(rate) == 60.0;
  }

  lemma IntervalSize(s: set<nat>, from: nat, n: nat)
    requires forall i :: i in s ==> from <= i < from + n
    ensures |s| <= n
  {
    if n > 0 {
      var top := from + n - 1;
      IntervalSize(s - {top}, from, n - 1);
      assert s <= (s - {top}) + {top};
    } else {
      assert s == {};
    }
  }

  lemma Least(s: set<nat>) returns (least: nat)
    requires s != {}
    ensures least in s && forall i :: i in s ==> least <= i
  {
    var x :| x in s;
    least := x;
    if s != {x} {
      var rest := Least(s - {x});
      assert forall i :: i in s ==> i == x || i in s - {x};
      if rest < x { least := rest; }
    }
  }

  lemma FewInAMinute(log: seq<Instant>, rate: int, i: nat, j: nat)
    requires Spaced(log, Spacing(rate)) && i <= j < |log| && log[j] < log[i] + 60.0
    ensures j < i + Max(1, rate)
  {
    var r, d, spacing := Max(1, rate) as real, (j - i) as real, Spacing(rate);
    SpacingFillsMinute(rate);
    SpacedApart(log, spacing, i, j);
    CancelFactor(d, r, spacing);
  }

  lemma SpacedLogKeepsRate(log: seq<Instant>, rate: int, from: Instant)
    requires Spaced(log, Spacing(rate))
    ensures |Minute(log, from)| <= Max(1, rate)
  {
    var minute := Minute(log, from);
    if minute != {} {
      var first := Least(minute);
      forall j | j in minute ensures first <= j < first + Max(1, rate) {
        FewInAMinute(log, rate, first, j);
      }
      IntervalSize(minute, first, Max(1, rate));
    }
  }

  // ---- the hand-offs of one SIM, of one device ------------------------------------------------------

  function SimLog(handOffs: seq<HandOff>, sim: SimId): seq<Instant> {
    if handOffs == [] then []
    else
      var last := handOffs[|handOffs| - 1];
      var earlier := SimLog(handOffs[..|handOffs| - 1], sim);
      if last.sim == sim then earlier + [last.at] else earlier
  }

  function GatewayLog(handOffs: seq<HandOff>, gateway: GatewayId): seq<Instant> {
    if handOffs == [] then []
    else
      var last := handOffs[|handOffs| - 1];
      var earlier := GatewayLog(handOffs[..|handOffs| - 1], gateway);
      if last.gateway == gateway then earlier + [last.at] else earlier
  }

  /** The log keeps its spacing, and the next entry will: it is not due before `next`. */
  ghost predicate KeepsPace(log: seq<Instant>, spacing: real, next: Instant) {
    && Spaced(log, spacing)
    && (log != [] ==> log[|log| - 1] + spacing <= next)
  }

  ghost predicate SimPaced(fleet: Fleet, pacing: Pacing, handOffs: seq<HandOff>, clock: Instant, sim: SimId)
    requires sim in fleet.sims
  {
    KeepsPace(SimLog(handOffs, sim), Spacing(fleet.sims[sim].smsPerMinute), SimFreeFrom(pacing, sim, clock))
  }

  /** The device of `sim`, where devices are paced as well. */
  ghost predicate DevicePaced(fleet: Fleet, pacing: Pacing, handOffs: seq<HandOff>, clock: Instant, sim: SimId)
    requires sim in fleet.sims
  {
    var gateway := fleet.sims[sim].gateway;
    GatewayRate(fleet, sim).Some? ==>
      KeepsPace(GatewayLog(handOffs, gateway), Spacing(GatewayRate(fleet, sim).value),
                GatewayFreeFrom(pacing, gateway, clock))
  }

  ghost predicate PacingInv(fleet: Fleet, pacing: Pacing, handOffs: seq<HandOff>, clock: Instant) {
    forall sim :: sim in fleet.sims ==>
      SimPaced(fleet, pacing, handOffs, clock, sim) && DevicePaced(fleet, pacing, handOffs, clock, sim)
  }

  lemma SameAvailabilityKeepsPace(fleet: Fleet, pacing: Pacing, pacing': Pacing, handOffs: seq<HandOff>,
                                  clock: Instant, now: Instant)
    requires PacingInv(fleet, pacing, handOffs, clock) && clock <= now && SameAvailability(pacing, pacing', now)
    ensures PacingInv(fleet, pacing', handOffs, now)
  {
    hide Spaced, SimLog, GatewayLog, Spacing;
    forall sim | sim in fleet.sims
      ensures SimPaced(fleet, pacing', handOffs, now, sim) && DevicePaced(fleet, pacing', handOffs, now, sim)
    {
      var gateway := fleet.sims[sim].gateway;
      assert SimPaced(fleet, pacing, handOffs, clock, sim) && DevicePaced(fleet, pacing, handOffs, clock, sim);
      assert SimFreeFrom(pacing, sim, clock) <= SimFreeFrom(pacing', sim, now);
      assert GatewayFreeFrom(pacing, gateway, clock) <= GatewayFreeFrom(pacing', gateway, now);
    }
  }

  /** `sim` was free, as was its device, and now both are taken for one spacing; nothing else
      changed for anyone. */
  ghost predicate Takes(fleet: Fleet, before: Pacing, after: Pacing, sim: SimId, now: Instant)
    requires sim in fleet.sims
  {
    var info, rate := fleet.sims[sim], GatewayRate(fleet, sim);
    && SimFreeFrom(before, sim, now) == now
    && (rate.Some? ==> GatewayFreeFrom(before, info.gateway, now) == now)
    && (forall s :: s != sim ==> SimFreeFrom(after, s, now) == SimFreeFrom(before, s, now))
    && (forall g :: g != info.gateway || rate.None? ==>
          GatewayFreeFrom(after, g, now) == GatewayFreeFrom(before, g, now))
    && SimFreeFrom(after, sim, now) == now + Spacing(info.smsPerMinute)
    && (rate.Some? ==> GatewayFreeFrom(after, info.gateway, now) == now + Spacing(rate.value))
    && SameAvailability(before, Unreserve(fleet, after, sim), now)
  }

  lemma ReserveTakes(fleet: Fleet, pacing: Pacing, sim: SimId, now: Instant)
    requires sim in fleet.sims
    ensures var (ok, after) := Reserve(fleet, pacing, sim, now);
            if ok then Takes(fleet, pacing, after, sim, now) else SameAvailability(pacing, after, now)
  {
    hide Spacing;
    ReserveOutcomes(fleet, pacing, sim, now);
    SpacingFillsMinute(fleet.sims[sim].smsPerMinute);
    if GatewayRate(fleet, sim).Some? { SpacingFillsMinute(GatewayRate(fleet, sim).value); }
  }

  lemma TakesAfterSame(fleet: Fleet, a: Pacing, b: Pacing, c: Pacing, sim: SimId, now: Instant)
    requires sim in fleet.sims && SameAvailability(a, b, now) && Takes(fleet, b, c, sim, now)
    ensures Takes(fleet, a, c, sim, now)
  {
    hide SimFreeFrom, GatewayFreeFrom, Spacing;
  }

  ghost predicate WalkPaced(fleet: Fleet, pacing: Pacing, now: Instant, route: Route) {
    match route
    case Lost(after) => SameAvailability(pacing, after, now)
    case Routed(sim, after, _) => sim in fleet.sims && Takes(fleet, pacing, after, sim, now)
  }

  lemma {:induction false} WalkTakes(fleet: Fleet, pacing: Pacing, ledger: Ledger, recipient: Recipient, now: Instant,
                                     cs: seq<Candidate>)
    requires AreFleetSims(fleet, cs)
    ensures WalkPaced(fleet, pacing, now, Walk(fleet, pacing, ledger, recipient, now, cs))
    decreases |cs|
  {
    hide Claim, SlotAt, Takes, Reserve, Unreserve, WalkPaced;
    if cs == [] {
      LostAtOnce(fleet, pacing, now);
    } else {
      var sim := cs[0].sim;
      var (reserved, held) := Reserve(fleet, pacing, sim, now);
      ReserveTakes(fleet, pacing, sim, now);
      if !reserved {
        WalkTakes(fleet, held, ledger, recipient, now, cs[1..]);
        WalkGoesOn(fleet, pacing, held, now, Walk(fleet, held, ledger, recipient, now, cs[1..]));
      } else {
        var undone := Unreserve(fleet, held, sim);
        WalkTakes(fleet, undone, ledger, recipient, now, cs[1..]);
        UndoneIsUnseen(fleet, pacing, held, sim, now);
        WalkGoesOn(fleet, pacing, undone, now, Walk(fleet, undone, ledger, recipient, now, cs[1..]));
        RouteTaken(fleet, pacing, now,
                   Routed(sim, held, Claim(ledger, SlotAt(fleet, sim, recipient, now), cs[0].recipientLimit).1));
      }
    }
  }

  lemma LostAtOnce(fleet: Fleet, pacing: Pacing, now: Instant)
    ensures WalkPaced(fleet, pacing, now, Lost(pacing))
  {
  }

  lemma RouteTaken(fleet: Fleet, pacing: Pacing, now: Instant, route: Route)
    requires route.Routed? && route.sim in fleet.sims && Takes(fleet, pacing, route.pacing, route.sim, now)
    ensures WalkPaced(fleet, pacing, now, route)
  {
  }

  lemma WalkGoesOn(fleet: Fleet, a: Pacing, b: Pacing, now: Instant, route: Route)
    requires SameAvailability(a, b, now) && WalkPaced(fleet, b, now, route)
    ensures WalkPaced(fleet, a, now, route)
  {
    hide SimFreeFrom, GatewayFreeFrom, Takes;
    if route.Routed? { TakesAfterSame(fleet, a, b, route.pacing, route.sim, now); }
  }

  lemma UndoneIsUnseen(fleet: Fleet, before: Pacing, after: Pacing, sim: SimId, now: Instant)
    requires sim in fleet.sims && Takes(fleet, before, after, sim, now)
    ensures SameAvailability(before, Unreserve(fleet, after, sim), now)
  {
    hide SimFreeFrom, GatewayFreeFrom, Spacing;
  }

  lemma PaceGoesOn(log: seq<Instant>, spacing: real, was: Instant, now: Instant, next: Instant)
    requires KeepsPace(log, spacing, was)
    ensures was <= next ==> KeepsPace(log, spacing, next)
    ensures was <= now && now + spacing <= next ==> KeepsPace(log + [now], spacing, next)
  {
  }

  lemma LogsGrow(handOffs: seq<HandOff>, sim: SimId, gateway: GatewayId, now: Instant, s: SimId, g: GatewayId)
    ensures var all := handOffs + [HandOff(sim, gateway, now)];
            && SimLog(all, s) == (if s == sim then SimLog(handOffs, s) + [now] else SimLog(handOffs, s))
            && GatewayLog(all, g) == (if g == gateway then GatewayLog(handOffs, g) + [now] else GatewayLog(handOffs, g))
  {
    var all := handOffs + [HandOff(sim, gateway, now)];
    assert all[..|all| - 1] == handOffs;
  }

  lemma HandOffKeepsOnePace(fleet: Fleet, pacing: Pacing, pacing': Pacing, handOffs: seq<HandOff>, clock: Instant,
                            now: Instant, sim: SimId, s: SimId)
    requires IsJoin(fleet) && sim in fleet.sims && s in fleet.sims
    requires SimPaced(fleet, pacing, handOffs, clock, s) && DevicePaced(fleet, pacing, handOffs, clock, s)
    requires clock <= now && Takes(fleet, pacing, pacing', sim, now)
    ensures var all := handOffs + [HandOff(sim, fleet.sims[sim].gateway, now)];
            SimPaced(fleet, pacing', all, now, s) && DevicePaced(fleet, pacing', all, now, s)
  {
    hide KeepsPace, Spacing, SimLog, GatewayLog, SameAvailability, Unreserve;
    var gateway := fleet.sims[s].gateway;
    LogsGrow(handOffs, sim, fleet.sims[sim].gateway, now, s, gateway);
    assert SimFreeFrom(pacing, s, clock) <= SimFreeFrom(pacing, s, now);
    assert GatewayFreeFrom(pacing, gateway, clock) <= GatewayFreeFrom(pacing, gateway, now);
    PaceGoesOn(SimLog(handOffs, s), Spacing(fleet.sims[s].smsPerMinute),
               SimFreeFrom(pacing, s, clock), now, SimFreeFrom(pacing', s, now));
    if GatewayRate(fleet, s).Some? {
      PaceGoesOn(GatewayLog(handOffs, gateway), Spacing(GatewayRate(fleet, s).value),
                 GatewayFreeFrom(pacing, gateway, clock), now, GatewayFreeFrom(pacing', gateway, now));
    }
  }

  lemma HandOffKeepsPace(fleet: Fleet, pacing: Pacing, pacing': Pacing, handOffs: seq<HandOff>, clock: Instant,
                         now: Instant, sim: SimId)
    requires IsJoin(fleet) && sim in fleet.sims
    requires PacingInv(fleet, pacing, handOffs, clock) && clock <= now && Takes(fleet, pacing, pacing', sim, now)
    ensures PacingInv(fleet, pacing', handOffs + [HandOff(sim, fleet.sims[sim].gateway, now)], now)
  {
    hide SimPaced, DevicePaced, Takes, IsJoin;
    var all := handOffs + [HandOff(sim, fleet.sims[sim].gateway, now)];
    forall s | s in fleet.sims
      ensures SimPaced(fleet, pacing', all, now, s) && DevicePaced(fleet, pacing', all, now, s)
    {
      HandOffKeepsOnePace(fleet, pacing, pacing', handOffs, clock, now, sim, s);
    }
  }

  // ---- runs -----------------------------------------------------------------------------------------

  lemma OnlyDispatchPaces(fleet: Fleet, db: Db, now: Instant, action: Action)
    requires !action.Dispatch?
    ensures Step(fleet, db, now, action).pacing == db.pacing && Step(fleet, db, now, action).handOffs == db.handOffs
  {
  }

  lemma DispatchKeepsPace(fleet: Fleet, db: Db, clock: Instant, m: MessageId, now: Instant, choice: Choice)
    requires IsJoin(fleet) && PacingInv(fleet, db.pacing, db.handOffs, clock) && clock <= now
    ensures var after := DispatchOne(fleet, db, m, now, choice);
            PacingInv(fleet, after.pacing, after.handOffs, now)
  {
    hide PacingInv, Takes, IsJoin, Assign, Requeue, Defer, MarkExpired, MarkUndeliverable, Release, IsFetch, IsRanking,
         Plan;
    SameAvailabilityKeepsPace(fleet, db.pacing, db.pacing, db.handOffs, clock, now);
    if m in db.jobs && Due(db.jobs[m].message, now) {
      var job := db.jobs[m];
      if !IsExpiredAt(job.message, now) && job.message.hasBody && IsChoice(fleet, db, job, now, choice) {
        var cs := Candidates(fleet, db, job.message.recipient, now, choice.rows);
        PlanStaysInFleet(fleet, cs, choice.ranked, fleet.strategy, now);
        var plan := Plan(cs, choice.ranked, fleet.strategy, now);
        if plan.Try? {
          WalkTakes(fleet, db.pacing, db.ledger, job.message.recipient, now, plan.candidates);
          var route := Walk(fleet, db.pacing, db.ledger, job.message.recipient, now, plan.candidates);
          if route.Lost? {
            SameAvailabilityKeepsPace(fleet, db.pacing, route.pacing, db.handOffs, clock, now);
          } else {
            HandOffKeepsPace(fleet, db.pacing, route.pacing, db.handOffs, clock, now, route.sim);
            UndoneIsUnseen(fleet, db.pacing, route.pacing, route.sim, now);
            SameAvailabilityKeepsPace(
              fleet, db.pacing, Unreserve(fleet, route.pacing, route.sim), db.handOffs, clock, now);
          }
        }
      }
    }
  }

  /** The clock does not run backwards from one transaction to the next. */
  ghost predicate InClockOrder(trace: seq<Event>) {
    forall i, j :: 0 <= i < j < |trace| ==> trace[i].now <= trace[j].now
  }

  lemma {:induction false} RunsKeepPace(fleet: Fleet, trace: seq<Event>, clock: Instant)
    requires IsJoin(fleet) && InClockOrder(trace)
    requires trace != [] ==> clock == trace[|trace| - 1].now
    ensures var db := Run(fleet, EMPTY_DB, trace);
            PacingInv(fleet, db.pacing, db.handOffs, clock)
    decreases |trace|
  {
    hide PacingInv, Step, IsJoin;
    if trace == [] {
      EmptyKeepsPace(fleet, clock);
    } else {
      var n := |trace| - 1;
      var before := Run(fleet, EMPTY_DB, trace[..n]);
      var earlier := if n == 0 then clock else trace[n - 1].now;
      RunsKeepPace(fleet, trace[..n], earlier);
      StepKeepsPace(fleet, before, earlier, trace[n].now, trace[n].action);
    }
  }

  lemma EmptyKeepsPace(fleet: Fleet, clock: Instant)
    ensures PacingInv(fleet, EMPTY_DB.pacing, EMPTY_DB.handOffs, clock)
  {
  }

  lemma StepKeepsPace(fleet: Fleet, db: Db, clock: Instant, now: Instant, action: Action)
    requires IsJoin(fleet) && PacingInv(fleet, db.pacing, db.handOffs, clock) && clock <= now
    ensures var after := Step(fleet, db, now, action);
            PacingInv(fleet, after.pacing, after.handOffs, now)
  {
    hide PacingInv, IsJoin, DispatchOne;
    if action.Dispatch? {
      DispatchKeepsPace(fleet, db, clock, action.m, now, action.choice);
    } else {
      OnlyDispatchPaces(fleet, db, now, action);
      SameAvailabilityKeepsPace(fleet, db.pacing, db.pacing, db.handOffs, clock, now);
    }
  }

  /** In every run, in every half-open minute: a SIM is handed at most its rate, and a device
      with a rate of its own at most that rate over all its SIMs together. */
  lemma NoMinuteExceedsRates(fleet: Fleet, trace: seq<Event>, sim: SimId, from: Instant)
    requires IsJoin(fleet) && InClockOrder(trace) && sim in fleet.sims
    ensures var handOffs := Run(fleet, EMPTY_DB, trace).handOffs;
            var info := fleet.sims[sim];
            && |Minute(SimLog(handOffs, sim), from)| <= Max(1, info.smsPerMinute)
            && (info.gatewaySmsPerMinute.Some? ==>
                  |Minute(GatewayLog(handOffs, info.gateway), from)| <= Max(1, info.gatewaySmsPerMinute.value))
  {
    hide Spaced, Run, Step;
    var clock := if trace == [] then 0.0 else trace[|trace| - 1].now;
    RunsKeepPace(fleet, trace, clock);
    var db := Run(fleet, EMPTY_DB, trace);
    assert SimPaced(fleet, db.pacing, db.handOffs, clock, sim);
    assert DevicePaced(fleet, db.pacing, db.handOffs, clock, sim);
    SpacedLogKeepsRate(SimLog(db.handOffs, sim), fleet.sims[sim].smsPerMinute, from);
    if fleet.sims[sim].gatewaySmsPerMinute.Some? {
      var info := fleet.sims[sim];
      SpacedLogKeepsRate(GatewayLog(db.handOffs, info.gateway), info.gatewaySmsPerMinute.value, from);
    }
  }
}
