/** Reserving a SIM, and the device it sits in, for one message. */
module SimPacing {
  import opened SmsTypes
  import opened DeliveryState

  function Spacing(smsPerMinute: int): real {
    60.0 / Max(1, smsPerMinute) as real
  }

  function GatewayRate(fleet: Fleet, sim: SimId): Option<int>
    requires sim in fleet.sims
  {
    fleet.sims[sim].gatewaySmsPerMinute
  }

  predicate SimFree(pacing: Pacing, sim: SimId, at: Instant) {
    sim !in pacing.sims || pacing.sims[sim] <= at
  }

  predicate GatewayFree(pacing: Pacing, gateway: GatewayId, at: Instant) {
    gateway !in pacing.gateways || pacing.gateways[gateway] <= at
  }

  function Reserve(fleet: Fleet, pacing: Pacing, sim: SimId, now: Instant): (bool, Pacing)
    requires sim in fleet.sims
  {
    var info := fleet.sims[sim];
    if !SimFree(pacing, sim, now) then (false, pacing)
    else
      var taken := pacing.(sims := pacing.sims[sim := now + Spacing(info.smsPerMinute)]);
      match GatewayRate(fleet, sim)
      case None => (true, taken)
      case Some(rate) =>
        if GatewayFree(pacing, info.gateway, now)
        then (true, taken.(gateways := pacing.gateways[info.gateway := now + Spacing(rate)]))
        else (false, pacing.(sims := pacing.sims - {sim}))
  }

  /** Clears both windows of a reservation. */
  function Unreserve(fleet: Fleet, pacing: Pacing, sim: SimId): Pacing
    requires sim in fleet.sims
  {
    Pacing(pacing.sims - {sim},
           if GatewayRate(fleet, sim).Some? then pacing.gateways - {fleet.sims[sim].gateway} else pacing.gateways)
  }

  /** The first instant, from `now` on, at which the SIM is free. */
  function SimFreeFrom(pacing: Pacing, sim: SimId, now: Instant): (from: Instant)
    ensures forall t :: t >= now ==> (SimFree(pacing, sim, t) <==> from <= t)
  {
    if SimFree(pacing, sim, now) then now else pacing.sims[sim]
  }

  function GatewayFreeFrom(pacing: Pacing, gateway: GatewayId, now: Instant): (from: Instant)
    ensures forall t :: t >= now ==> (GatewayFree(pacing, gateway, t) <==> from <= t)
  {
    if GatewayFree(pacing, gateway, now) then now else pacing.gateways[gateway]
  }

  /** From `now` on, the same SIMs and devices are free at the same times. */
  ghost predicate SameAvailability(a: Pacing, b: Pacing, now: Instant) {
    && (forall s :: SimFreeFrom(a, s, now) == SimFreeFrom(b, s, now))
    && (forall g :: GatewayFreeFrom(a, g, now) == GatewayFreeFrom(b, g, now))
  }

  /** A reservation that is refused, or undone at once, leaves availability as it was; one
      that is granted was free and holds the windows of both the SIM and a rated device. */
  lemma ReserveOutcomes(fleet: Fleet, pacing: Pacing, sim: SimId, now: Instant)
    requires sim in fleet.sims
    ensures var (ok, after) := Reserve(fleet, pacing, sim, now);
            var rate := GatewayRate(fleet, sim);
            var gateway := fleet.sims[sim].gateway;
            && (ok <==> SimFree(pacing, sim, now) && (rate.Some? ==> GatewayFree(pacing, gateway, now)))
            && (!ok ==> SameAvailability(pacing, after, now))
            && (ok ==>
                  && SameAvailability(pacing, Unreserve(fleet, after, sim), now)
                  && after == Pacing(
                                pacing.sims[sim := now + Spacing(fleet.sims[sim].smsPerMinute)],
                                if rate.Some? then pacing.gateways[gateway := now + Spacing(rate.value)]
                                else pacing.gateways))
  {
  }
}
