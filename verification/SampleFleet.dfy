/** A device with any number of SIMs and one message waiting for it: the starting point of the
    concrete runs. */
module SampleFleet {
  import opened SmsTypes
  import opened MessageJob
  import opened DeliveryState
  import opened DeliveryProtocol

  function FirstSims(n: nat): (sims: set<SimId>)
    ensures |sims| == n
    ensures forall s: SimId :: s in sims <==> s < n
  {
    if n == 0 then {}
    else
      var before := FirstSims(n - 1);
      assert n - 1 !in before;
      before + {n - 1}
  }

  const ROW := SimRow(0, 60, None, None, 0, 0, 1, None, None, None)

  /** One device with `n` SIMs, without limits. */
  function Device(n: nat): Fleet {
    Fleet(map s | s in FirstSims(n) :: ROW.(slot := s), None, Sequential, (at: Instant) => 0)
  }

  /** One SIM, which may take one number a day. */
  function Capped(): Fleet {
    Fleet(map[0 := ROW.(dailyRecipientLimit := Some(1))], None, Sequential, (at: Instant) => 0)
  }

  function Asked(attempts: MaxAttempts): Accepted {
    Accepted(0, "+998901234567", attempts, None, None, None, None, true)
  }

  /** The device serves the pool, and one message is queued that may be tried so many times. */
  function OneWaiting(attempts: MaxAttempts): Db {
    EMPTY_DB.(jobs := map[0 := NewJob(Asked(attempts))], assignments := map[0 := Pool])
  }

  lemma OneWaitingIsReached(fleet: Fleet, attempts: MaxAttempts)
    ensures Reachable(fleet, OneWaiting(attempts))
  {
    var e1, e2 := At(0.0, AssignGateway(0, Pool)), At(0.0, Accept(0, Asked(attempts)));
    assert [e1, e2][..1] == [e1] && [e1][..0] == [];
    assert Run(fleet, EMPTY_DB, [e1]) == Step(fleet, EMPTY_DB, 0.0, e1.action);
    assert Run(fleet, EMPTY_DB, [e1, e2]) == OneWaiting(attempts);
  }

  /** Two messages to one number are queued, each to be tried once. */
  function TwoWaiting(): Db {
    OneWaiting(1).(jobs := map[0 := NewJob(Asked(1)), 1 := NewJob(Asked(1))])
  }

  lemma TwoWaitingAreReached(fleet: Fleet)
    ensures Reachable(fleet, TwoWaiting())
  {
    OneWaitingIsReached(fleet, 1);
    StepReaches(fleet, OneWaiting(1), 0.0, Accept(1, Asked(1)));
    assert Step(fleet, OneWaiting(1), 0.0, Accept(1, Asked(1))) == TwoWaiting();
  }
}
