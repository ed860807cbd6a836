/** Retry decisions, and the waits between attempts. */
module RetryPolicy {
  import opened SmsTypes

  const BACKOFF_SECONDS: seq<int> := [5, 30, 120]
  const NO_CAPACITY_BACKOFF_SECONDS := 5

  datatype RetryDecision =
    | Retry(delaySeconds: int)
    | Stop(reason: StopReason)

  datatype StopReason = Permanent | Exhausted

  /** `Math.round`: halves go up. */
  function Round(x: real): int {
    (x + 0.5).Floor
  }

  function WithJitter(seconds: int, random: Random): int {
    var spread := seconds as real * 0.25;
    Max(1, Round(seconds as real - spread + random * spread * 2.0))
  }

  function NoCapacityDelaySeconds(random: Random): int {
    WithJitter(NO_CAPACITY_BACKOFF_SECONDS, random)
  }

  function BackoffIndex(attempts: int): int {
    Max(0, Min(attempts - 1, |BACKOFF_SECONDS| - 1))
  }

  function DecideRetry(error: Option<ErrorCode>, attempts: int, maxAttempts: int, random: Random): RetryDecision {
    if IsPermanentError(error) then Stop(Permanent)
    else if attempts >= maxAttempts then Stop(Exhausted)
    else Retry(WithJitter(BACKOFF_SECONDS[BackoffIndex(attempts)], random))
  }

  /** A draw keeps a wait within a quarter of its base, and never below a second. */
  lemma JitterStaysNearBase(seconds: int, random: Random)
    requires seconds >= 0
    ensures 1 <= WithJitter(seconds, random)
    ensures 4 * WithJitter(seconds, random) >= 3 * seconds - 2
    ensures seconds >= 1 ==> 4 * WithJitter(seconds, random) <= 5 * seconds + 3
  {
    var spread := seconds as real * 0.25;
    assert 0.0 <= random * spread <= spread;
    var x := seconds as real - spread + random * spread * 2.0;
    assert 0.75 * (seconds as real) <= x <= 1.25 * (seconds as real);
    assert Round(x) as real <= x + 0.5 < Round(x) as real + 1.0;
  }

  lemma DrawOf(s: real, above: real) returns (random: Random)
    requires s > 0.0 && 0.0 <= above < 0.5 * s
    ensures random * (s * 0.25) * 2.0 == above
  {
    var half := 0.5 * s;
    var r := above / half;
    assert r * half == above;
    assert 0.0 <= r < 1.0;
    random := r;
    assert random * (s * 0.25) * 2.0 == random * half;
  }

  lemma DrawsStayWithin(spread: real, random: Random)
    requires spread > 0.0
    ensures 0.0 <= random * spread < spread
  {
  }

  lemma RoundsTo(x: real, n: int)
    ensures Round(x) == n <==> n as real - 0.5 <= x < n as real + 0.5
  {
  }

  lemma WaitIsDrawn(seconds: nat, wait: nat) returns (random: Random)
    requires seconds >= 1 && wait >= 1 && 3 * seconds - 2 < 4 * wait < 5 * seconds + 2
    ensures WithJitter(seconds, random) == wait
  {
    var s := seconds as real;
    var low := 0.75 * s;
    var x := if wait as real - 0.5 < low then low else wait as real - 0.5;
    random := DrawOf(s, x - low);
    assert s - s * 0.25 + random * (s * 0.25) * 2.0 == x;
    RoundsTo(x, wait);
  }

  lemma RoundedQuarter(seconds: nat, x: real)
    requires seconds >= 1 && 0.75 * seconds as real <= x < 1.25 * seconds as real
    ensures 1 <= Round(x) && 3 * seconds - 2 < 4 * Round(x) < 5 * seconds + 2
  {
    RoundsTo(x, Round(x));
  }

  lemma DrawnWaitIsWithin(seconds: nat, random: Random)
    requires seconds >= 1
    ensures 3 * seconds - 2 < 4 * WithJitter(seconds, random) < 5 * seconds + 2
  {
    hide Round;
    var spread := seconds as real * 0.25;
    DrawsStayWithin(spread, random);
    RoundedQuarter(seconds, seconds as real - spread + random * spread * 2.0);
  }

  /** Exactly the whole seconds within a quarter of the base are waited, rounding halves up. */
  lemma WaitsAreWithinAQuarterIff(seconds: nat, wait: nat)
    requires seconds >= 1 && wait >= 1
    ensures (exists random: Random :: WithJitter(seconds, random) == wait)
       <==> 3 * seconds - 2 < 4 * wait < 5 * seconds + 2
  {
    hide WithJitter;
    if 3 * seconds - 2 < 4 * wait < 5 * seconds + 2 {
      var random := WaitIsDrawn(seconds, wait);
    }
    if random: Random :| WithJitter(seconds, random) == wait {
      DrawnWaitIsWithin(seconds, random);
    }
  }

  /** Whatever is drawn, a later step of the ladder waits longer than an earlier one. */
  lemma BackoffGrows(e1: Option<ErrorCode>, a1: int, r1: Random, e2: Option<ErrorCode>, a2: int, r2: Random,
                     maxAttempts: int)
    requires BackoffIndex(a1) < BackoffIndex(a2)
    requires DecideRetry(e1, a1, maxAttempts, r1).Retry? && DecideRetry(e2, a2, maxAttempts, r2).Retry?
    ensures DecideRetry(e1, a1, maxAttempts, r1).delaySeconds < DecideRetry(e2, a2, maxAttempts, r2).delaySeconds
  {
    JitterStaysNearBase(BACKOFF_SECONDS[BackoffIndex(a1)], r1);
    JitterStaysNearBase(BACKOFF_SECONDS[BackoffIndex(a2)], r2);
  }
}
