/** One token bucket of the rate limiter and a single pass of its admission
    loop. The monotonic clock is an explicit `now` argument; the lock and the
    sleep between passes are left to the caller. */
module TokenBucket {
  import opened Numbers

  /** Refill rate in tokens per second, maximum level, current level, and the
      clock reading of the last refill */
  datatype Bucket = Bucket(rps: real, capacity: real, tokens: real, last: real)

  /** The bucket invariant: a positive rate and a level between empty and full */
  predicate Valid(b: Bucket) {
    b.rps > 0.0 && 0.0 <= b.tokens <= b.capacity
  }

  /** Shortest sleep between two passes of the admission loop, in seconds */
  const MinSleep: real := 0.01
  /** Sleep used when the rate is not positive */
  const FallbackSleep: real := 0.05

  /** Tokens earned at `rps` tokens per second over `dt` seconds */
  function Earned(rps: real, dt: real): real {
    rps * dt
  }

  /** Credit the tokens earned since the last refill, up to the capacity.
      A clock reading that has not moved past `last` changes nothing. */
  function Refill(b: Bucket, now: real): (r: Bucket)
    ensures r.rps == b.rps && r.capacity == b.capacity
    ensures now <= b.last ==> r == b
    ensures now > b.last ==> r.last == now
    // never above the capacity, never more than rate * elapsed time added
    ensures now > b.last ==> r.tokens <= b.capacity
    ensures r.tokens <= b.tokens + Earned(b.rps, r.last - b.last)
    // and otherwise exactly one of the two bounds is reached
    ensures now > b.last ==> r.tokens == b.capacity || r.tokens == b.tokens + Earned(b.rps, now - b.last)
    ensures Valid(b) ==> Valid(r) && r.tokens >= b.tokens
  {
    var dt := now - b.last;
    if dt <= 0.0 then b
    else b.(tokens := Min(b.capacity, b.tokens + Earned(b.rps, dt)), last := now)
  }

  /** Outcome of one pass of the admission loop: the call goes through, or the
      caller must sleep `sleepFor` seconds and try again */
  datatype Step = Admitted(bucket: Bucket) | Wait(bucket: Bucket, sleepFor: real)

  /** One pass of `acquire(cost)` at clock reading `now`: refill, then deduct
      `cost` if enough tokens are there, else compute the sleep */
  function AcquireStep(b: Bucket, now: real, cost: real): (r: Step)
    ensures var f := Refill(b, now);
      && (r.Admitted? <==> f.tokens >= cost)
      // admission deducts exactly the cost and nothing else changes
      && (r.Admitted? ==> r.bucket.tokens + cost == f.tokens
                          && r.bucket.(tokens := f.tokens) == f)
      // a wait deducts nothing, and sleeps at least the minimum quantum
      && (r.Wait? ==> r.bucket == f && r.sleepFor >= MinSleep)
      // with a positive rate the sleep is the time needed to earn the missing tokens
      && (r.Wait? && b.rps > 0.0 ==> r.sleepFor == Max(MinSleep, (cost - f.tokens) / b.rps))
      && (r.Wait? && b.rps <= 0.0 ==> r.sleepFor == FallbackSleep)
    ensures r.bucket.rps == b.rps && r.bucket.capacity == b.capacity
    ensures Valid(b) && cost >= 0.0 ==> Valid(r.bucket)
    ensures Valid(b) && cost > b.capacity ==> r.Wait?
    // what is admitted plus what is left never exceeds what was there plus what was earned
    ensures r.bucket.tokens + (if r.Admitted? then cost else 0.0)
            <= b.tokens + Earned(b.rps, r.bucket.last - b.last)
  {
    var f := Refill(b, now);
    if f.tokens >= cost then Admitted(f.(tokens := f.tokens - cost))
    else
      var missing := cost - f.tokens;
      var sleepFor := if f.rps > 0.0 then missing / f.rps else FallbackSleep;
      Wait(f, Max(MinSleep, sleepFor))
  }

  lemma EarnedMonotonic(rps: real, a: real, b: real)
    requires a <= b && rps >= 0.0
    ensures Earned(rps, a) <= Earned(rps, b)
  {
  }

  lemma EarnedAdditive(rps: real, a: real, b: real, c: real)
    ensures Earned(rps, b - a) + Earned(rps, c - b) == Earned(rps, c - a)
  {
  }

  /** Sleeping for the computed time earns at least the missing tokens */
  lemma SleepEarnsMissing(tokens: real, cost: real, rps: real, elapsed: real)
    requires rps > 0.0 && elapsed >= (cost - tokens) / rps
    ensures tokens + Earned(rps, elapsed) >= cost
  {
    EarnedMonotonic(rps, (cost - tokens) / rps, elapsed);
  }

  /** After a wait, a caller that sleeps as told is admitted on its next pass,
      provided the cost fits in the bucket and the clock did not run backwards */
  lemma {:induction false} WaitThenAdmitted(b: Bucket, now: real, later: real, cost: real)
    requires Valid(b) && cost <= b.capacity && now >= b.last
    requires AcquireStep(b, now, cost).Wait?
    requires later >= now + AcquireStep(b, now, cost).sleepFor
    ensures AcquireStep(AcquireStep(b, now, cost).bucket, later, cost).Admitted?
  {
    var f := Refill(b, now);
    var s := AcquireStep(b, now, cost);
    assert f.last == now && f.rps == b.rps;
    assert s.bucket == f;
    assert s.sleepFor >= (cost - f.tokens) / b.rps;
    SleepEarnsMissing(f.tokens, cost, b.rps, later - now);
    var g := Refill(f, later);
    assert g.tokens >= cost;
  }

  /** A single pass at clock reading `now` with weight `cost` */
  datatype Attempt = Attempt(now: real, cost: real)

  /** Final bucket and total admitted cost after a sequence of passes */
  datatype RunResult = RunResult(bucket: Bucket, admitted: real)

  function Run(b: Bucket, attempts: seq<Attempt>): (r: RunResult)
    ensures r.bucket.rps == b.rps && r.bucket.capacity == b.capacity
    ensures |attempts| > 0 ==> r.bucket.last >= Refill(b, attempts[0].now).last
    decreases |attempts|
  {
    if |attempts| == 0 then RunResult(b, 0.0)
    else
      var s := AcquireStep(b, attempts[0].now, attempts[0].cost);
      var rest := Run(s.bucket, attempts[1..]);
      RunResult(rest.bucket, rest.admitted + if s.Admitted? then attempts[0].cost else 0.0)
  }

  predicate NonNegativeCosts(attempts: seq<Attempt>) {
    forall i :: 0 <= i < |attempts| ==> attempts[i].cost >= 0.0
  }

  predicate NotAfter(attempts: seq<Attempt>, t: real) {
    forall i :: 0 <= i < |attempts| ==> attempts[i].now <= t
  }

  /** Passes keep the bucket valid, its rate and capacity fixed, and never
      move the refill time backwards */
  lemma {:induction false} RunPreservesValid(b: Bucket, attempts: seq<Attempt>)
    requires Valid(b) && NonNegativeCosts(attempts)
    ensures var r := Run(b, attempts);
      && Valid(r.bucket)
      && r.bucket.rps == b.rps && r.bucket.capacity == b.capacity
      && r.admitted >= 0.0
      && r.bucket.last >= b.last
    decreases |attempts|
  {
    if |attempts| > 0 {
      var s := AcquireStep(b, attempts[0].now, attempts[0].cost);
      TailNonNegative(attempts);
      RunPreservesValid(s.bucket, attempts[1..]);
    }
  }

  lemma TailNonNegative(attempts: seq<Attempt>)
    requires |attempts| > 0 && NonNegativeCosts(attempts)
    ensures NonNegativeCosts(attempts[1..])
  {
    var rest := attempts[1..];
    forall i | 0 <= i < |rest| ensures rest[i].cost >= 0.0 {
      assert rest[i] == attempts[i + 1];
    }
  }

  /** The refill time never passes the latest clock reading */
  lemma {:induction false} RunLastBound(b: Bucket, attempts: seq<Attempt>, t: real)
    requires t >= b.last && NotAfter(attempts, t)
    ensures Run(b, attempts).bucket.last <= t
    decreases |attempts|
  {
    if |attempts| > 0 {
      var s := AcquireStep(b, attempts[0].now, attempts[0].cost);
      var rest := attempts[1..];
      assert attempts[0].now <= t;
      assert NotAfter(rest, t) by {
        forall i | 0 <= i < |rest| ensures rest[i].now <= t {
          assert rest[i] == attempts[i + 1];
        }
      }
      RunLastBound(s.bucket, rest, t);
    }
  }

  /** Token accounting over any sequence of passes: admitted cost plus the
      remaining level is bounded by the initial level plus what the elapsed
      time earns */
  lemma {:induction false} RunAccounting(b: Bucket, attempts: seq<Attempt>)
    ensures var r := Run(b, attempts);
      r.admitted + r.bucket.tokens <= b.tokens + Earned(b.rps, r.bucket.last - b.last)
    decreases |attempts|
  {
    if |attempts| > 0 {
      var s := AcquireStep(b, attempts[0].now, attempts[0].cost);
      var b1 := s.bucket;
      RunAccounting(b1, attempts[1..]);
      var r := Run(b1, attempts[1..]);
      assert Run(b, attempts) == RunResult(r.bucket, r.admitted + if s.Admitted? then attempts[0].cost else 0.0);
      EarnedAdditive(b.rps, b.last, b1.last, r.bucket.last);
    } else {
      assert Run(b, attempts) == RunResult(b, 0.0);
    }
  }

  /** The throttling guarantee: over any sequence of passes ending by time `t`,
      the total admitted cost is at most `capacity + rps * (t - last)` */
  lemma {:induction false} AdmittedWithinCeiling(b: Bucket, attempts: seq<Attempt>, t: real)
    requires Valid(b) && NonNegativeCosts(attempts)
    requires t >= b.last && NotAfter(attempts, t)
    ensures Run(b, attempts).admitted <= b.capacity + Earned(b.rps, t - b.last)
  {
    RunPreservesValid(b, attempts);
    RunLastBound(b, attempts, t);
    RunAccounting(b, attempts);
    var r := Run(b, attempts);
    EarnedMonotonic(b.rps, r.bucket.last - b.last, t - b.last);
  }

  /** The blocking `acquire`: passes at successive clock readings, stopping at
      the first admission or when the readings run out */
  function AcquireLoop(b: Bucket, cost: real, clock: seq<real>): (r: Step)
    requires |clock| >= 1
    ensures r.bucket.rps == b.rps && r.bucket.capacity == b.capacity
    ensures Valid(b) && cost >= 0.0 ==> Valid(r.bucket)
    ensures Valid(b) && cost > b.capacity ==> r.Wait?
    decreases |clock|
  {
    var s := AcquireStep(b, clock[0], cost);
    if s.Admitted? || |clock| == 1 then s else AcquireLoop(s.bucket, cost, clock[1..])
  }

  /** The blocking loop pays for what it admits: the tokens left plus the cost
      admitted never exceed the initial level plus what the elapsed time earns */
  lemma {:induction false} AcquireLoopAccounting(b: Bucket, cost: real, clock: seq<real>)
    requires |clock| >= 1
    ensures var r := AcquireLoop(b, cost, clock);
      r.bucket.tokens + (if r.Admitted? then cost else 0.0)
      <= b.tokens + Earned(b.rps, r.bucket.last - b.last)
    decreases |clock|
  {
    var s := AcquireStep(b, clock[0], cost);
    if !(s.Admitted? || |clock| == 1) {
      AcquireLoopAccounting(s.bucket, cost, clock[1..]);
      var r := AcquireLoop(s.bucket, cost, clock[1..]);
      EarnedAdditive(b.rps, b.last, s.bucket.last, r.bucket.last);
    }
  }

  /** A cost above the capacity is never admitted, however long the caller waits */
  lemma {:induction false} OversizedCostNeverAdmitted(b: Bucket, cost: real, clock: seq<real>)
    requires Valid(b) && cost > b.capacity && |clock| >= 1
    ensures AcquireLoop(b, cost, clock).Wait?
    decreases |clock|
  {
    var s := AcquireStep(b, clock[0], cost);
    if |clock| > 1 {
      OversizedCostNeverAdmitted(s.bucket, cost, clock[1..]);
    }
  }

  /** A cost that fits is admitted by the second pass when the caller sleeps
      as told between the two */
  lemma {:induction false} FittingCostAdmitted(b: Bucket, cost: real, clock: seq<real>)
    requires Valid(b) && cost <= b.capacity && |clock| == 2
    requires clock[0] >= b.last
    requires AcquireStep(b, clock[0], cost).Wait? ==>
               clock[1] >= clock[0] + AcquireStep(b, clock[0], cost).sleepFor
    ensures AcquireLoop(b, cost, clock).Admitted?
  {
    var s := AcquireStep(b, clock[0], cost);
    if s.Wait? {
      WaitThenAdmitted(b, clock[0], clock[1], cost);
      assert clock[1..] == [clock[1]];
    }
  }
}
