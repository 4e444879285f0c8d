/** The multi-key registry of token buckets (modules_utils/rate_limiter.py,
    class RateLimiter). The registry is an immutable map; every operation
    returns the new map. */
module RateLimiter {
  import opened Wrappers
  import opened Numbers
  import opened Values
  import opened Strings
  import opened TokenBucket

  type Registry = map<string, Bucket>

  /** Floor applied to the configured rate so that waits stay finite */
  const MinRate: real := 0.001
  /** Limit installed for a key used before any configuration */
  const FallbackRate: real := 0.5
  const FallbackBurst: int := 1
  /** Separator of the segments of a key such as `binance.futures` */
  const KeySeparator: char := '.'

  predicate ValidRegistry(reg: Registry) {
    forall k :: k in reg ==> Valid(reg[k])
  }

  /** Default capacity: about one second of tokens, never below one */
  function DefaultCapacity(rps: real): (c: int)
    ensures c >= 1 && c as real >= rps
    ensures c == 1 || c as real < rps + 1.0
  {
    MaxInt(1, Ceil(rps))
  }

  /** A new bucket for a limit: rate floored at `MinRate`, capacity from the
      burst or the default, and full */
  function MkBucket(rps: real, burst: Option<int>, now: real): (b: Bucket)
    ensures b.rps >= MinRate && (rps >= MinRate ==> b.rps == rps)
    ensures rps < MinRate ==> b.rps == MinRate
    ensures burst.Some? ==> b.capacity == burst.value as real
    ensures burst.None? ==> b.capacity >= 1.0 && b.capacity >= rps
    ensures burst.None? ==> b.capacity == 1.0 || b.capacity < rps + 1.0
    ensures burst.None? ==> b.capacity == DefaultCapacity(rps) as real
    ensures b.tokens == b.capacity && b.last == now
    ensures (burst.None? || burst.value >= 0) ==> Valid(b)
  {
    var capacity := if burst.Some? then burst.value as real else DefaultCapacity(rps) as real;
    Bucket(Max(MinRate, rps), capacity, capacity, now)
  }

  /** `set_limit`: install a fresh full bucket for `key`, whatever was there;
      every other key keeps its bucket */
  function SetLimit(reg: Registry, key: string, rps: real, burst: Option<int>, now: real): (r: Registry)
    ensures r.Keys == reg.Keys + {key}
    ensures r[key] == MkBucket(rps, burst, now)
    ensures forall k :: k in reg && k != key ==> r[k] == reg[k]
    ensures ValidRegistry(reg) && (burst.None? || burst.value >= 0) ==> ValidRegistry(r)
  {
    reg[key := MkBucket(rps, burst, now)]
  }

  /** The registry after one pass of `call`, and that pass's outcome */
  datatype CallResult = CallResult(registry: Registry, step: Step)

  /** One pass of `call(key, cost)`: an unknown key is first given the slow
      fallback limit; a known key keeps its bucket, which only refills and
      pays */
  function CallAttempt(reg: Registry, key: string, cost: real, now: real): (r: CallResult)
    ensures r.registry.Keys == reg.Keys + {key}
    ensures forall k :: k in reg && k != key ==> r.registry[k] == reg[k]
    ensures r.registry[key] == r.step.bucket
    ensures key in reg ==> r.step == AcquireStep(reg[key], now, cost)
    ensures key in reg ==> r.registry[key].rps == reg[key].rps
                           && r.registry[key].capacity == reg[key].capacity
    ensures key !in reg ==> r.registry[key].rps == FallbackRate && r.registry[key].capacity == 1.0
    ensures key !in reg ==> (r.step.Admitted? <==> cost <= 1.0)
    ensures key !in reg ==> r.step == AcquireStep(MkBucket(FallbackRate, Some(FallbackBurst), now), now, cost)
    ensures ValidRegistry(reg) && cost >= 0.0 ==> ValidRegistry(r.registry)
  {
    var withKey := if key in reg then reg else SetLimit(reg, key, FallbackRate, Some(FallbackBurst), now);
    var step := AcquireStep(withKey[key], now, cost);
    CallResult(withKey[key := step.bucket], step)
  }

  /** Follow a dotted path through nested dicts; a missing segment reads as
      `{}`, while stepping into something that is not a dict is an error */
  function Walk(node: Value, path: seq<string>): (r: Result<Value, Fault>)
    ensures |path| == 0 ==> r == Success(node)
    ensures |path| > 0 && !node.Obj? ==> r.Failure?
    // one segment: its value when present, `{}` when missing
    ensures |path| == 1 && node.Obj? && path[0] in node.fields ==> r == Success(node.fields[path[0]])
    ensures |path| == 1 && node.Obj? && path[0] !in node.fields ==> r == Success(Obj(map[]))
    decreases |path|
  {
    if |path| == 0 then Success(node)
    else if node.Obj? then Walk(Get(node.fields, path[0], Obj(map[])), path[1..])
    else Failure(NotAMapping(path[0]))
  }

  /** Walking through `{}` always ends at `{}` */
  lemma {:induction false} WalkThroughEmpty(path: seq<string>)
    ensures Walk(Obj(map[]), path) == Success(Obj(map[]))
    decreases |path|
  {
    if |path| > 0 {
      WalkThroughEmpty(path[1..]);
    }
  }

  /** Walking a path in two stretches is walking it at once: each segment
      of a dotted key is followed from where the previous one ended */
  lemma {:induction false} WalkAppend(node: Value, p: seq<string>, q: seq<string>)
    ensures Walk(node, p).Success? ==> Walk(node, p + q) == Walk(Walk(node, p).value, q)
    ensures Walk(node, p).Failure? ==> Walk(node, p + q) == Walk(node, p)
    decreases |p|
  {
    if |p| == 0 {
      assert p + q == q;
    } else {
      assert (p + q)[0] == p[0];
      assert (p + q)[1..] == p[1..] + q;
      if node.Obj? {
        WalkAppend(Get(node.fields, p[0], Obj(map[])), p[1..], q);
      }
    }
  }

  /** A segment missing at any depth makes the rest of the path read `{}` */
  lemma WalkPastMissing(node: Value, p: seq<string>, k: string, q: seq<string>)
    requires Walk(node, p).Success? && Walk(node, p).value.Obj? && k !in Walk(node, p).value.fields
    ensures Walk(node, p + [k] + q) == Success(Obj(map[]))
  {
    var mid := Walk(node, p).value;
    WalkAppend(node, p, [k] + q);
    assert p + [k] + q == p + ([k] + q);
    assert ([k] + q)[0] == k && ([k] + q)[1..] == q;
    WalkThroughEmpty(q);
  }

  /** The rate a summary node gives: its `rps` if set, else its `rpm` / 60,
      else the caller's default */
  function ResolveRate(node: Value, defaultRps: real): (r: Result<real, Fault>)
    ensures !node.Obj? ==> r.Failure?
    ensures node.Obj? ==>
      var rps := Get(node.fields, "rps", Null);
      var rpm := Get(node.fields, "rpm", Null);
      && (rps.Num? ==> r == Success(rps.n))
      && (rps == Null && rpm.Num? ==> r.Success? && r.value * 60.0 == rpm.n)
      && (rps == Null && rpm == Null ==> r == Success(defaultRps))
      && (r.Failure? <==> (rps != Null && !rps.Num?) || (rps == Null && rpm != Null && !rpm.Num?))
  {
    if !node.Obj? then Failure(NotAMapping("rps"))
    else
      var rps := Get(node.fields, "rps", Null);
      var rpm := Get(node.fields, "rpm", Null);
      if rps != Null then ToFloat(rps, "rps")
      else if rpm != Null then
        var perMinute :- ToFloat(rpm, "rpm");
        Success(perMinute / 60.0)
      else Success(defaultRps)
  }

  /** `set_limit_from_summary`: resolve the rate at the key's dotted path in a
      summary and install it with the given burst */
  function SetLimitFromSummary(reg: Registry, key: string, summary: map<string, Value>,
                               defaultRps: real, burst: Option<int>, now: real): (r: Result<Registry, Fault>)
    ensures var node := Walk(Obj(summary), Split(key, KeySeparator));
      r.Success? <==> node.Success? && ResolveRate(node.value, defaultRps).Success?
    ensures r.Success? ==>
      var rate := ResolveRate(Walk(Obj(summary), Split(key, KeySeparator)).value, defaultRps).value;
      r.value == SetLimit(reg, key, rate, burst, now)
  {
    var node :- Walk(Obj(summary), Split(key, KeySeparator));
    var rate :- ResolveRate(node, defaultRps);
    Success(SetLimit(reg, key, rate, burst, now))
  }

  /** A key whose first segment is not in the summary gets the default rate */
  lemma MissingProviderUsesDefault(reg: Registry, key: string, summary: map<string, Value>,
                                   defaultRps: real, burst: Option<int>, now: real)
    requires Split(key, KeySeparator)[0] !in summary
    ensures var r := SetLimitFromSummary(reg, key, summary, defaultRps, burst, now);
      r.Success? && r.value[key] == MkBucket(defaultRps, burst, now)
  {
    var path := Split(key, KeySeparator);
    WalkThroughEmpty(path[1..]);
    assert Walk(Obj(summary), path) == Walk(Obj(map[]), path[1..]);
  }

  /** The usage example of the class: a key limited to 40 requests per second
      with a burst of 40 admits three calls of weight 5 at once, and a fourth
      of weight 30 is told to wait the 0.125 s it takes to earn the 5 missing
      tokens */
  lemma WeightedCallsExample(now: real)
    ensures var reg := SetLimit(map[], "binance.futures", 40.0, Some(40), now);
      var c1 := CallAttempt(reg, "binance.futures", 5.0, now);
      var c2 := CallAttempt(c1.registry, "binance.futures", 5.0, now);
      var c3 := CallAttempt(c2.registry, "binance.futures", 5.0, now);
      var c4 := CallAttempt(c3.registry, "binance.futures", 30.0, now);
      && c1.step.Admitted? && c2.step.Admitted? && c3.step.Admitted?
      && c3.registry["binance.futures"].tokens == 25.0
      && c4.step == Wait(c3.registry["binance.futures"], 0.125)
  {
  }

  /** A freshly configured key admits a whole burst at once; a call of weight
      1 right after it is told to wait the time one token takes to earn */
  lemma FreshBurstThenWait(reg: Registry, key: string, rps: real, burst: int, now: real)
    requires rps >= MinRate && burst >= 1
    ensures var r0 := SetLimit(reg, key, rps, Some(burst), now);
      var c1 := CallAttempt(r0, key, burst as real, now);
      var c2 := CallAttempt(c1.registry, key, 1.0, now);
      && c1.step.Admitted? && c1.registry[key].tokens == 0.0
      && c2.step.Wait? && c2.step.sleepFor == Max(MinSleep, 1.0 / rps)
  {
    var r0 := SetLimit(reg, key, rps, Some(burst), now);
    var c1 := CallAttempt(r0, key, burst as real, now);
    assert Refill(r0[key], now) == r0[key];
    assert Refill(c1.registry[key], now) == c1.registry[key];
  }
}
