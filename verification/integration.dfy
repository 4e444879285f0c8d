/** How a loaded configuration reaches the limiter: the summary produced by
    `summarize_limits` read back by `set_limit_from_summary`, as in
    tests/runtime_rate_limiter_smoke.py. */
module ConfiguredLimits {
  import opened Wrappers
  import opened Values
  import opened Strings
  import opened QuotaConfig
  import opened RateLimiter

  lemma SplitTwo(a: string, b: string)
    requires KeySeparator !in a && KeySeparator !in b
    ensures Split(a + [KeySeparator] + b, KeySeparator) == [a, b]
  {
    var parts := [a, b];
    assert NoSeparator(parts, KeySeparator);
    assert Join(parts, KeySeparator) == a + [KeySeparator] + Join(parts[1..], KeySeparator);
    SplitJoin(parts, KeySeparator);
  }

  lemma SplitOne(a: string)
    requires KeySeparator !in a
    ensures Split(a, KeySeparator) == [a]
  {
    assert NoSeparator([a], KeySeparator);
    SplitJoin([a], KeySeparator);
  }

  /** A FRED per-minute quota becomes the FRED bucket's rate, per second */
  lemma FredQuotaSetsRate(api: ApiLimits, reg: Registry, defaultRps: real, burst: Option<int>, now: real)
    requires api.fred.Some? && api.fred.value.requestsPerMin.Some?
    requires api.fred.value.requestsPerMin.value >= 0
    ensures var r := SetLimitFromSummary(reg, FredKey, SummarizeLimits(api), defaultRps, burst, now);
      r.Success? && r.value[FredKey] == MkBucket(api.fred.value.requestsPerMin.value as real / 60.0, burst, now)
  {
    SplitOne(FredKey);
    var summary := SummarizeLimits(api);
    assert Walk(Obj(summary), [FredKey]) == Walk(summary[FredKey], []);
  }

  /** A declared FRED block without a quota leaves the bucket at the default rate */
  lemma FredWithoutQuotaUsesDefault(api: ApiLimits, reg: Registry, defaultRps: real, burst: Option<int>, now: real)
    requires api.fred.Some? && api.fred.value.requestsPerMin.None?
    ensures var r := SetLimitFromSummary(reg, FredKey, SummarizeLimits(api), defaultRps, burst, now);
      r.Success? && r.value[FredKey] == MkBucket(defaultRps, burst, now)
  {
    SplitOne(FredKey);
    var summary := SummarizeLimits(api);
    assert Walk(Obj(summary), [FredKey]) == Walk(summary[FredKey], []);
  }

  /** The binance futures per-minute quota reaches the `binance.futures` bucket */
  lemma BinanceFuturesQuotaSetsRate(api: ApiLimits, reg: Registry, defaultRps: real, burst: Option<int>, now: real)
    requires api.binance.Some? && api.binance.value.futures.Some?
    requires api.binance.value.futures.value.requestsPerMin.Some?
    requires api.binance.value.futures.value.requestsPerMin.value >= 0
    ensures var key := BinanceKey + [KeySeparator] + "futures";
      var r := SetLimitFromSummary(reg, key, SummarizeLimits(api), defaultRps, burst, now);
      r.Success? && r.value[key] ==
        MkBucket(api.binance.value.futures.value.requestsPerMin.value as real / 60.0, burst, now)
  {
    SplitTwo(BinanceKey, "futures");
    var summary := SummarizeLimits(api);
    var entry := summary[BinanceKey];
    assert Walk(Obj(summary), [BinanceKey, "futures"]) == Walk(entry, ["futures"]);
    assert Walk(entry, ["futures"]) == Walk(entry.fields["futures"], []);
  }

  /** Newsdata declared only per 15 minutes is throttled at that quota / 900 per second */
  lemma NewsdataPer15MinSetsRate(api: ApiLimits, reg: Registry, defaultRps: real, burst: Option<int>, now: real)
    requires api.newsdata.Some? && api.newsdata.value.requestsPerMin.None?
    requires api.newsdata.value.requestsPer15min.Some? && api.newsdata.value.requestsPer15min.value >= 0
    ensures var r := SetLimitFromSummary(reg, NewsdataKey, SummarizeLimits(api), defaultRps, burst, now);
      r.Success? && r.value[NewsdataKey] ==
        MkBucket(api.newsdata.value.requestsPer15min.value as real / 900.0, burst, now)
  {
    SplitOne(NewsdataKey);
    var summary := SummarizeLimits(api);
    assert Walk(Obj(summary), [NewsdataKey]) == Walk(summary[NewsdataKey], []);
    var rpm := NewsdataRpm(api.newsdata.value);
    assert rpm.value * 15.0 == api.newsdata.value.requestsPer15min.value as real;
    assert rpm.value / 60.0 == api.newsdata.value.requestsPer15min.value as real / 900.0;
  }
}
