/** The typed rate-limit configuration and its normalisation into a summary
    dictionary keyed by provider (modules_utils/config_loader.py). Records are
    the already-parsed documents; the field constraints of the loader's models
    are validity predicates. */
module QuotaConfig {
  import opened Wrappers
  import opened Values

  // ---------------------------------------------------------------- risk

  datatype RiskModel = RiskModel(maxDailyDdPct: real, maxTradeRPct: real, targetRr: real)

  predicate ValidRisk(r: RiskModel) {
    r.maxDailyDdPct >= 0.0 && r.maxTradeRPct >= 0.0 && r.targetRr > 0.0
  }

  /** The `risk` block: all three fields are required and constrained */
  function RiskFromFields(dd: Option<real>, tradeR: Option<real>, rr: Option<real>): (r: Option<RiskModel>)
    ensures r.Some? <==> (dd.Some? && tradeR.Some? && rr.Some?
                          && dd.value >= 0.0 && tradeR.value >= 0.0 && rr.value > 0.0)
    ensures r.Some? ==> ValidRisk(r.value)
    ensures r.Some? ==> r.value.maxDailyDdPct == dd.value && r.value.maxTradeRPct == tradeR.value
                        && r.value.targetRr == rr.value
  {
    if dd.None? || tradeR.None? || rr.None? then None
    else
      var m := RiskModel(dd.value, tradeR.value, rr.value);
      if ValidRisk(m) then Some(m) else None
  }

  // ---------------------------------------------------------------- system

  datatype Mode = Dev | Live | Backtest

  const DefaultLoggingCfg: string := "config/logging.yml"

  datatype SystemModel = SystemModel(mode: Mode, loggingCfg: string)

  function ModeName(m: Mode): string {
    match m
    case Dev => "dev"
    case Live => "live"
    case Backtest => "backtest"
  }

  /** The `mode` literal: one of three names, `dev` when absent */
  function ParseMode(s: Option<string>): (r: Option<Mode>)
    ensures s.None? ==> r == Some(Dev)
    ensures s.Some? ==> (r.Some? <==> s.value in {"dev", "live", "backtest"})
    ensures s.Some? && r.Some? ==> ModeName(r.value) == s.value
  {
    if s.None? then Some(Dev)
    else if s.value == "dev" then Some(Dev)
    else if s.value == "live" then Some(Live)
    else if s.value == "backtest" then Some(Backtest)
    else None
  }

  /** Every mode is read back from its own name */
  lemma ModeRoundTrip(m: Mode)
    ensures ParseMode(Some(ModeName(m))) == Some(m)
  {
  }

  /** The `system` block: both fields optional with their defaults */
  function SystemFromFields(mode: Option<string>, loggingCfg: Option<string>): (r: Option<SystemModel>)
    ensures r.Some? <==> ParseMode(mode).Some?
    ensures r.Some? && mode.None? ==> r.value.mode == Dev
    ensures r.Some? ==> r.value.mode == ParseMode(mode).value
    ensures r.Some? && loggingCfg.None? ==> r.value.loggingCfg == DefaultLoggingCfg
    ensures r.Some? && loggingCfg.Some? ==> r.value.loggingCfg == loggingCfg.value
  {
    var m :- ParseMode(mode);
    Some(SystemModel(m, loggingCfg.GetOr(DefaultLoggingCfg)))
  }

  /** A system block written with a mode's own name keeps that mode */
  lemma SystemModeRoundTrip(m: Mode, loggingCfg: Option<string>)
    ensures var r := SystemFromFields(Some(ModeName(m)), loggingCfg);
      r.Some? && r.value.mode == m
  {
    ModeRoundTrip(m);
  }

  // ---------------------------------------------------------------- API quotas

  datatype BinanceSpotLimits = BinanceSpotLimits(requestsPerMin: Option<int>, notes: Option<string>)
  datatype BinanceFuturesLimits =
    BinanceFuturesLimits(requestsPerMin: Option<int>, ordersPerMin: Option<int>, notes: Option<string>)
  datatype BinanceLimits = BinanceLimits(spot: Option<BinanceSpotLimits>, futures: Option<BinanceFuturesLimits>)
  datatype TelegramLimits =
    TelegramLimits(perChatRps: Option<real>, perGroupRpm: Option<int>, globalRps: Option<real>)
  datatype NewsApiLimits = NewsApiLimits(requestsPerDay: Option<int>, burstRps: Option<real>)
  datatype FredLimits = FredLimits(requestsPerMin: Option<int>)
  datatype YahooProviderLimits = YahooProviderLimits(
    name: Option<string>, requestsPerMin: Option<int>, requestsPerDay: Option<int>, notes: Option<string>)
  datatype GNewsLimits = GNewsLimits(requestsPerDay: Option<int>, burstRps: Option<real>)
  datatype NewsdataLimits = NewsdataLimits(requestsPer15min: Option<int>, requestsPerMin: Option<real>)

  /** The whole `api_limits` document; unknown top-level keys are kept in `extra` */
  datatype ApiLimits = ApiLimits(
    binance: Option<BinanceLimits>,
    telegram: Option<TelegramLimits>,
    newsapi: Option<NewsApiLimits>,
    fred: Option<FredLimits>,
    yahooProvider: Option<YahooProviderLimits>,
    gnews: Option<GNewsLimits>,
    newsdata: Option<NewsdataLimits>,
    extra: map<string, Value>)

  /** A quota field is either absent or at least zero */
  predicate Quota(o: Option<int>) { o.None? || o.value >= 0 }
  predicate QuotaReal(o: Option<real>) { o.None? || o.value >= 0.0 }

  predicate ValidBinance(b: BinanceLimits) {
    && (b.spot.Some? ==> Quota(b.spot.value.requestsPerMin))
    && (b.futures.Some? ==> Quota(b.futures.value.requestsPerMin) && Quota(b.futures.value.ordersPerMin))
  }

  predicate ValidApiLimits(api: ApiLimits) {
    && (api.binance.Some? ==> ValidBinance(api.binance.value))
    && (api.telegram.Some? ==> var t := api.telegram.value;
          QuotaReal(t.perChatRps) && Quota(t.perGroupRpm) && QuotaReal(t.globalRps))
    && (api.newsapi.Some? ==> Quota(api.newsapi.value.requestsPerDay) && QuotaReal(api.newsapi.value.burstRps))
    && (api.fred.Some? ==> Quota(api.fred.value.requestsPerMin))
    && (api.yahooProvider.Some? ==>
          Quota(api.yahooProvider.value.requestsPerMin) && Quota(api.yahooProvider.value.requestsPerDay))
    && (api.gnews.Some? ==> Quota(api.gnews.value.requestsPerDay) && QuotaReal(api.gnews.value.burstRps))
    && (api.newsdata.Some? ==>
          Quota(api.newsdata.value.requestsPer15min) && QuotaReal(api.newsdata.value.requestsPerMin))
  }

  // ---------------------------------------------------------------- unit conversions

  function AsReal(o: Option<int>): (r: Option<real>)
    ensures r.None? <==> o.None?
    ensures r.Some? ==> r.value == o.value as real
  {
    if o.Some? then Some(o.value as real) else None
  }

  /** Requests per minute to requests per second; absent stays absent and
      the result is never negative */
  function RpmToRps(rpm: Option<real>): (r: Option<real>)
    ensures r.None? <==> rpm.None?
    ensures r.Some? ==> r.value >= 0.0
    ensures rpm.Some? && rpm.value >= 0.0 ==> r.value * 60.0 == rpm.value
    ensures rpm.Some? && rpm.value < 0.0 ==> r.value == 0.0
  {
    if rpm.None? then None
    else Some(if rpm.value / 60.0 >= 0.0 then rpm.value / 60.0 else 0.0)
  }

  /** Requests per 15 minutes to requests per minute; absent stays absent */
  function Per15MinToRpm(v: Option<real>): (r: Option<real>)
    ensures r.None? <==> v.None?
    ensures r.Some? ==> r.value * 15.0 == v.value
  {
    if v.None? then None else Some(v.value / 15.0)
  }

  /** The per-minute quota of newsdata: the explicit per-minute figure wins,
      the per-15-minutes one is used only when it is absent */
  function NewsdataRpm(nd: NewsdataLimits): (r: Option<real>)
    ensures nd.requestsPerMin.Some? ==> r == nd.requestsPerMin
    ensures nd.requestsPerMin.None? ==>
              (r.Some? <==> nd.requestsPer15min.Some?)
              && (r.Some? ==> r.value * 15.0 == nd.requestsPer15min.value as real)
  {
    if nd.requestsPerMin.None? && nd.requestsPer15min.Some? then Per15MinToRpm(AsReal(nd.requestsPer15min))
    else nd.requestsPerMin
  }

  // ---------------------------------------------------------------- summary

  const BinanceKey := "binance"
  const TelegramKey := "telegram"
  const NewsApiKey := "newsapi"
  const FredKey := "fred"
  const YahooKey := "yahoo_provider"
  const NewsdataKey := "newsdata"

  /** The only provider names a summary can hold */
  const SummaryKeys: set<string> := {BinanceKey, TelegramKey, NewsApiKey, FredKey, YahooKey, NewsdataKey}

  /** `{"rpm": rpm, "rps": rpm_to_rps(rpm)}` */
  function RateEntry(rpm: Option<real>): (v: Value)
    ensures v.Obj? && v.fields.Keys == {"rpm", "rps"}
    ensures v.fields["rpm"] == OfReal(rpm)
    ensures v.fields["rps"] == OfReal(RpmToRps(rpm))
  {
    Obj(map["rpm" := OfReal(rpm), "rps" := OfReal(RpmToRps(rpm))])
  }

  /** The binance entry: one rate entry per declared endpoint class; the
      per-minute order quota does not appear */
  function BinanceEntry(b: BinanceLimits): (v: Value)
    ensures v.Obj? && v.fields.Keys <= {"spot", "futures"}
    ensures "spot" in v.fields <==> b.spot.Some?
    ensures "futures" in v.fields <==> b.futures.Some?
    ensures b.spot.Some? ==> v.fields["spot"] == RateEntry(AsReal(b.spot.value.requestsPerMin))
    ensures b.futures.Some? ==> v.fields["futures"] == RateEntry(AsReal(b.futures.value.requestsPerMin))
  {
    var spot: map<string, Value> :=
      if b.spot.Some? then map["spot" := RateEntry(AsReal(b.spot.value.requestsPerMin))] else map[];
    var both :=
      if b.futures.Some? then spot["futures" := RateEntry(AsReal(b.futures.value.requestsPerMin))] else spot;
    Obj(both)
  }

  /** The telegram block dumped field for field, no conversion */
  function TelegramEntry(t: TelegramLimits): (v: Value)
    ensures v.Obj? && v.fields.Keys == {"per_chat_rps", "per_group_rpm", "global_rps"}
    ensures v.fields["per_chat_rps"] == OfReal(t.perChatRps)
    ensures v.fields["per_group_rpm"] == OfInt(t.perGroupRpm)
    ensures v.fields["global_rps"] == OfReal(t.globalRps)
  {
    Obj(map["per_chat_rps" := OfReal(t.perChatRps), "per_group_rpm" := OfInt(t.perGroupRpm),
            "global_rps" := OfReal(t.globalRps)])
  }

  /** The NewsAPI block dumped field for field, no conversion */
  function NewsApiEntry(n: NewsApiLimits): (v: Value)
    ensures v.Obj? && v.fields.Keys == {"requests_per_day", "burst_rps"}
    ensures v.fields["requests_per_day"] == OfInt(n.requestsPerDay)
    ensures v.fields["burst_rps"] == OfReal(n.burstRps)
  {
    Obj(map["requests_per_day" := OfInt(n.requestsPerDay), "burst_rps" := OfReal(n.burstRps)])
  }

  /** The yahoo entry: name and daily quota carried through, rate converted */
  function YahooEntry(y: YahooProviderLimits): (v: Value)
    ensures v.Obj? && v.fields.Keys == {"name", "rpm", "rps", "per_day"}
    ensures v.fields["name"] == OfStr(y.name)
    ensures v.fields["per_day"] == OfInt(y.requestsPerDay)
    ensures v.fields["rpm"] == OfInt(y.requestsPerMin)
    ensures v.fields["rps"] == OfReal(RpmToRps(AsReal(y.requestsPerMin)))
  {
    Obj(map["name" := OfStr(y.name), "rpm" := OfInt(y.requestsPerMin),
            "rps" := OfReal(RpmToRps(AsReal(y.requestsPerMin))), "per_day" := OfInt(y.requestsPerDay)])
  }

  /** The summary entry of provider `p`, if it is declared and summarised */
  function EntryOf(api: ApiLimits, p: string): Option<Value> {
    if p == BinanceKey && api.binance.Some? then Some(BinanceEntry(api.binance.value))
    else if p == TelegramKey && api.telegram.Some? then Some(TelegramEntry(api.telegram.value))
    else if p == NewsApiKey && api.newsapi.Some? then Some(NewsApiEntry(api.newsapi.value))
    else if p == FredKey && api.fred.Some? then Some(RateEntry(AsReal(api.fred.value.requestsPerMin)))
    else if p == YahooKey && api.yahooProvider.Some? then Some(YahooEntry(api.yahooProvider.value))
    else if p == NewsdataKey && api.newsdata.Some? then Some(RateEntry(NewsdataRpm(api.newsdata.value)))
    else None
  }

  /** `summarize_limits`: one entry per declared provider among the six it
      knows; gnews and unknown keys never appear */
  function SummarizeLimits(api: ApiLimits): (out: map<string, Value>)
    ensures out.Keys <= SummaryKeys
    ensures BinanceKey in out <==> api.binance.Some?
    ensures TelegramKey in out <==> api.telegram.Some?
    ensures NewsApiKey in out <==> api.newsapi.Some?
    ensures FredKey in out <==> api.fred.Some?
    ensures YahooKey in out <==> api.yahooProvider.Some?
    ensures NewsdataKey in out <==> api.newsdata.Some?
    ensures api.binance.Some? ==> out[BinanceKey] == BinanceEntry(api.binance.value)
    ensures api.telegram.Some? ==> out[TelegramKey] == TelegramEntry(api.telegram.value)
    ensures api.newsapi.Some? ==> out[NewsApiKey] == NewsApiEntry(api.newsapi.value)
    ensures api.fred.Some? ==> out[FredKey] == RateEntry(AsReal(api.fred.value.requestsPerMin))
    ensures api.yahooProvider.Some? ==> out[YahooKey] == YahooEntry(api.yahooProvider.value)
    ensures api.newsdata.Some? ==> out[NewsdataKey] == RateEntry(NewsdataRpm(api.newsdata.value))
  {
    map p | p in SummaryKeys && EntryOf(api, p).Some? :: EntryOf(api, p).value
  }

  /** Every number directly inside a dict is non-negative */
  predicate NonNegativeFields(m: map<string, Value>) {
    forall k :: k in m && m[k].Num? ==> m[k].n >= 0.0
  }

  /** Every number in a summary entry, at either nesting level, is non-negative */
  predicate NonNegativeEntry(v: Value) {
    && v.Obj?
    && NonNegativeFields(v.fields)
    && forall q :: q in v.fields && v.fields[q].Obj? ==> NonNegativeFields(v.fields[q].fields)
  }

  predicate NonNegativeSummary(out: map<string, Value>) {
    forall p :: p in out ==> NonNegativeEntry(out[p])
  }

  lemma RateEntryNonNegative(rpm: Option<real>)
    requires QuotaReal(rpm)
    ensures NonNegativeEntry(RateEntry(rpm))
  {
  }

  lemma BinanceEntryNonNegative(b: BinanceLimits)
    requires ValidBinance(b)
    ensures NonNegativeEntry(BinanceEntry(b))
  {
    var v := BinanceEntry(b);
    if b.spot.Some? { RateEntryNonNegative(AsReal(b.spot.value.requestsPerMin)); }
    if b.futures.Some? { RateEntryNonNegative(AsReal(b.futures.value.requestsPerMin)); }
    forall q | q in v.fields && v.fields[q].Obj?
      ensures NonNegativeFields(v.fields[q].fields)
    {
      assert q == "spot" || q == "futures";
    }
  }

  lemma SummaryEntryNonNegative(api: ApiLimits, p: string)
    requires ValidApiLimits(api) && p in SummarizeLimits(api)
    ensures NonNegativeEntry(SummarizeLimits(api)[p])
  {
    var out := SummarizeLimits(api);
    if p == BinanceKey {
      BinanceEntryNonNegative(api.binance.value);
    } else if p == FredKey {
      RateEntryNonNegative(AsReal(api.fred.value.requestsPerMin));
    } else if p == NewsdataKey {
      RateEntryNonNegative(NewsdataRpm(api.newsdata.value));
    } else if p == TelegramKey {
      var v := TelegramEntry(api.telegram.value);
      assert NonNegativeEntry(v);
    } else if p == NewsApiKey {
      var v := NewsApiEntry(api.newsapi.value);
      assert NonNegativeEntry(v);
    } else {
      var v := YahooEntry(api.yahooProvider.value);
      assert NonNegativeEntry(v);
    }
  }

  /** A configuration that passes validation summarises to non-negative quotas only */
  lemma ValidSummaryNonNegative(api: ApiLimits)
    requires ValidApiLimits(api)
    ensures NonNegativeSummary(SummarizeLimits(api))
  {
    forall p | p in SummarizeLimits(api)
      ensures NonNegativeEntry(SummarizeLimits(api)[p])
    {
      SummaryEntryNonNegative(api, p);
    }
  }
}
