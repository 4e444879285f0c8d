# SNIPER dashboard core in Dafny

This project models the computational core of the SNIPER trading-operations
dashboard:

- the **API rate limiter** (`modules_utils/rate_limiter.py`): a registry of
  token buckets, one per dotted key such as `binance.futures`. Each bucket
  refills at `rps` tokens per second up to its burst capacity. A call waits
  until its weight in tokens is there;
- the **quota configuration** (`modules_utils/config_loader.py`): the
  validated limit documents and their normalisation into a per-provider
  summary of requests per minute and per second, which the limiter reads
  back with `set_limit_from_summary`;
- the **prop-firm KPIs** (`interface_app/propfirm_tab.py`): drawdown, daily
  loss margins, percentages clamped to 0..100, and the countdown to the
  daily reset;
- the **holding view** (`interface_app/holding_tab.py`): the company tree as
  a table, and the prop-firm figures aggregated over all accounts.

Every operation is pure. The monotonic clock and the Paris wall clock are
explicit arguments. The blocking `acquire` loop is one pass (`AcquireStep`)
that either admits the call or says how long to sleep; `AcquireLoop` and
`Run` chain passes over a sequence of clock readings. The registry is an
immutable map returned by every operation.

Loaded YAML documents and summary dictionaries are `Values.Value` trees.
CSV tables are `Frames.Frame` values: the set of declared columns plus the
rows in file order. Where Python would raise (`.get` on a non-dict, `float`
of a non-number, iteration over a non-list, a missing column), the model
returns `Failure` with a `Values.Fault`.

Modules: `Wrappers` (Option and Result), `Values`, `Strings` (split and
join, `int()` parsing, zero padding), `Numbers` (`min`, `max`, `ceil`,
`round`), `TokenBucket`, `RateLimiter`, `QuotaConfig`, `ConfiguredLimits`
(summary to limiter), `Frames`, `PropFirm` and `Holding`.

Behaviour kept as the code has it, where a reader might expect otherwise:

- A missing path segment in `set_limit_from_summary` reads as `{}`. Stepping
  into a value that is not a dict still raises (`RateLimiter.Walk`).
- An explicit burst of 0 or less is accepted as given.
- `summarize_limits` never reports gnews.

## Model

| member | source | states |
|---|---|---|
| Numbers.Ceil | modules_utils/rate_limiter.py:54 | `ceil(x)` is the least integer not below x |
| Numbers.RoundHalfEven | interface_app/propfirm_tab.py:91 | `round` gives an integer within one half of x; an exact tie goes to the even neighbour |
| Values.ToFloat | modules_utils/rate_limiter.py:84-90 | `float()` of a field succeeds exactly on a number and returns it; a string is a fault (see Left out), so for strings the body is the specification |
| Values.DictOrEmpty | interface_app/propfirm_tab.py:61 | `v or {}` used as a dict: a falsy value gives `{}`, a dict gives its fields, anything else truthy is a fault |
| Values.ListOrEmpty | interface_app/holding_tab.py:73 | `v or []` iterated: a falsy value gives no items, a list gives its items, anything else truthy is a fault |
| Strings.JoinSplit | modules_utils/rate_limiter.py:79 | joining the pieces of `key.split(".")` with the separator gives the key back, and no piece contains the separator |
| Strings.SplitJoin | modules_utils/rate_limiter.py:79 | splitting a join of separator-free pieces gives the same pieces back |
| Strings.Split | modules_utils/rate_limiter.py:79 | `str.split` with a one-character separator gives at least one piece; `Strings.JoinSplit` and `Strings.SplitJoin` state that it inverts joining |
| Strings.ParseInt | interface_app/propfirm_tab.py:47 | a number is read only from text that is not blank once stripped; beyond that the body is the specification (surrounding blanks stripped, an optional sign, then ASCII digits), and `Strings.ParsePad2` is its read-back partner |
| Strings.Pad2 | interface_app/propfirm_tab.py:55 | `{n:02d}` for 0..99 is two digits whose decimal value is n |
| Strings.ParsePad2 | interface_app/propfirm_tab.py:47 | `int()` reads a zero-padded two-digit field back as its number |
| TokenBucket.Refill | modules_utils/rate_limiter.py:19-25 | a refill never moves backwards in time and never exceeds the capacity; it adds at most rate times elapsed time and stops at the first bound it hits; a valid bucket stays valid and never loses tokens |
| TokenBucket.AcquireStep | modules_utils/rate_limiter.py:27-38 | admitted exactly when the refilled level covers the cost, and then exactly the cost is deducted; otherwise the sleep is the time to earn the missing tokens, at least 0.01 s (0.05 s for a non-positive rate); a cost above the capacity always waits; admitted plus left never exceeds the initial level plus tokens earned |
| TokenBucket.Run | modules_utils/rate_limiter.py:29-38 | passes chained over a sequence of clock readings and weights never change the rate or the capacity, and never undo the first pass's refill time |
| TokenBucket.AcquireLoop | modules_utils/rate_limiter.py:29-38 | the blocking loop keeps rate and capacity, keeps a valid bucket valid, and never admits a cost above the capacity |
| TokenBucket.AcquireLoopAccounting | modules_utils/rate_limiter.py:29-38 | the blocking loop pays for an admission: the tokens left plus the admitted cost never exceed the initial tokens plus what the time from the first to the last pass earns at the bucket's rate |
| TokenBucket.WaitThenAdmitted | modules_utils/rate_limiter.py:29-38 | a caller that sleeps as told after a wait is admitted on its next pass, when the cost fits in the bucket |
| TokenBucket.RunPreservesValid | modules_utils/rate_limiter.py:19-38 | over any sequence of passes the level stays in [0, capacity], rate and capacity never change, and the refill time never goes back |
| TokenBucket.RunLastBound | modules_utils/rate_limiter.py:19-25 | the refill time never passes the latest clock reading seen |
| TokenBucket.RunAccounting | modules_utils/rate_limiter.py:19-38 | over any sequence of passes, admitted cost plus the final level is at most the initial level plus the tokens the elapsed time earns |
| TokenBucket.AdmittedWithinCeiling | modules_utils/rate_limiter.py:19-38 | the throttling guarantee: cost admitted up to time t is at most capacity + rps * (t - last) |
| TokenBucket.OversizedCostNeverAdmitted | modules_utils/rate_limiter.py:29-38 | a cost above the capacity is never admitted, however many passes are made |
| TokenBucket.FittingCostAdmitted | modules_utils/rate_limiter.py:29-38 | a cost within the capacity is admitted by the second pass when the caller sleeps as told |
| RateLimiter.DefaultCapacity | modules_utils/rate_limiter.py:53-54 | the default burst is about one second of tokens: at least 1, at least the rate, and below rate + 1 unless it is 1 |
| RateLimiter.MkBucket | modules_utils/rate_limiter.py:51-61 | a new bucket's rate is the given one when at least 0.001, and exactly 0.001 below that; its capacity is the burst, or else the default `max(1, ceil(rps))`; it starts full at `now`; it is valid for a non-negative burst |
| RateLimiter.SetLimit | modules_utils/rate_limiter.py:63-64 | the key gets a fresh full bucket, whatever it had; every other key keeps its bucket; registry validity is kept |
| RateLimiter.CallAttempt | modules_utils/rate_limiter.py:66-70 | an unknown key takes its pass on a fresh full fallback bucket (0.5 rps, burst 1, refilled at `now`), so it is admitted exactly when the cost is at most 1; a known key keeps its rate and capacity and takes one acquire pass; other keys are untouched |
| RateLimiter.Walk | modules_utils/rate_limiter.py:79-82 | following no segment gives the node itself; one segment gives its value when present and `{}` when missing; stepping into a non-dict fails |
| RateLimiter.WalkAppend | modules_utils/rate_limiter.py:79-82 | walking a path in two stretches is walking it at once, and a failure in the first stretch is the result |
| RateLimiter.WalkPastMissing | modules_utils/rate_limiter.py:80-82 | a segment missing at any depth of the path makes the rest of the walk end at `{}` |
| RateLimiter.WalkThroughEmpty | modules_utils/rate_limiter.py:80-82 | any path below a missing segment ends at `{}` |
| RateLimiter.ResolveRate | modules_utils/rate_limiter.py:84-90 | `rps` wins; else `rpm` / 60; else the default; a non-numeric field that is read fails |
| RateLimiter.SetLimitFromSummary | modules_utils/rate_limiter.py:74-91 | succeeds exactly when the path walk and the rate lookup do, and then installs the resolved rate with the given burst |
| RateLimiter.MissingProviderUsesDefault | modules_utils/rate_limiter.py:79-91 | a key whose provider is absent from the summary gets the default rate |
| RateLimiter.WeightedCallsExample | modules_utils/rate_limiter.py:42-47 | at 40 rps with burst 40, three calls of weight 5 are admitted at once, leaving 25 tokens, and a call of weight 30 waits 0.125 s |
| RateLimiter.FreshBurstThenWait | modules_utils/rate_limiter.py:63-70 | a fresh bucket admits its whole burst at once; a call of weight 1 right after waits max(0.01, 1/rps) |
| QuotaConfig.RiskFromFields | modules_utils/config_loader.py:12-15 | a risk block exists exactly when all three fields are present with both percentages >= 0 and the target ratio > 0 |
| QuotaConfig.ValidRisk | modules_utils/config_loader.py:12-15 | a predicate, so its body is the specification: both percentages `ge=0` and the target ratio `gt=0` |
| QuotaConfig.ValidApiLimits | modules_utils/config_loader.py:21-70 | a predicate, so its body is the specification: every declared quota field of every declared provider satisfies its `ge=0` constraint |
| QuotaConfig.ParseMode | modules_utils/config_loader.py:18 | the mode is one of `dev`, `live` or `backtest`, and `dev` when absent; a parsed mode's name is the input |
| QuotaConfig.ModeRoundTrip | modules_utils/config_loader.py:18 | every one of the three modes parses back from its own name |
| QuotaConfig.SystemFromFields | modules_utils/config_loader.py:17-19 | the system block is accepted exactly when its mode is, and stores the parsed mode (`dev` when absent); an absent logging path defaults to `config/logging.yml` |
| QuotaConfig.SystemModeRoundTrip | modules_utils/config_loader.py:17-18 | a system block written with a mode's own name is accepted and keeps that mode |
| QuotaConfig.RpmToRps | modules_utils/config_loader.py:108-112 | absent stays absent; the result is never negative; 60 times the result gives back a non-negative per-minute quota |
| QuotaConfig.Per15MinToRpm | modules_utils/config_loader.py:114-118 | absent stays absent; 15 times the result gives back the input |
| QuotaConfig.NewsdataRpm | modules_utils/config_loader.py:157-160 | an explicit per-minute figure wins; otherwise a per-15-minutes figure is used, divided by 15 |
| QuotaConfig.RateEntry | modules_utils/config_loader.py:143-144 | an entry has exactly the keys `rpm` and `rps`, and the per-second figure is the converted per-minute one |
| QuotaConfig.BinanceEntry | modules_utils/config_loader.py:124-131 | `spot` and `futures` appear exactly when declared, each with its converted per-minute quota; the order quota never appears |
| QuotaConfig.TelegramEntry | modules_utils/config_loader.py:134-135 | the telegram block is dumped field for field |
| QuotaConfig.NewsApiEntry | modules_utils/config_loader.py:138-139 | the NewsAPI block is dumped field for field |
| QuotaConfig.YahooEntry | modules_utils/config_loader.py:147-154 | the yahoo entry keeps name and daily quota, and converts its per-minute quota |
| QuotaConfig.SummarizeLimits | modules_utils/config_loader.py:120-163 | a provider is in the summary exactly when it is declared, among six known names (never gnews or extra keys), each with its own entry |
| QuotaConfig.RateEntryNonNegative | modules_utils/config_loader.py:109-112 | a rate entry built from a valid quota holds no negative number |
| QuotaConfig.BinanceEntryNonNegative | modules_utils/config_loader.py:124-131 | a valid binance block summarises without negative numbers at either nesting level |
| QuotaConfig.SummaryEntryNonNegative | modules_utils/config_loader.py:120-163 | every entry of a valid configuration's summary is free of negative numbers |
| QuotaConfig.ValidSummaryNonNegative | modules_utils/config_loader.py:21-70 | the `ge=0` field constraints carry through: a valid configuration summarises to non-negative quotas only |
| ConfiguredLimits.FredQuotaSetsRate | modules_utils/rate_limiter.py:84-91 | a FRED per-minute quota, summarised and read back, sets the FRED bucket to quota / 60 per second |
| ConfiguredLimits.FredWithoutQuotaUsesDefault | modules_utils/rate_limiter.py:84-91 | a FRED block with no quota leaves the FRED bucket at the default rate |
| ConfiguredLimits.BinanceFuturesQuotaSetsRate | modules_utils/rate_limiter.py:79-91 | the binance futures per-minute quota reaches the `binance.futures` bucket as quota / 60 per second |
| ConfiguredLimits.NewsdataPer15MinSetsRate | modules_utils/config_loader.py:157-161 | newsdata declared only per 15 minutes is throttled at quota / 900 per second |
| Frames.Filter | interface_app/propfirm_tab.py:67 | the selection keeps only the account's rows, and each matching row is in it |
| Frames.FilterKeepsCopies | interface_app/propfirm_tab.py:67 | each matching row is kept exactly as many times as the table holds it, and nothing is kept more often |
| Frames.FilterAppend | interface_app/propfirm_tab.py:67 | selecting from two runs of rows keeps the first run's matches before the second's, so file order is kept |
| Frames.RowsOf | interface_app/propfirm_tab.py:67 | with an account column the account's rows; without one every row |
| Frames.RowsOfAsWritten | interface_app/propfirm_tab.py:76 | the selection as written fails exactly when the account column is missing, and otherwise agrees with `RowsOf` |
| Frames.AsWrittenSelectionRaises | interface_app/propfirm_tab.py:76 | a one-row trades table without an account column: the as-written selection fails where `RowsOf` keeps the row |
| Frames.LastByTimestamp | interface_app/propfirm_tab.py:69-70 | the last row after sorting by time is one of the rows, and no row is later |
| Frames.PeakEquity | interface_app/propfirm_tab.py:71 | the peak is one row's equity and no row's equity is higher |
| Frames.SumPnlSplits | interface_app/propfirm_tab.py:76-78 | the account's PnL plus everyone else's makes the whole table's PnL |
| Frames.SumPnl | interface_app/propfirm_tab.py:78 | `sum()` of the pnl column, 0 for no rows; a plain fold, so the body is the specification, and `Frames.SumPnlAppend` and `Frames.SumPnlSplits` are its partners |
| Frames.SumPnlAppend | interface_app/propfirm_tab.py:78 | the PnL of two runs of trades is the sum of their PnLs, so `sum()` over a table is additive row by row |
| PropFirm.PctSafe | interface_app/propfirm_tab.py:88-91 | no percentage for an absent or non-positive denominator; otherwise in 0..100, within 0.5 of the true percentage, and clamped at either end |
| PropFirm.PctSafeMonotonic | interface_app/propfirm_tab.py:88-91 | a larger margin never shows a smaller percentage |
| PropFirm.EquitySnapshot | interface_app/propfirm_tab.py:66-72 | no snapshot without rows for the account; fails when those rows lack a time or equity column; otherwise the latest equity and the peak over the account's rows |
| PropFirm.DayPnl | interface_app/propfirm_tab.py:75-78 | the corrected reading, with line 76 read the way line 67 guards a missing account column (see Findings): the sum of the account's trade PnL when the table has rows and a pnl column, else 0 |
| PropFirm.DayPnlAsWritten | interface_app/propfirm_tab.py:75-78 | as written the PnL fails exactly when the trades table has rows but no account column, and otherwise agrees with `DayPnl` |
| PropFirm.DayPnlAsWrittenRaises | interface_app/propfirm_tab.py:76 | a trades table without an account column: the tab as written fails where the intended reading reports the trade |
| PropFirm.KpisFrom | interface_app/propfirm_tab.py:80-94 | only a loss eats the daily margin and a gain never raises it above the limit; the drawdown margin is the limit minus the distance below the peak; the daily percentage exists exactly when the daily limit is positive; the drawdown percentage exists exactly when there is an equity snapshot and the drawdown limit is positive; both lie in 0..100 |
| PropFirm.ComputeKpis | interface_app/propfirm_tab.py:59-106 | with line 76 read as line 67 guards it (the correction in the Findings table): succeeds exactly when the numeric fields read and the account's equity rows can be read; then the KPIs are computed from the snapshot, the day's PnL and the rules with their 0 defaults; equity is absent exactly when the account has no rows |
| PropFirm.ComputeKpisAsWritten | interface_app/propfirm_tab.py:59-106 | `compute_kpis` with line 76 as written: whenever it returns, the KPIs are those of `ComputeKpis`; it raises in addition exactly where the unguarded trades selection does |
| PropFirm.ComputeKpisAsWrittenRaises | interface_app/propfirm_tab.py:76 | an account with no equity table and one trade of pnl -120 in a file without the account column: as written the function raises, the corrected reading reports a day's PnL of -120 |
| PropFirm.DaySecond | interface_app/propfirm_tab.py:47-48 | `hh:mm` is a whole-minute second of the day from which hour and minute are recovered |
| PropFirm.ParseResetTime | interface_app/propfirm_tab.py:43-48 | a reset time is read exactly when the text is non-empty, has two `:`-separated integer fields, and they form a valid hour and minute |
| PropFirm.ResetTimeRoundTrip | interface_app/propfirm_tab.py:47-48 | `HH:MM` reads back as that hour and minute |
| PropFirm.SecondsUntil | interface_app/propfirm_tab.py:46-51 | the countdown is the floor of the time to today's reset if it has not passed, else to tomorrow's, and is below one day |
| PropFirm.Decompose | interface_app/propfirm_tab.py:52-54 | hours, minutes and seconds recompose to the total, with minutes and seconds below 60 and hours below 24 |
| PropFirm.FormatHms | interface_app/propfirm_tab.py:55 | the countdown text is eight characters: the hours, minutes and seconds each as two zero-padded digits, with `:` at positions 2 and 5 |
| PropFirm.FormatHmsRoundTrip | interface_app/propfirm_tab.py:55 | the shown countdown reads back as the hours, minutes and seconds it shows |
| PropFirm.TimeUntilReset | interface_app/propfirm_tab.py:42-57 | no countdown exactly when the reset time cannot be read; otherwise the text reads back as the seconds left, split into hours (below 24), minutes and seconds (below 60) |
| PropFirm.TimeUntilResetPadded | interface_app/propfirm_tab.py:52-55 | the countdown is shown padded: eight characters, each of hours, minutes and seconds as two zero-padded digits |
| Holding.HoldingRow | interface_app/holding_tab.py:50-58 | the root line is level 0 with no parent, carries the holding's id, name, legal form and country, and its role is the notes or `holding` |
| Holding.ChildRow | interface_app/holding_tab.py:60-68 | a child line is level 1 and carries the child's own id, name, legal form, country, parent and role |
| Holding.BuildTreeTable | interface_app/holding_tab.py:44-69 | an empty configuration gives an empty table; otherwise fails exactly when the holding is not a dict, a truthy `children` is not a list (iterating it raises), or a child is not a dict; on success the root line comes first, then one line per child in order |
| Holding.AccountIds | interface_app/holding_tab.py:73 | every kept id is truthy and belongs to some entry, and every entry's truthy id is kept; fails exactly when an entry is not a dict |
| Holding.AccountIdsOfOne | interface_app/holding_tab.py:73 | one entry lists its id when the id is truthy and nothing otherwise |
| Holding.AccountIdsAppend | interface_app/holding_tab.py:73 | the ids of two runs of entries are the ids of each run one after the other; with the one-entry case this pins the order and the repetitions, which `accounts_count` counts |
| Holding.DuplicateIdsCountTwice | interface_app/holding_tab.py:73-90 | two entries with the same id are both listed, so they count as two accounts |
| Holding.LatestEquity | interface_app/holding_tab.py:80-83 | 0 for an account without rows; fails when it has rows but no equity column; otherwise the equity of a row no other row is later than |
| Holding.AddTotals | interface_app/holding_tab.py:83 | two partial totals give their sum when both were read; otherwise the first fault, the left one before the right one |
| Holding.Latests | interface_app/holding_tab.py:79-83 | one reading per listed account, in order, each that account's latest equity |
| Holding.SumTotalsAppend | interface_app/holding_tab.py:79-83 | the total over two account lists is the sum of their totals |
| Holding.SumTotalsFailsFrom | interface_app/holding_tab.py:79-83 | the first account whose equity cannot be read makes the whole total fail with its fault |
| Holding.SumTotalsNonNegative | interface_app/holding_tab.py:79-83 | readings that are never negative sum to a total that is not negative |
| Holding.SumLatestNonNegative | interface_app/holding_tab.py:79-83 | with no negative equity in the table, the total is never negative |
| Holding.TotalEquity | interface_app/holding_tab.py:79-83 | the loop over accounts computes the per-account total, or the first fault |
| Holding.AggregatePropKpis | interface_app/holding_tab.py:71-94 | the corrected reading of line 80 (an equity table without an `account_id` column belongs to every account, as line 67 of the prop-firm tab guards it): accounts are the truthy ids; total equity is reported only when the equity table has rows and a time column and the total is positive; the day's PnL sums every trade when there is a pnl column |
| Holding.AggregateAsWritten | interface_app/holding_tab.py:80 | as written the aggregate fails whenever the equity table has rows and a time column but no account column, and there is an account; in every other case it gives what `AggregatePropKpis` promises |

## Left out

- File loading (`load_*`, `_load_yaml`), caching, Streamlit rendering and the ledger, audit and compta views: these are I/O and display. The model takes the loaded documents and tables as arguments.
- `modules_utils/health.py` and the `_main` entry point of the config loader: these are not part of this model.
- Locks and threads: `RateLimiter.CallAttempt` is one atomic pass. Contention between threads is covered only through `TokenBucket.Run`, which takes an arbitrary interleaving of passes on one bucket.
- `time.sleep` and `time.monotonic`: the clock readings are arguments, and the sleep is the `sleepFor` a waiting pass returns.
- TokenBucket.AcquireLoop: stops when its clock readings run out, because the source loop is unbounded.
- Floating point: every quantity is an exact real, so rounding error in `dt * rps`, in the divisions, and in `round` on binary fractions is not modelled.
- Values.Value: has no boolean case; YAML booleans (`true`, `yes`, `no`, so `country: NO` loads as False) are not representable, and the model takes such fields as already given as other values.
- Values.ToFloat: `float()` of a numeric string is treated as a fault, because string-to-float parsing is not modelled.
- Strings.ParseInt: accepts ASCII digits only, so `int()`'s underscores and non-ASCII digits are not accepted; it strips only the ASCII blanks `Strings.IsSpace` names, so a field such as `"\x1c08"`, which `int()` reads after stripping `\x1c`-`\x1f` or Unicode whitespace, is unreadable in the model.
- The loaders' pydantic coercions (strings to numbers, ints to floats) are not modelled. The documents are taken as already typed, and the `ge`/`gt` constraints are the predicates `QuotaConfig.ValidRisk` and `QuotaConfig.ValidApiLimits`.
- pandas failures other than a missing column (non-numeric cells, unparsable timestamps) are not modelled. Cells are typed in `Frames.Row`.
- Frames.LastByTimestamp: picks the last row in file order among equal timestamps. The contract promises only a row with the latest timestamp, because `sort_values` is not stable by default.
- PropFirm.SecondsUntil: takes the Paris time of day in seconds. Time zones and daylight-saving jumps are left to the caller.
- PropFirm.ComputeKpis: models the corrected trades selection of line 76 (the whole table when it has no `account_id` column), so it succeeds on inputs where the code as written raises KeyError; `PropFirm.ComputeKpisAsWritten` is the function as written.
- Holding.AggregatePropKpis: models the corrected selection of holding_tab.py line 80, so it returns a total on inputs where the code as written raises KeyError; `Holding.AggregateAsWritten` is the function as written.
- `init_cap` in `compute_kpis` is read and checked but never used. The model keeps only its failure case.
- PropFirm.ParseResetTime: returns no value for every failure of `int()` or `datetime.replace`. The exception message is not modelled.
- `dashboard.py` and `immo_tab.py` are not part of this model.

## Findings

| source | as written | input that shows it | evidently intended | confidence | as-written member | corrected member |
|---|---|---|---|---|---|---|
| interface_app/propfirm_tab.py:76 | `trades_df[trades_df.get("account_id", acc_id) == acc_id]`: without an `account_id` column the mask is the scalar `True`, and indexing with it raises KeyError | a trades table with columns `{pnl}` and one row of pnl -120 | the trades table belongs wholly to the account, as line 67 does for the equity table, so the day's PnL is -120 | not executed | PropFirm.DayPnlAsWritten, PropFirm.ComputeKpisAsWritten (counterexamples PropFirm.DayPnlAsWrittenRaises, PropFirm.ComputeKpisAsWrittenRaises) | PropFirm.DayPnl, PropFirm.ComputeKpis |
| interface_app/holding_tab.py:80 | the same selection on the equity table raises as soon as an account is listed and the table has no `account_id` column | an equity table with columns `{timestamp, equity}` and one row, with one account listed | every row counts for the account, as line 67 of the prop-firm tab reads it; with N accounts listed, that table's latest equity is then added N times, and nothing in the repository says whether such a table is meant for one account or for all of them | not executed | Holding.AggregateAsWritten (selection Frames.RowsOfAsWritten, counterexample Frames.AsWrittenSelectionRaises) | Holding.AggregatePropKpis |
