/** Per-account KPIs of the prop-firm tab (interface_app/propfirm_tab.py):
    drawdown, daily-loss margins, clamped percentages and the countdown to the
    daily reset. The Paris wall clock is an explicit seconds-of-day argument. */
module PropFirm {
  import opened Wrappers
  import opened Numbers
  import opened Values
  import opened Strings
  import opened Frames

  // ---------------------------------------------------------------- percentages

  /** `pct_safe(numer, denom)`: `numer / denom` as a whole percentage clamped
      to [0, 100], or nothing when the denominator is absent or not positive */
  function PctSafe(numer: real, denom: Option<real>): (r: Option<int>)
    ensures r.None? <==> denom.None? || denom.value <= 0.0
    ensures r.Some? ==> 0 <= r.value <= 100
    ensures r.Some? ==>
      var pct := numer / denom.value * 100.0;
      && (pct >= 100.0 ==> r.value == 100)
      && (pct <= 0.0 ==> r.value == 0)
      && (0.0 <= pct <= 100.0 ==> pct - 0.5 <= r.value as real <= pct + 0.5)
  {
    if denom.None? || denom.value <= 0.0 then None
    else Some(MaxInt(0, MinInt(100, RoundHalfEven(numer / denom.value * 100.0))))
  }

  /** A larger remaining margin never shows a smaller percentage */
  lemma PctSafeMonotonic(a: real, b: real, denom: real)
    requires a <= b && denom > 0.0
    ensures PctSafe(a, Some(denom)).value <= PctSafe(b, Some(denom)).value
  {
    assert a / denom <= b / denom;
    assert a / denom * 100.0 <= b / denom * 100.0;
    RoundHalfEvenMonotonic(a / denom * 100.0, b / denom * 100.0);
  }

  // ---------------------------------------------------------------- KPIs

  datatype Kpis = Kpis(
    equityNow: Option<real>,
    pnlDay: real,
    ddCurrent: Option<real>,
    dailyLossLimit: real,
    maxDrawdown: real,
    marginDailyLeft: real,
    marginDdLeft: Option<real>,
    dailyPct: Option<int>,
    ddPct: Option<int>)

  /** Latest equity of an account and the highest equity it reached */
  datatype Snapshot = Snapshot(last: real, peak: real)

  /** The account's rows of the intraday equity table */
  function EquityRows(eq: Option<Frame>, acc: Value): seq<Row> {
    if eq.None? || |eq.value.rows| == 0 then [] else RowsOf(eq.value, acc)
  }

  /** Lines 66-72: the account's latest equity and its peak, if it has rows */
  function EquitySnapshot(eq: Option<Frame>, acc: Value): (r: Result<Option<Snapshot>, Fault>)
    ensures var rows := EquityRows(eq, acc);
      && (r.Success? && r.value.None? <==> |rows| == 0)
      && (r.Failure? <==> |rows| > 0 && (TimestampCol !in eq.value.columns || EquityCol !in eq.value.columns))
      && (r.Success? && r.value.Some? ==>
            var sn := r.value.value;
            && (exists i :: 0 <= i < |rows| && rows[i].equity == sn.last
                  && forall j :: 0 <= j < |rows| ==> rows[j].timestamp <= rows[i].timestamp)
            && (forall j :: 0 <= j < |rows| ==> rows[j].equity <= sn.peak)
            && (exists j :: 0 <= j < |rows| && rows[j].equity == sn.peak))
  {
    var rows := EquityRows(eq, acc);
    if |rows| == 0 then Success(None)
    else if TimestampCol !in eq.value.columns then Failure(MissingColumn(TimestampCol))
    else if EquityCol !in eq.value.columns then Failure(MissingColumn(EquityCol))
    else
      var last := LastByTimestamp(rows);
      Success(Some(Snapshot(last.equity, PeakEquity(rows))))
  }

  /** The account's equity rows can be read: it has none, or the table has
      both columns the snapshot reads */
  predicate EquityReadable(eq: Option<Frame>, acc: Value) {
    |EquityRows(eq, acc)| == 0 || (TimestampCol in eq.value.columns && EquityCol in eq.value.columns)
  }

  /** Lines 75-78 with the account selection of line 67: the day's PnL of the
      account's trades, 0 without trades or without a pnl column */
  function DayPnl(trades: Option<Frame>, acc: Value): (p: real)
    ensures trades.None? || |trades.value.rows| == 0 || PnlCol !in trades.value.columns ==> p == 0.0
    ensures trades.Some? && |trades.value.rows| > 0 && PnlCol in trades.value.columns ==>
              p == SumPnl(RowsOf(trades.value, acc))
  {
    if trades.None? || |trades.value.rows| == 0 then 0.0
    else if PnlCol in trades.value.columns then SumPnl(RowsOf(trades.value, acc))
    else 0.0
  }

  /** Lines 75-78 as written: the selection raises when the trades table has
      rows but no account column */
  function DayPnlAsWritten(trades: Option<Frame>, acc: Value): (r: Result<real, Fault>)
    ensures r.Failure? <==> trades.Some? && |trades.value.rows| > 0 && AccountIdCol !in trades.value.columns
    ensures r.Success? ==> r.value == DayPnl(trades, acc)
  {
    if trades.None? || |trades.value.rows| == 0 then Success(0.0)
    else
      var sub :- RowsOfAsWritten(trades.value, acc);
      Success(if PnlCol in trades.value.columns then SumPnl(sub) else 0.0)
  }

  /** An account's trades in a file without the account column: as written
      the tab fails, the intended reading counts every trade */
  lemma DayPnlAsWrittenRaises()
    ensures var trades := Some(Frame({PnlCol}, [Row(Null, 0.0, 0.0, -120.0)]));
      DayPnlAsWritten(trades, Str("FTMO-1")).Failure? && DayPnl(trades, Str("FTMO-1")) == -120.0
  {
  }

  /** Lines 80-94: margins left before the daily-loss and drawdown rules are
      broken, and the same as percentages of the limits */
  function KpisFrom(sn: Option<Snapshot>, pnlDay: real, dailyLossLimit: real, maxDrawdown: real): (k: Kpis)
    ensures k.pnlDay == pnlDay && k.dailyLossLimit == dailyLossLimit && k.maxDrawdown == maxDrawdown
    ensures k.equityNow.None? <==> sn.None?
    ensures k.ddCurrent.None? <==> sn.None?
    ensures sn.Some? ==> k.equityNow == Some(sn.value.last)
    // the drawdown is how far the equity sits below its peak, never negative
    ensures sn.Some? && sn.value.peak >= sn.value.last ==>
              k.ddCurrent.value >= 0.0 && k.equityNow.value + k.ddCurrent.value == sn.value.peak
    // only a loss eats into the daily margin; a gain never raises it above the limit
    ensures k.marginDailyLeft <= dailyLossLimit
    ensures pnlDay >= 0.0 ==> k.marginDailyLeft == dailyLossLimit
    ensures pnlDay < 0.0 ==> k.marginDailyLeft == dailyLossLimit + pnlDay
    ensures k.marginDdLeft.Some? <==> sn.Some? && maxDrawdown > 0.0
    ensures k.marginDdLeft.Some? ==> k.marginDdLeft.value == maxDrawdown - k.ddCurrent.value
    ensures k.marginDdLeft.Some? ==> k.marginDdLeft.value <= maxDrawdown
    ensures k.dailyPct.Some? <==> dailyLossLimit > 0.0
    ensures k.dailyPct.Some? ==> k.dailyPct == PctSafe(k.marginDailyLeft, Some(dailyLossLimit))
    ensures k.ddPct.Some? <==> k.marginDdLeft.Some?
    ensures k.ddPct.Some? ==> k.ddPct == PctSafe(k.marginDdLeft.value, Some(maxDrawdown))
    ensures k.dailyPct.Some? ==> 0 <= k.dailyPct.value <= 100
    ensures k.ddPct.Some? ==> 0 <= k.ddPct.value <= 100
  {
    var equityNow := if sn.Some? then Some(sn.value.last) else None;
    var ddCurrent := if sn.Some? then Some(Max(0.0, sn.value.peak - sn.value.last)) else None;
    var marginDailyLeft := dailyLossLimit - Max(0.0, -pnlDay);
    var marginDdLeft := if ddCurrent.Some? && maxDrawdown > 0.0 then Some(maxDrawdown - ddCurrent.value) else None;
    var dailyPct := if dailyLossLimit > 0.0 then PctSafe(marginDailyLeft, Some(dailyLossLimit)) else None;
    var ddPct := if maxDrawdown != 0.0 && marginDdLeft.Some? then PctSafe(marginDdLeft.value, Some(maxDrawdown)) else None;
    Kpis(equityNow, pnlDay, ddCurrent, dailyLossLimit, maxDrawdown, marginDailyLeft, marginDdLeft, dailyPct, ddPct)
  }

  /** The numeric fields of an account entry and of its rules, read with
      their defaults; `None` where `float()` would raise */
  predicate AccountReadable(account: map<string, Value>) {
    && Get(account, "initial_capital", Num(0.0)).Num?
    && var rules := DictOrEmpty(Get(account, "rules", Obj(map[])), "rules");
       && rules.Success?
       && Get(rules.value, "daily_loss_limit", Num(0.0)).Num?
       && Get(rules.value, "max_drawdown", Num(0.0)).Num?
  }

  function RulesOf(account: map<string, Value>): map<string, Value>
    requires AccountReadable(account)
  {
    DictOrEmpty(Get(account, "rules", Obj(map[])), "rules").value
  }

  /** `compute_kpis(account, eq_df, trades_df)` */
  function ComputeKpis(account: map<string, Value>, eq: Option<Frame>, trades: Option<Frame>): (r: Result<Kpis, Fault>)
    ensures r.Success? <==> AccountReadable(account) && EquityReadable(eq, Get(account, "id", Null))
    ensures r.Success? && AccountReadable(account) && EquityReadable(eq, Get(account, "id", Null)) ==>
      var acc := Get(account, "id", Null);
      var rules := RulesOf(account);
      r.value == KpisFrom(EquitySnapshot(eq, acc).value, DayPnl(trades, acc),
                          Get(rules, "daily_loss_limit", Num(0.0)).n, Get(rules, "max_drawdown", Num(0.0)).n)
    ensures r.Success? ==> (r.value.equityNow.None? <==> |EquityRows(eq, Get(account, "id", Null))| == 0)
  {
    var acc := Get(account, "id", Null);
    var rulesValue := Get(account, "rules", Obj(map[]));
    var initialCapital :- ToFloat(Get(account, "initial_capital", Num(0.0)), "initial_capital");
    var sn :- EquitySnapshot(eq, acc);
    var pnlDay := DayPnl(trades, acc);
    var rules :- DictOrEmpty(rulesValue, "rules");
    var dailyLossLimit :- ToFloat(Get(rules, "daily_loss_limit", Num(0.0)), "daily_loss_limit");
    var maxDrawdown :- ToFloat(Get(rules, "max_drawdown", Num(0.0)), "max_drawdown");
    Success(KpisFrom(sn, pnlDay, dailyLossLimit, maxDrawdown))
  }

  /** `compute_kpis` with line 76 as written: the same figures whenever it
      returns, but it also raises when the trades table has rows and no
      account column */
  function ComputeKpisAsWritten(account: map<string, Value>, eq: Option<Frame>, trades: Option<Frame>)
    : (r: Result<Kpis, Fault>)
    ensures r.Success? <==> AccountReadable(account) && EquityReadable(eq, Get(account, "id", Null))
                            && DayPnlAsWritten(trades, Get(account, "id", Null)).Success?
    ensures r.Success? ==> r == ComputeKpis(account, eq, trades)
  {
    var acc := Get(account, "id", Null);
    var rulesValue := Get(account, "rules", Obj(map[]));
    var initialCapital :- ToFloat(Get(account, "initial_capital", Num(0.0)), "initial_capital");
    var sn :- EquitySnapshot(eq, acc);
    var pnlDay :- DayPnlAsWritten(trades, acc);
    var rules :- DictOrEmpty(rulesValue, "rules");
    var dailyLossLimit :- ToFloat(Get(rules, "daily_loss_limit", Num(0.0)), "daily_loss_limit");
    var maxDrawdown :- ToFloat(Get(rules, "max_drawdown", Num(0.0)), "max_drawdown");
    Success(KpisFrom(sn, pnlDay, dailyLossLimit, maxDrawdown))
  }

  /** An account with its trades in a file without the account column: the
      corrected reading reports the day's loss, the code as written raises */
  lemma ComputeKpisAsWrittenRaises()
    ensures var account := map["id" := Str("FTMO-1")];
      var trades := Some(Frame({PnlCol}, [Row(Null, 0.0, 0.0, -120.0)]));
      && ComputeKpisAsWritten(account, None, trades).Failure?
      && ComputeKpis(account, None, trades).Success?
      && ComputeKpis(account, None, trades).value.pnlDay == -120.0
  {
    var account := map["id" := Str("FTMO-1")];
    var trades := Some(Frame({PnlCol}, [Row(Null, 0.0, 0.0, -120.0)]));
    DayPnlAsWrittenRaises();
    assert EquitySnapshot(None, Str("FTMO-1")).Success?;
  }

  // ---------------------------------------------------------------- reset countdown

  const SecondsPerDay: nat := 86400

  /** A duration broken into hours, minutes and seconds */
  datatype Hms = Hms(h: nat, m: nat, s: nat)

  /** The second of the day at which the clock shows `hh:mm` */
  function DaySecond(hh: int, mm: int): (t: nat)
    requires 0 <= hh <= 23 && 0 <= mm <= 59
    ensures t < SecondsPerDay && t % 60 == 0
    ensures t / 3600 == hh && (t % 3600) / 60 == mm
  {
    hh * 3600 + mm * 60
  }

  /** `"H:M"` as a second of the day: exactly two integer fields, an hour in
      0..23 and a minute in 0..59 */
  function ParseResetTime(text: string): (r: Option<nat>)
    ensures r.Some? <==>
      var parts := Split(text, ':');
      && |text| > 0 && |parts| == 2
      && ParseInt(parts[0]).Some? && 0 <= ParseInt(parts[0]).value <= 23
      && ParseInt(parts[1]).Some? && 0 <= ParseInt(parts[1]).value <= 59
    ensures r.Some? ==>
      var parts := Split(text, ':');
      r.value == DaySecond(ParseInt(parts[0]).value, ParseInt(parts[1]).value)
  {
    if |text| == 0 then None
    else
      var parts := Split(text, ':');
      if |parts| != 2 then None
      else
        var hh :- ParseInt(parts[0]);
        var mm :- ParseInt(parts[1]);
        if 0 <= hh <= 23 && 0 <= mm <= 59 then Some(DaySecond(hh, mm)) else None
  }

  /** Two colon-free fields joined by `:` split back into the same fields */
  lemma SplitTwoFields(a: string, b: string)
    requires ':' !in a && ':' !in b
    ensures Split(a + ":" + b, ':') == [a, b]
  {
    var parts := [a, b];
    assert NoSeparator(parts, ':');
    assert Join(parts[1..], ':') == b;
    assert Join(parts, ':') == a + ":" + b;
    SplitJoin(parts, ':');
  }

  /** A reset time written `HH:MM` reads back as that hour and minute */
  lemma ResetTimeRoundTrip(hh: nat, mm: nat)
    requires hh <= 23 && mm <= 59
    ensures ParseResetTime(Pad2(hh) + ":" + Pad2(mm)) == Some(DaySecond(hh, mm))
  {
    NoColonInPad2(hh);
    NoColonInPad2(mm);
    SplitTwoFields(Pad2(hh), Pad2(mm));
    ParsePad2(hh);
    ParsePad2(mm);
  }

  /** Whole seconds from `now` to the next occurrence of `reset`, today if it
      has not passed yet, else tomorrow */
  function SecondsUntil(reset: nat, now: real): (t: nat)
    requires reset < SecondsPerDay && 0.0 <= now < SecondsPerDay as real
    ensures t < SecondsPerDay
    ensures now <= reset as real ==> t as real <= reset as real - now < t as real + 1.0
    ensures now > reset as real ==>
              t as real <= reset as real + SecondsPerDay as real - now < t as real + 1.0
  {
    var target := if now <= reset as real then reset as real else reset as real + SecondsPerDay as real;
    (target - now).Floor
  }

  /** The countdown split the way it is shown */
  function Decompose(total: nat): (x: Hms)
    requires total < SecondsPerDay
    ensures x.h * 3600 + x.m * 60 + x.s == total
    ensures x.h <= 23 && x.m <= 59 && x.s <= 59
  {
    Hms(total / 3600, (total % 3600) / 60, total % 60)
  }

  /** `f"{h:02d}:{m:02d}:{s:02d}"` */
  function FormatHms(x: Hms): (text: string)
    requires x.h <= 99 && x.m <= 99 && x.s <= 99
    ensures |text| == 8 && text[2] == ':' && text[5] == ':'
    ensures text[..2] == Pad2(x.h) && text[3..5] == Pad2(x.m) && text[6..] == Pad2(x.s)
  {
    Pad2(x.h) + ":" + Pad2(x.m) + ":" + Pad2(x.s)
  }

  /** Read a shown countdown back */
  function ParseHms(text: string): Option<Hms> {
    var parts := Split(text, ':');
    if |parts| != 3 then None else HmsOf(ParseInt(parts[0]), ParseInt(parts[1]), ParseInt(parts[2]))
  }

  /** Three read fields as a duration, when all three are whole numbers */
  function HmsOf(h: Option<int>, m: Option<int>, s: Option<int>): Option<Hms> {
    if h.Some? && m.Some? && s.Some? && h.value >= 0 && m.value >= 0 && s.value >= 0
    then Some(Hms(h.value, m.value, s.value))
    else None
  }

  lemma NoColonInPad2(n: nat)
    requires n <= 99
    ensures ':' !in Pad2(n)
  {
    var p := Pad2(n);
    assert IsDigit(p[0]) && IsDigit(p[1]);
  }

  /** Three colon-free fields joined by `:` split back into the same fields */
  lemma SplitThreeFields(a: string, b: string, c: string)
    requires ':' !in a && ':' !in b && ':' !in c
    ensures Split(a + ":" + b + ":" + c, ':') == [a, b, c]
  {
    var parts := [a, b, c];
    assert NoSeparator(parts, ':');
    assert Join(parts[2..], ':') == c;
    assert Join(parts[1..], ':') == b + ":" + c;
    assert Join(parts, ':') == a + ":" + b + ":" + c;
    SplitJoin(parts, ':');
  }

  /** `ParseHms` on text made of three fields that each read as a whole number */
  lemma ParseHmsFields(text: string, a: string, b: string, c: string, h: nat, m: nat, s: nat)
    requires Split(text, ':') == [a, b, c]
    requires ParseInt(a) == Some(h as int) && ParseInt(b) == Some(m as int) && ParseInt(c) == Some(s as int)
    ensures ParseHms(text) == Some(Hms(h, m, s))
  {
  }

  /** A shown countdown reads back as the hours, minutes and seconds it shows */
  lemma FormatHmsRoundTrip(x: Hms)
    requires x.h <= 99 && x.m <= 99 && x.s <= 99
    ensures ParseHms(FormatHms(x)) == Some(x)
  {
    NoColonInPad2(x.h);
    NoColonInPad2(x.m);
    NoColonInPad2(x.s);
    SplitThreeFields(Pad2(x.h), Pad2(x.m), Pad2(x.s));
    ParsePad2(x.h);
    ParsePad2(x.m);
    ParsePad2(x.s);
    ParseHmsFields(FormatHms(x), Pad2(x.h), Pad2(x.m), Pad2(x.s), x.h, x.m, x.s);
  }

  /** `_time_until_reset(reset_time_str)` at Paris seconds-of-day `now`:
      nothing for an unreadable reset time, else the countdown as HH:MM:SS */
  function TimeUntilReset(text: string, now: real): (r: Option<string>)
    requires 0.0 <= now < SecondsPerDay as real
    ensures r.None? <==> ParseResetTime(text).None?
    // reading the text back gives the seconds left split into hours,
    // minutes and seconds
    ensures r.Some? ==> ParseHms(r.value) == Some(Decompose(SecondsUntil(ParseResetTime(text).value, now)))
  {
    match ParseResetTime(text)
    case None => None
    case Some(reset) =>
      var x := Decompose(SecondsUntil(reset, now));
      FormatHmsRoundTrip(x);
      Some(FormatHms(x))
  }

  /** The countdown is shown padded: each of hours, minutes and seconds is
      two digits, so it is always eight characters */
  lemma TimeUntilResetPadded(text: string, now: real)
    requires 0.0 <= now < SecondsPerDay as real
    ensures var r := TimeUntilReset(text, now);
      r.Some? ==>
        var x := Decompose(SecondsUntil(ParseResetTime(text).value, now));
        && r.value == FormatHms(x)
        && |r.value| == 8
        && r.value[..2] == Pad2(x.h) && r.value[3..5] == Pad2(x.m) && r.value[6..] == Pad2(x.s)
  {
  }
}
