/** The holding tab (interface_app/holding_tab.py): the company tree shown as
    a table, and the prop-firm figures aggregated over every account. The
    YAML documents and CSV tables are passed in already loaded. */
module Holding {
  import opened Wrappers
  import opened Values
  import opened Frames

  // ---------------------------------------------------------------- company tree

  /** One line of the tree table; cells read from the YAML keep their value */
  datatype TreeRow = TreeRow(
    id: Value, name: Value, legalForm: Value, country: Value,
    parent: Value, role: Value, level: nat)

  /** The root line, for the parent company */
  function HoldingRow(h: map<string, Value>): (r: TreeRow)
    ensures r.level == 0 && r.parent == Null
    ensures r.id == Get(h, "id", Null) && r.name == Get(h, "name", Null)
    ensures r.legalForm == Get(h, "legal_form", Null) && r.country == Get(h, "country", Null)
    ensures "notes" in h ==> r.role == h["notes"]
    ensures "notes" !in h ==> r.role == Str("holding")
  {
    TreeRow(Get(h, "id", Null), Get(h, "name", Null), Get(h, "legal_form", Null),
            Get(h, "country", Null), Null, Get(h, "notes", Str("holding")), 0)
  }

  /** The line of one subsidiary, one level below the root */
  function ChildRow(c: map<string, Value>): (r: TreeRow)
    ensures r.level == 1
    ensures r.id == Get(c, "id", Null) && r.name == Get(c, "name", Null)
    ensures r.legalForm == Get(c, "legal_form", Null) && r.country == Get(c, "country", Null)
    ensures r.parent == Get(c, "parent", Null) && r.role == Get(c, "role", Null)
  {
    TreeRow(Get(c, "id", Null), Get(c, "name", Null), Get(c, "legal_form", Null),
            Get(c, "country", Null), Get(c, "parent", Null), Get(c, "role", Null), 1)
  }

  /** Every listed child is a mapping */
  predicate AllMappings(children: seq<Value>) {
    forall i :: 0 <= i < |children| ==> children[i].Obj?
  }

  /** `_build_tree_table(cfg)`: the root line, then one line per child in
      the order listed; an empty configuration gives an empty table */
  method BuildTreeTable(cfg: map<string, Value>) returns (r: Result<seq<TreeRow>, Fault>)
    ensures |cfg| == 0 ==> r == Success([])
    ensures |cfg| > 0 ==>
      var holding := Get(cfg, "holding", Obj(map[]));
      var children := ListOrEmpty(Get(cfg, "children", Arr([])), "children");
      && (r.Success? <==> holding.Obj? && children.Success? && AllMappings(children.value))
      && (r.Success? ==>
            var kids := children.value;
            && |r.value| == 1 + |kids|
            && r.value[0] == HoldingRow(holding.fields)
            && forall i :: 0 <= i < |kids| ==> r.value[i + 1] == ChildRow(kids[i].fields))
  {
    if |cfg| == 0 {
      return Success([]);
    }
    var holding := Get(cfg, "holding", Obj(map[]));
    if !holding.Obj? {
      return Failure(NotAMapping("holding"));
    }
    var children := ListOrEmpty(Get(cfg, "children", Arr([])), "children");
    if children.Failure? {
      return Failure(children.error);
    }
    var kids := children.value;
    var rows := [HoldingRow(holding.fields)];
    var i := 0;
    while i < |kids|
      invariant 0 <= i <= |kids|
      invariant AllMappings(kids[..i])
      invariant |rows| == 1 + i && rows[0] == HoldingRow(holding.fields)
      invariant forall j :: 0 <= j < i ==> rows[j + 1] == ChildRow(kids[j].fields)
    {
      if !kids[i].Obj? {
        assert !AllMappings(kids);
        return Failure(NotAMapping("children"));
      }
      rows := rows + [ChildRow(kids[i].fields)];
      i := i + 1;
    }
    assert kids[..i] == kids;
    return Success(rows);
  }

  // ---------------------------------------------------------------- aggregated KPIs

  datatype Aggregate = Aggregate(
    accountsCount: nat,
    totalEquity: Option<real>,
    pnlDay: real,
    accounts: seq<Value>)

  /** `[a.get("id") for a in accounts if a.get("id")]`: the truthy ids in
      the order listed; an entry that is not a mapping raises */
  function AccountIds(entries: seq<Value>): (r: Result<seq<Value>, Fault>)
    ensures r.Success? <==> AllMappings(entries)
    ensures r.Success? ==> |r.value| <= |entries|
    ensures r.Success? ==> forall k :: 0 <= k < |r.value| ==> Truthy(r.value[k])
    ensures r.Success? ==> forall k :: 0 <= k < |r.value| ==>
              exists i :: 0 <= i < |entries| && Get(entries[i].fields, "id", Null) == r.value[k]
    ensures r.Success? ==> forall i :: 0 <= i < |entries| && Truthy(Get(entries[i].fields, "id", Null)) ==>
              Get(entries[i].fields, "id", Null) in r.value
  {
    if |entries| == 0 then Success([])
    else if !entries[0].Obj? then Failure(NotAMapping("accounts"))
    else
      var rest :- AccountIds(entries[1..]);
      assert forall i :: 1 <= i < |entries| ==> entries[i] == entries[1..][i - 1];
      var id := Get(entries[0].fields, "id", Null);
      Success(if Truthy(id) then [id] + rest else rest)
  }

  /** One entry lists its id when that id is truthy, and nothing otherwise */
  lemma AccountIdsOfOne(e: Value)
    requires e.Obj?
    ensures var id := Get(e.fields, "id", Null);
      AccountIds([e]) == Success(if Truthy(id) then [id] else [])
  {
    assert [e][1..] == [];
    assert AccountIds([e][1..]) == Success([]);
    var id := Get(e.fields, "id", Null);
    assert [id] + [] == [id];
  }

  /** The ids of two runs of entries, one after the other, are the ids of
      each run one after the other: nothing is reordered, merged or dropped,
      so with `AccountIdsOfOne` the list is pinned entry by entry */
  lemma {:induction false} AccountIdsAppend(a: seq<Value>, b: seq<Value>)
    requires AllMappings(a) && AllMappings(b)
    ensures AccountIds(a + b) == Success(AccountIds(a).value + AccountIds(b).value)
    decreases |a|
  {
    if |a| == 0 {
      assert a + b == b;
      assert AccountIds(a).value == [];
      assert [] + AccountIds(b).value == AccountIds(b).value;
    } else {
      assert (a + b)[0] == a[0];
      assert (a + b)[1..] == a[1..] + b;
      assert AllMappings(a[1..]) by {
        forall i | 0 <= i < |a[1..]| ensures a[1..][i].Obj? {
          assert a[1..][i] == a[i + 1];
        }
      }
      AccountIdsAppend(a[1..], b);
      var id := Get(a[0].fields, "id", Null);
      var restA := AccountIds(a[1..]).value;
      var restB := AccountIds(b).value;
      if Truthy(id) {
        assert [id] + (restA + restB) == ([id] + restA) + restB;
      }
    }
  }

  /** Two entries with the same id are two accounts, and count twice */
  lemma DuplicateIdsCountTwice()
    ensures var e := Obj(map["id" := Str("FTMO-1")]);
      AccountIds([e, e]) == Success([Str("FTMO-1"), Str("FTMO-1")])
  {
    var e := Obj(map["id" := Str("FTMO-1")]);
    assert Get(e.fields, "id", Null) == Str("FTMO-1") && Truthy(Str("FTMO-1"));
    AccountIdsOfOne(e);
    AccountIdsAppend([e], [e]);
    assert [e] + [e] == [e, e];
    assert [Str("FTMO-1")] + [Str("FTMO-1")] == [Str("FTMO-1"), Str("FTMO-1")];
  }

  /** `e` is the equity of a row no other row is later than */
  predicate IsLatestEquity(rows: seq<Row>, e: real) {
    exists i :: 0 <= i < |rows| && rows[i].equity == e
      && forall j :: 0 <= j < |rows| ==> rows[j].timestamp <= rows[i].timestamp
  }

  /** The latest equity of one account: 0 when the table has none of its
      rows; a missing equity column raises once there is a row to read */
  function LatestEquity(f: Frame, acc: Value): (r: Result<real, Fault>)
    ensures |RowsOf(f, acc)| == 0 ==> r == Success(0.0)
    ensures |RowsOf(f, acc)| > 0 ==> (r.Success? <==> EquityCol in f.columns)
    ensures r.Success? && |RowsOf(f, acc)| > 0 ==> IsLatestEquity(RowsOf(f, acc), r.value)
  {
    var rows := RowsOf(f, acc);
    if |rows| == 0 then Success(0.0)
    else if EquityCol !in f.columns then Failure(MissingColumn(EquityCol))
    else
      var last := LastByTimestamp(rows);
      Success(last.equity)
  }

  /** Two partial totals added, or the first fault among them */
  function AddTotals(x: Result<real, Fault>, y: Result<real, Fault>): (r: Result<real, Fault>)
    ensures r.Success? <==> x.Success? && y.Success?
    ensures r.Success? ==> r.value == x.value + y.value
    ensures x.Failure? ==> r == x
    ensures x.Success? && y.Failure? ==> r == y
  {
    if x.Failure? then Failure(x.error)
    else if y.Failure? then Failure(y.error)
    else Success(x.value + y.value)
  }

  /** Per-account readings summed in order; the first fault wins */
  function SumTotals(rs: seq<Result<real, Fault>>): Result<real, Fault> {
    if |rs| == 0 then Success(0.0) else AddTotals(rs[0], SumTotals(rs[1..]))
  }

  /** The latest equity of every listed account, one entry per account */
  function Latests(f: Frame, accs: seq<Value>): (rs: seq<Result<real, Fault>>)
    ensures |rs| == |accs|
    ensures forall i :: 0 <= i < |accs| ==> rs[i] == LatestEquity(f, accs[i])
  {
    seq(|accs|, i requires 0 <= i < |accs| => LatestEquity(f, accs[i]))
  }

  /** The latest equities summed over a list of accounts */
  function SumLatest(f: Frame, accs: seq<Value>): Result<real, Fault> {
    SumTotals(Latests(f, accs))
  }

  /** Summing two lists one after the other sums their concatenation */
  lemma {:induction false} SumTotalsAppend(a: seq<Result<real, Fault>>, b: seq<Result<real, Fault>>)
    requires SumTotals(a).Success? && SumTotals(b).Success?
    ensures SumTotals(a + b) == Success(SumTotals(a).value + SumTotals(b).value)
    decreases |a|
  {
    if |a| == 0 {
      assert a + b == b;
    } else {
      assert (a + b)[0] == a[0];
      assert (a + b)[1..] == a[1..] + b;
      SumTotalsAppend(a[1..], b);
    }
  }

  /** The first reading that fails makes the whole sum fail with its fault */
  lemma {:induction false} SumTotalsFailsFrom(rs: seq<Result<real, Fault>>, i: nat)
    requires i < |rs| && SumTotals(rs[..i]).Success? && rs[i].Failure?
    ensures SumTotals(rs) == Failure(rs[i].error)
    decreases i
  {
    if i > 0 {
      assert rs[1..][i - 1] == rs[i];
      assert rs[..i][0] == rs[0];
      assert rs[..i][1..] == rs[1..][..i - 1];
      SumTotalsFailsFrom(rs[1..], i - 1);
    }
  }

  /** Readings that are never negative sum to a total that is not negative */
  lemma {:induction false} SumTotalsNonNegative(rs: seq<Result<real, Fault>>)
    requires forall i :: 0 <= i < |rs| && rs[i].Success? ==> rs[i].value >= 0.0
    requires SumTotals(rs).Success?
    ensures SumTotals(rs).value >= 0.0
    decreases |rs|
  {
    if |rs| > 0 {
      assert forall i :: 0 <= i < |rs[1..]| ==> rs[1..][i] == rs[i + 1];
      SumTotalsNonNegative(rs[1..]);
    }
  }

  /** One more readable reading extends a running total by its value */
  lemma SumTotalsStep(rs: seq<Result<real, Fault>>, i: nat, total: real)
    requires i < |rs| && SumTotals(rs[..i]) == Success(total) && rs[i].Success?
    ensures SumTotals(rs[..i + 1]) == Success(total + rs[i].value)
  {
    assert SumTotals([rs[i]]) == Success(rs[i].value);
    SumTotalsAppend(rs[..i], [rs[i]]);
    assert rs[..i + 1] == rs[..i] + [rs[i]];
  }

  /** No equity in the table is negative, so neither is the total */
  lemma SumLatestNonNegative(f: Frame, accs: seq<Value>)
    requires forall k :: 0 <= k < |f.rows| ==> f.rows[k].equity >= 0.0
    requires SumLatest(f, accs).Success?
    ensures SumLatest(f, accs).value >= 0.0
  {
    var rs := Latests(f, accs);
    forall i | 0 <= i < |rs| && rs[i].Success? ensures rs[i].value >= 0.0 {
      var rows := RowsOf(f, accs[i]);
      assert forall k :: 0 <= k < |rows| ==> rows[k] in f.rows;
    }
    SumTotalsNonNegative(rs);
  }

  /** Whether the equity table can be read at all (line 78) */
  predicate EquityUsable(eq: Option<Frame>) {
    eq.Some? && |eq.value.rows| > 0 && TimestampCol in eq.value.columns
  }

  /** Lines 79-83: the accounts' latest equities added up one account at a
      time, stopping at the first that cannot be read */
  method TotalEquity(f: Frame, accounts: seq<Value>) returns (r: Result<real, Fault>)
    ensures r == SumLatest(f, accounts)
  {
    ghost var rs := Latests(f, accounts);
    var total := 0.0;
    var i := 0;
    while i < |accounts|
      invariant 0 <= i <= |accounts|
      invariant SumTotals(rs[..i]) == Success(total)
    {
      var latest := LatestEquity(f, accounts[i]);
      if latest.Failure? {
        SumTotalsFailsFrom(rs, i);
        return Failure(latest.error);
      }
      SumTotalsStep(rs, i, total);
      total := total + latest.value;
      i := i + 1;
    }
    assert rs[..i] == rs;
    return Success(total);
  }

  /** What `_aggregate_prop_kpis()` promises over the loaded rules document
      and tables: it fails only where a list, an entry or an equity reading
      cannot be read, and otherwise reports the accounts, their count, the
      positive equity total and the day's PnL over every trade */
  predicate AggregateOutcome(rules: map<string, Value>, eq: Option<Frame>, trades: Option<Frame>,
                             r: Result<Aggregate, Fault>)
  {
    var ids := ListOrEmpty(Get(rules, "accounts", Null), "accounts");
    var accs := if ids.Success? then AccountIds(ids.value) else Failure(NotAMapping("accounts"));
    && (r.Success? <==>
          ids.Success? && accs.Success? && (EquityUsable(eq) ==> SumLatest(eq.value, accs.value).Success?))
    && (r.Success? ==>
          && r.value.accounts == accs.value
          && r.value.accountsCount == |accs.value|
          && (!EquityUsable(eq) ==> r.value.totalEquity.None?)
          && (EquityUsable(eq) ==>
                var total := SumLatest(eq.value, accs.value).value;
                r.value.totalEquity == if total > 0.0 then Some(total) else None)
          && (trades.Some? && |trades.value.rows| > 0 && PnlCol in trades.value.columns ==>
                r.value.pnlDay == SumPnl(trades.value.rows))
          && (trades.None? || |trades.value.rows| == 0 || PnlCol !in trades.value.columns ==>
                r.value.pnlDay == 0.0))
  }

  /** `_aggregate_prop_kpis()`, with the account selection of line 80 read
      as line 67 of the prop-firm tab guards it */
  method AggregatePropKpis(rules: map<string, Value>, eq: Option<Frame>, trades: Option<Frame>)
    returns (r: Result<Aggregate, Fault>)
    ensures AggregateOutcome(rules, eq, trades, r)
  {
    var ids := ListOrEmpty(Get(rules, "accounts", Null), "accounts");
    if ids.Failure? {
      return Failure(ids.error);
    }
    var accs := AccountIds(ids.value);
    if accs.Failure? {
      return Failure(accs.error);
    }
    var accounts := accs.value;
    var total := 0.0;
    if EquityUsable(eq) {
      var sum := TotalEquity(eq.value, accounts);
      if sum.Failure? {
        return Failure(sum.error);
      }
      total := sum.value;
    }
    var pnlDay := 0.0;
    if trades.Some? && |trades.value.rows| > 0 && PnlCol in trades.value.columns {
      pnlDay := SumPnl(trades.value.rows);
    }
    return Success(Aggregate(|accounts|, if total > 0.0 then Some(total) else None, pnlDay, accounts));
  }

  /** Line 80 as written raises: a usable equity table without the account
      column, and at least one account to select */
  predicate SelectionRaises(rules: map<string, Value>, eq: Option<Frame>) {
    var ids := ListOrEmpty(Get(rules, "accounts", Null), "accounts");
    && EquityUsable(eq) && AccountIdCol !in eq.value.columns
    && ids.Success? && AccountIds(ids.value).Success? && |AccountIds(ids.value).value| > 0
  }

  /** `eq_df[eq_df.get("account_id", acc) == acc]` on line 80 as written:
      without the column the aggregate raises as soon as there is an account;
      in every other case it is the aggregate above */
  method AggregateAsWritten(rules: map<string, Value>, eq: Option<Frame>, trades: Option<Frame>)
    returns (r: Result<Aggregate, Fault>)
    ensures SelectionRaises(rules, eq) ==> r.Failure?
    ensures !SelectionRaises(rules, eq) ==> AggregateOutcome(rules, eq, trades, r)
  {
    if SelectionRaises(rules, eq) {
      var ids := ListOrEmpty(Get(rules, "accounts", Null), "accounts");
      var accs := AccountIds(ids.value);
      var sub := RowsOfAsWritten(eq.value, accs.value[0]);
      return Failure(sub.error);
    }
    r := AggregatePropKpis(rules, eq, trades);
  }
}
