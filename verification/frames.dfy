/** The CSV tables the dashboard reads (intraday equity, trades of the day)
    as sequences of rows, and the pandas selections the KPI code applies to
    them. A cell of a column the file does not have is never read. */
module Frames {
  import opened Wrappers
  import opened Values

  const AccountIdCol: string := "account_id"
  const TimestampCol: string := "timestamp"
  const EquityCol: string := "equity"
  const PnlCol: string := "pnl"

  /** One CSV row; `accountId` is `Null` for an empty cell */
  datatype Row = Row(accountId: Value, timestamp: real, equity: real, pnl: real)

  /** A loaded table: the columns the file declares and its rows in file order */
  datatype Frame = Frame(columns: set<string>, rows: seq<Row>)

  /** `frame["account_id"] == acc` for one row: an empty cell matches nothing */
  predicate Matches(r: Row, acc: Value) {
    r.accountId != Null && r.accountId == acc
  }

  /** The rows of one account, in file order */
  function Filter(rows: seq<Row>, acc: Value): (r: seq<Row>)
    ensures |r| <= |rows|
    ensures forall i :: 0 <= i < |r| ==> Matches(r[i], acc) && r[i] in rows
    ensures forall i :: 0 <= i < |rows| && Matches(rows[i], acc) ==> rows[i] in r
  {
    if |rows| == 0 then []
    else
      var rest := Filter(rows[1..], acc);
      assert forall i :: 0 <= i < |rest| ==> rest[i] in rows by {
        forall i | 0 <= i < |rest| ensures rest[i] in rows {
          assert rest[i] in rows[1..];
        }
      }
      assert forall i :: 1 <= i < |rows| ==> rows[i] == rows[1..][i - 1];
      if Matches(rows[0], acc) then [rows[0]] + rest else rest
  }

  /** A matching row is kept as many times as the table holds it, and no
      row is kept more often than the table holds it */
  lemma {:induction false} FilterKeepsCopies(rows: seq<Row>, acc: Value)
    ensures multiset(Filter(rows, acc)) <= multiset(rows)
    ensures forall x | Matches(x, acc) :: multiset(Filter(rows, acc))[x] == multiset(rows)[x]
    decreases |rows|
  {
    if |rows| > 0 {
      FilterKeepsCopies(rows[1..], acc);
      assert rows == [rows[0]] + rows[1..];
      assert multiset(rows) == multiset{rows[0]} + multiset(rows[1..]);
    }
  }

  /** Selecting from two runs of rows keeps each run's matches, the first
      run's before the second's: file order is kept */
  lemma {:induction false} FilterAppend(a: seq<Row>, b: seq<Row>, acc: Value)
    ensures Filter(a + b, acc) == Filter(a, acc) + Filter(b, acc)
    decreases |a|
  {
    if |a| == 0 {
      assert a + b == b;
    } else {
      assert (a + b)[0] == a[0];
      assert (a + b)[1..] == a[1..] + b;
      FilterAppend(a[1..], b, acc);
    }
  }

  /** The rows not of that account */
  function FilterOut(rows: seq<Row>, acc: Value): seq<Row> {
    if |rows| == 0 then []
    else
      var rest := FilterOut(rows[1..], acc);
      if Matches(rows[0], acc) then rest else [rows[0]] + rest
  }

  /** `df[df["account_id"] == acc] if "account_id" in df.columns else df`:
      a table without the column belongs wholly to the account */
  function RowsOf(f: Frame, acc: Value): (r: seq<Row>)
    ensures AccountIdCol !in f.columns ==> r == f.rows
    ensures AccountIdCol in f.columns ==> r == Filter(f.rows, acc)
  {
    if AccountIdCol in f.columns then Filter(f.rows, acc) else f.rows
  }

  /** `df[df.get("account_id", acc) == acc]` as written: without the column
      the mask is the scalar `True`, and indexing with it raises KeyError */
  function RowsOfAsWritten(f: Frame, acc: Value): (r: Result<seq<Row>, Fault>)
    ensures r.Success? <==> AccountIdCol in f.columns
    ensures r.Success? ==> r.value == RowsOf(f, acc)
  {
    if AccountIdCol in f.columns then Success(Filter(f.rows, acc))
    else Failure(MissingColumn("True"))
  }

  /** A trades table without an account column: the selection as written
      raises where the intended one keeps every row */
  lemma AsWrittenSelectionRaises()
    ensures var f := Frame({PnlCol}, [Row(Null, 0.0, 0.0, 25.0)]);
      RowsOfAsWritten(f, Str("FTMO-1")).Failure? && RowsOf(f, Str("FTMO-1")) == f.rows
  {
  }

  /** `sort_values("timestamp").iloc[-1]`: a row with the latest timestamp;
      among rows sharing it, the last in file order */
  function LastByTimestamp(rows: seq<Row>): (r: Row)
    requires |rows| > 0
    ensures r in rows
    ensures forall i :: 0 <= i < |rows| ==> rows[i].timestamp <= r.timestamp
  {
    if |rows| == 1 then rows[0]
    else
      var init := rows[..|rows| - 1];
      var best := LastByTimestamp(init);
      assert forall i :: 0 <= i < |rows| - 1 ==> rows[i] == init[i];
      if rows[|rows| - 1].timestamp >= best.timestamp then rows[|rows| - 1] else best
  }

  /** `df["equity"].max()` */
  function PeakEquity(rows: seq<Row>): (p: real)
    requires |rows| > 0
    ensures forall i :: 0 <= i < |rows| ==> rows[i].equity <= p
    ensures exists i :: 0 <= i < |rows| && rows[i].equity == p
  {
    if |rows| == 1 then rows[0].equity
    else
      var rest := PeakEquity(rows[1..]);
      assert forall i :: 1 <= i < |rows| ==> rows[i] == rows[1..][i - 1];
      if rows[0].equity >= rest then rows[0].equity else rest
  }

  /** `df["pnl"].sum()` */
  function SumPnl(rows: seq<Row>): real {
    if |rows| == 0 then 0.0 else rows[0].pnl + SumPnl(rows[1..])
  }

  /** The PnL of two runs of trades is the sum of their PnLs */
  lemma {:induction false} SumPnlAppend(a: seq<Row>, b: seq<Row>)
    ensures SumPnl(a + b) == SumPnl(a) + SumPnl(b)
    decreases |a|
  {
    if |a| == 0 {
      assert a + b == b;
    } else {
      assert (a + b)[0] == a[0];
      assert (a + b)[1..] == a[1..] + b;
      SumPnlAppend(a[1..], b);
    }
  }

  /** Every trade is either the account's or not: the two sums make the total */
  lemma {:induction false} SumPnlSplits(rows: seq<Row>, acc: Value)
    ensures SumPnl(rows) == SumPnl(Filter(rows, acc)) + SumPnl(FilterOut(rows, acc))
    decreases |rows|
  {
    if |rows| > 0 {
      SumPnlSplits(rows[1..], acc);
    }
  }
}
