/** The transaction history table of
    frontend/src/components/dashboard/TransactionsView.jsx: the
    transactions newest first, one row each, or a single "No Transactions
    Yet" row when there are none. */
module TransactionsView {
  import opened Wrappers
  import opened Records
  import Sorting
  import PortfolioAnalysis
  import Ledger

  datatype Colour = Green | Red | Grey

  /** The P/L cell: the amount of a SELL, a dash for a BUY. */
  datatype PLCell = Amount(value: real) | Dash

  datatype Row = Row(tx: Transaction, typeColour: Colour, plColour: Colour, pl: PLCell)

  datatype Table = NoTransactionsYet | Rows(rows: seq<Row>)

  /** `new Date(b.timestamp) - new Date(a.timestamp)` orders by time. */
  const Timestamp: Transaction -> real := (tx: Transaction) => tx.timestamp as real

  /** `[...transactions].sort(...)`: newest first, stable. */
  function SortedTransactions(txs: seq<Transaction>): seq<Transaction> {
    Sorting.SortDesc(txs, Timestamp)
  }

  /** A missing P/L compares neither above nor below zero. */
  function PLColour(pl: Option<real>): Colour {
    if pl.Some? && pl.value > 0.0 then Green
    else if pl.Some? && pl.value < 0.0 then Red
    else Grey
  }

  /** One row, or None when the row cannot be rendered: a SELL with no P/L
      makes `toLocaleString` fail on null. */
  function RenderRow(tx: Transaction): Option<Row> {
    var typeColour := if tx.kind == Buy then Green else Red;
    if tx.kind == Sell then
      if tx.profitOrLoss.Some? then Some(Row(tx, typeColour, PLColour(tx.profitOrLoss), Amount(tx.profitOrLoss.value)))
      else None
    else Some(Row(tx, typeColour, PLColour(tx.profitOrLoss), Dash))
  }

  function RenderRows(txs: seq<Transaction>): Option<seq<Row>> {
    if txs == [] then Some([])
    else
      match (RenderRow(txs[0]), RenderRows(txs[1..]))
      case (Some(row), Some(rows)) => Some([row] + rows)
      case _ => None
  }

  /** The table body, or None when rendering fails. */
  function Render(txs: seq<Transaction>): Option<Table> {
    var sorted := SortedTransactions(txs);
    if |sorted| > 0 then
      match RenderRows(sorted)
      case Some(rows) => Some(Rows(rows))
      case None => None
    else Some(NoTransactionsYet)
  }

  predicate SellsHaveAmounts(txs: seq<Transaction>) {
    forall i :: 0 <= i < |txs| ==> txs[i].kind == Sell ==> txs[i].profitOrLoss.Some?
  }

  /** What a row's P/L cell adds up to. */
  const CellAmount: Row -> real := (row: Row) => if row.pl.Amount? then row.pl.value else 0.0

  /** The order: newest first, the same transactions, and those with the
      same timestamp in the order the server sent them; it is the only such
      order. */
  lemma SortedTransactionsOrder(txs: seq<Transaction>)
    ensures var s := SortedTransactions(txs);
      && multiset(s) == multiset(txs)
      && (forall i, j :: 0 <= i < j < |s| ==> s[i].timestamp >= s[j].timestamp)
      && (forall v :: Sorting.WithKey(s, Timestamp, v) == Sorting.WithKey(txs, Timestamp, v))
  {
    var s := SortedTransactions(txs);
    forall v ensures Sorting.WithKey(s, Timestamp, v) == Sorting.WithKey(txs, Timestamp, v) {
      Sorting.SortDescStable(txs, Timestamp, v);
    }
    assert Sorting.SortedDesc(s, Timestamp);
    forall i, j | 0 <= i < j < |s| ensures s[i].timestamp >= s[j].timestamp {
      assert Timestamp(s[i]) >= Timestamp(s[j]);
    }
  }

  /** Rows render exactly when every SELL carries its P/L, one per
      transaction and in order, each with its cells as the table shows them. */
  lemma {:induction false} RenderRowsCells(txs: seq<Transaction>)
    ensures RenderRows(txs).Some? <==> SellsHaveAmounts(txs)
    ensures RenderRows(txs).Some? ==>
      var rows := RenderRows(txs).value;
      && |rows| == |txs|
      && forall i :: 0 <= i < |txs| ==>
           && rows[i].tx == txs[i]
           && (rows[i].pl == Dash <==> txs[i].kind == Buy)
           && (txs[i].kind == Sell ==> rows[i].pl == Amount(txs[i].profitOrLoss.value))
           && (rows[i].typeColour == Green <==> txs[i].kind == Buy)
           && (rows[i].plColour == Green <==> txs[i].profitOrLoss.Some? && txs[i].profitOrLoss.value > 0.0)
           && (rows[i].plColour == Red <==> txs[i].profitOrLoss.Some? && txs[i].profitOrLoss.value < 0.0)
    decreases |txs|
  {
    if txs != [] {
      RenderRowsCells(txs[1..]);
      if SellsHaveAmounts(txs) {
        assert SellsHaveAmounts(txs[1..]) by {
          forall i | 0 <= i < |txs[1..]| ensures txs[1..][i].kind == Sell ==> txs[1..][i].profitOrLoss.Some? {
            assert txs[1..][i] == txs[i + 1];
          }
        }
        var rows := RenderRows(txs).value;
        assert rows == [RenderRow(txs[0]).value] + RenderRows(txs[1..]).value;
        forall i | 1 <= i < |txs| ensures rows[i].tx == txs[i] {
          assert rows[i] == RenderRows(txs[1..]).value[i - 1];
        }
      } else {
        var k :| 0 <= k < |txs| && txs[k].kind == Sell && txs[k].profitOrLoss.None?;
        if k > 0 {
          assert txs[1..][k - 1] == txs[k];
        }
      }
    }
  }

  /** The empty state shows exactly when there are no transactions; the
      rows otherwise follow the sorted order, one per transaction. */
  lemma RenderTable(txs: seq<Transaction>)
    ensures Render(txs) == Some(NoTransactionsYet) <==> txs == []
    ensures Render(txs).Some? <==> SellsHaveAmounts(txs)
    ensures Render(txs).Some? && txs != [] ==>
      && Render(txs).value.Rows? && |Render(txs).value.rows| == |txs| && |SortedTransactions(txs)| == |txs|
      && forall i :: 0 <= i < |txs| ==> Render(txs).value.rows[i].tx == SortedTransactions(txs)[i]
  {
    var s := SortedTransactions(txs);
    assert |s| == |multiset(s)| == |multiset(txs)| == |txs|;
    RenderRowsCells(s);
    if SellsHaveAmounts(txs) {
      SellsHaveAmountsPermutation(txs, s);
    }
    if SellsHaveAmounts(s) {
      SellsHaveAmountsPermutation(s, txs);
    }
  }

  lemma SellsHaveAmountsPermutation(a: seq<Transaction>, b: seq<Transaction>)
    requires multiset(a) == multiset(b) && SellsHaveAmounts(a)
    ensures SellsHaveAmounts(b)
  {
    forall i | 0 <= i < |b| ensures b[i].kind == Sell ==> b[i].profitOrLoss.Some? {
      assert b[i] in multiset(a);
    }
  }

  /** The ledger's invariant gives every SELL a P/L, so its transactions
      always render. */
  lemma LedgerTransactionsRender(txs: seq<Transaction>, userCount: nat)
    requires Ledger.TransactionsValid(txs, userCount)
    ensures SellsHaveAmounts(txs) && Render(txs).Some?
  {
    RenderTable(txs);
  }

  /** When every SELL has a P/L, the table has rows and its P/L column adds
      up to the realized P/L of the portfolio analysis. */
  lemma TableMatchesRealized(txs: seq<Transaction>)
    requires SellsHaveAmounts(txs) && txs != []
    ensures Render(txs).Some? && Render(txs).value.Rows?
    ensures PortfolioAnalysis.SumOf(Render(txs).value.rows, CellAmount)
         == PortfolioAnalysis.SumOf(txs, PortfolioAnalysis.RealizedOf)
  {
    RenderTable(txs);
    var s := SortedTransactions(txs);
    RenderRowsCells(s);
    var rows := Render(txs).value.rows;
    assert |s| == |txs|;
    RowsSum(rows, s);
    PortfolioAnalysis.SumOfPermutation(s, txs, PortfolioAnalysis.RealizedOf);
  }

  lemma {:induction false} RowsSum(rows: seq<Row>, txs: seq<Transaction>)
    requires |rows| == |txs|
    requires forall i :: 0 <= i < |txs| ==>
      && rows[i].tx == txs[i]
      && (rows[i].pl == Dash <==> txs[i].kind == Buy)
      && (txs[i].kind == Sell ==> txs[i].profitOrLoss.Some? && rows[i].pl == Amount(txs[i].profitOrLoss.value))
    ensures PortfolioAnalysis.SumOf(rows, CellAmount) == PortfolioAnalysis.SumOf(txs, PortfolioAnalysis.RealizedOf)
    decreases |rows|
  {
    if rows != [] {
      RowsSum(rows[1..], txs[1..]);
    }
  }
}
