/** The valuation behind the portfolio analysis tab, `runAnalysis` in
    frontend/src/components/dashboard/PortfolioAnalysisView.jsx: each holding
    is valued at its live price (its average purchase price when none is
    known), the rows are ranked by P/L, and the best and worst performers are
    picked.  `TotalCurrentValue` is also the dashboard's portfolio value. */
module PortfolioAnalysis {
  import opened Wrappers
  import opened Records
  import opened PriceCache
  import Sorting
  import Ledger

  /** `{ ...holding, currentPrice, currentValue, profitOrLoss }`. */
  datatype DetailedHolding = DetailedHolding(holding: Holding, currentPrice: real, currentValue: real, profitOrLoss: real)

  /** The object handed to `setAnalysis`. */
  datatype Analysis = Analysis(
    totalCurrentValue: real,
    unrealizedPL: real,
    totalRealizedPL: real,
    overallPL: real,
    detailedHoldings: seq<DetailedHolding>,
    bestPerformer: Option<DetailedHolding>,
    worstPerformer: Option<DetailedHolding>)

  const ProfitOrLoss: DetailedHolding -> real := (d: DetailedHolding) => d.profitOrLoss
  const CurrentValue: DetailedHolding -> real := (d: DetailedHolding) => d.currentValue
  const CostOf: DetailedHolding -> real := (d: DetailedHolding) => CostBasis(d.holding)
  function RealizedOf(tx: Transaction): real { RealizedAmount(tx) }

  /** `livePrices[ticker] || average_purchase_price`. */
  function CurrentPrice(prices: map<string, real>, h: Holding): real {
    if HasTruthyPrice(prices, h.ticker) then prices[h.ticker] else h.averagePurchasePrice
  }

  /** One row of the `holdings.map(...)`. */
  function Detail(prices: map<string, real>, h: Holding): DetailedHolding {
    var currentPrice := CurrentPrice(prices, h);
    var currentValue := currentPrice * h.quantity as real;
    DetailedHolding(h, currentPrice, currentValue, currentValue - CostBasis(h))
  }

  function Details(prices: map<string, real>, hs: seq<Holding>): (ds: seq<DetailedHolding>)
    ensures |ds| == |hs| && forall i :: 0 <= i < |hs| ==> ds[i] == Detail(prices, hs[i])
  {
    seq(|hs|, i requires 0 <= i < |hs| => Detail(prices, hs[i]))
  }

  /** The sum of `f` over `s`, first element first. */
  function SumOf<T>(s: seq<T>, f: T -> real): real {
    if s == [] then 0.0 else f(s[0]) + SumOf(s[1..], f)
  }

  /** The portfolio's value at the given prices. */
  function TotalCurrentValue(prices: map<string, real>, hs: seq<Holding>): real {
    SumOf(Details(prices, hs), CurrentValue)
  }

  /** What the analysis reports for the given prices, holdings and
      transactions; `detailedHoldings.sort((a, b) => b.profitOrLoss -
      a.profitOrLoss)` is the stable descending sort. */
  function Evaluate(prices: map<string, real>, hs: seq<Holding>, txs: seq<Transaction>): Analysis {
    var ds := Details(prices, hs);
    var totalCurrentValue := SumOf(ds, CurrentValue);
    var unrealizedPL := totalCurrentValue - SumOf(ds, CostOf);
    var totalRealizedPL := SumOf(txs, RealizedOf);
    var ranked := Sorting.SortDesc(ds, ProfitOrLoss);
    Analysis(totalCurrentValue, unrealizedPL, totalRealizedPL, unrealizedPL + totalRealizedPL, ranked,
             if |ranked| > 0 then Some(ranked[0]) else None,
             if |ranked| > 0 then Some(ranked[|ranked| - 1]) else None)
  }

  // ----- sums -----

  lemma {:induction false} SumOfConcat<T>(a: seq<T>, b: seq<T>, f: T -> real)
    ensures SumOf(a + b, f) == SumOf(a, f) + SumOf(b, f)
    decreases |a|
  {
    if a == [] {
      assert a + b == b;
    } else {
      SumOfConcat(a[1..], b, f);
      assert (a + b)[1..] == a[1..] + b;
    }
  }

  lemma SumOfSnoc<T>(s: seq<T>, i: nat, f: T -> real)
    requires i < |s|
    ensures SumOf(s[..i + 1], f) == SumOf(s[..i], f) + f(s[i])
  {
    assert s[..i + 1] == s[..i] + [s[i]];
    SumOfConcat(s[..i], [s[i]], f);
  }

  /** A sum does not depend on the order of its terms. */
  lemma {:induction false} SumOfPermutation<T>(a: seq<T>, b: seq<T>, f: T -> real)
    requires multiset(a) == multiset(b)
    ensures SumOf(a, f) == SumOf(b, f)
    decreases |a|
  {
    if a == [] {
      assert |b| == |multiset(b)| == 0;
    } else {
      var x := a[0];
      assert x in multiset(b);
      var k :| 0 <= k < |b| && b[k] == x;
      var rest := b[..k] + b[k + 1..];
      assert b == b[..k] + ([x] + b[k + 1..]);
      assert a == [x] + a[1..];
      assert multiset(b) == multiset(b[..k]) + multiset{x} + multiset(b[k + 1..]);
      assert multiset(rest) == multiset(b[..k]) + multiset(b[k + 1..]);
      assert multiset(a) == multiset{x} + multiset(a[1..]);
      assert multiset(a[1..]) == multiset(a) - multiset{x};
      assert multiset(rest) == multiset(b) - multiset{x};
      SumOfPermutation(a[1..], rest, f);
      SumOfConcat(b[..k], [x] + b[k + 1..], f);
      SumOfConcat(b[..k], b[k + 1..], f);
      assert ([x] + b[k + 1..])[1..] == b[k + 1..];
    }
  }

  /** Termwise `f == g - h` gives `SumOf(f) == SumOf(g) - SumOf(h)`. */
  lemma {:induction false} SumOfDifference<T>(s: seq<T>, f: T -> real, g: T -> real, h: T -> real)
    requires forall i :: 0 <= i < |s| ==> f(s[i]) == g(s[i]) - h(s[i])
    ensures SumOf(s, f) == SumOf(s, g) - SumOf(s, h)
    decreases |s|
  {
    if s != [] {
      SumOfDifference(s[1..], f, g, h);
    }
  }

  // ----- the analysis -----

  /** The totals agree with the rows shown: the current value is the sum of
      the rows' values, the unrealized P/L the sum of their P/Ls, and the
      overall P/L adds the realized P/L of the sells. */
  lemma EvaluateTotals(prices: map<string, real>, hs: seq<Holding>, txs: seq<Transaction>)
    ensures var a := Evaluate(prices, hs, txs);
      && a.totalCurrentValue == SumOf(a.detailedHoldings, CurrentValue)
      && a.unrealizedPL == SumOf(a.detailedHoldings, ProfitOrLoss)
      && a.overallPL == a.unrealizedPL + a.totalRealizedPL
  {
    var ds := Details(prices, hs);
    var ranked := Sorting.SortDesc(ds, ProfitOrLoss);
    SumOfPermutation(ds, ranked, CurrentValue);
    SumOfPermutation(ds, ranked, ProfitOrLoss);
    SumOfDifference(ds, ProfitOrLoss, CurrentValue, CostOf);
  }

  /** The rows are the holdings' details, best P/L first, ties in holding
      order; the best performer has the highest P/L, the worst the lowest,
      and there are performers exactly when there are holdings. */
  lemma EvaluateRanking(prices: map<string, real>, hs: seq<Holding>, txs: seq<Transaction>)
    ensures var a := Evaluate(prices, hs, txs);
      && multiset(a.detailedHoldings) == multiset(Details(prices, hs))
      && Sorting.SortedDesc(a.detailedHoldings, ProfitOrLoss)
      && (forall v :: Sorting.WithKey(a.detailedHoldings, ProfitOrLoss, v)
                   == Sorting.WithKey(Details(prices, hs), ProfitOrLoss, v))
      && (a.bestPerformer.Some? <==> |hs| > 0)
      && (a.worstPerformer.Some? <==> |hs| > 0)
      && (a.bestPerformer.Some? ==>
            && a.bestPerformer.value in a.detailedHoldings
            && forall i :: 0 <= i < |hs| ==> Details(prices, hs)[i].profitOrLoss <= a.bestPerformer.value.profitOrLoss)
      && (a.worstPerformer.Some? ==>
            && a.worstPerformer.value in a.detailedHoldings
            && forall i :: 0 <= i < |hs| ==> a.worstPerformer.value.profitOrLoss <= Details(prices, hs)[i].profitOrLoss)
  {
    var ds := Details(prices, hs);
    var ranked := Sorting.SortDesc(ds, ProfitOrLoss);
    var a := Evaluate(prices, hs, txs);
    assert a.detailedHoldings == ranked;
    forall v ensures Sorting.WithKey(ranked, ProfitOrLoss, v) == Sorting.WithKey(ds, ProfitOrLoss, v) {
      Sorting.SortDescStable(ds, ProfitOrLoss, v);
    }
    assert |ranked| == |multiset(ranked)| == |multiset(ds)| == |ds| == |hs|;
    if |hs| > 0 {
      Sorting.SortedExtremes(ds, ranked, ProfitOrLoss);
      assert a.bestPerformer == Some(ranked[0]) && a.worstPerformer == Some(ranked[|ranked| - 1]);
      assert forall i :: 0 <= i < |hs| ==> ProfitOrLoss(ds[i]) == ds[i].profitOrLoss;
      assert ProfitOrLoss(ranked[0]) == ranked[0].profitOrLoss;
      assert ProfitOrLoss(ranked[|ranked| - 1]) == ranked[|ranked| - 1].profitOrLoss;
    } else {
      assert a.bestPerformer == None && a.worstPerformer == None;
    }
  }

  /** A holding is valued at the price the cache settled for it: what the
      cache held if truthy, else a truthy quote, else the average purchase
      price.  Tickers are distinct within one user's holdings. */
  lemma ValuationPrice(slot: StoredCache, today: string, hs: seq<Holding>, quote: string -> Option<real>, i: nat)
    requires DistinctTickers(hs) && i < |hs|
    ensures var cached, prices := ForToday(Load(slot), today).prices, Resolve(slot, today, hs, quote).prices;
      var t, answer := hs[i].ticker, quote(hs[i].ticker);
      && t in prices
      && CurrentPrice(prices, hs[i]) == prices[t]
      && (HasTruthyPrice(cached, t) ==> CurrentPrice(prices, hs[i]) == cached[t])
      && (!HasTruthyPrice(cached, t) && answer.Some? && Truthy(answer.value) ==>
            CurrentPrice(prices, hs[i]) == answer.value)
      && (!HasTruthyPrice(cached, t) && !(answer.Some? && Truthy(answer.value)) ==>
            CurrentPrice(prices, hs[i]) == hs[i].averagePurchasePrice)
  {
    ResolvePrice(slot, today, hs, quote, i);
  }

  lemma {:induction false} CostIsInvested(prices: map<string, real>, hs: seq<Holding>, owner: nat)
    requires forall i :: 0 <= i < |hs| ==> hs[i].owner == owner
    ensures SumOf(Details(prices, hs), CostOf) == Ledger.Invested(hs, owner)
    decreases |hs|
  {
    if hs != [] {
      CostIsInvested(prices, hs[1..], owner);
      assert Details(prices, hs)[1..] == Details(prices, hs[1..]);
    }
  }

  lemma {:induction false} RealizedIsLedgerRealized(txs: seq<Transaction>, owner: nat)
    requires forall i :: 0 <= i < |txs| ==> txs[i].owner == owner
    ensures SumOf(txs, RealizedOf) == Ledger.Realized(txs, owner)
    decreases |txs|
  {
    if txs != [] {
      RealizedIsLedgerRealized(txs[1..], owner);
    }
  }

  /** On a user's own holdings and transactions (what `/dashboard/` returns),
      the overall P/L is what the account (budget plus holdings at current
      value) is worth beyond the capital the ledger keeps constant across
      trades. */
  lemma OverallAgainstCapital(db: Ledger.Database, prices: map<string, real>, u: nat)
    requires u < |db.users|
    ensures var hs := Ledger.HoldingsOf(db.holdings, u);
      var txs := Ledger.TransactionsOf(db.transactions, u);
      Evaluate(prices, hs, txs).overallPL == (db.users[u].budget + TotalCurrentValue(prices, hs)) - db.Capital(u)
  {
    var hs := Ledger.HoldingsOf(db.holdings, u);
    var txs := Ledger.TransactionsOf(db.transactions, u);
    CostIsInvested(prices, hs, u);
    RealizedIsLedgerRealized(txs, u);
  }

  // ----- the movers -----

  datatype Mover = Best | Worst

  /** MoverCard renders nothing without a performer, nor for a worst
      performer that has not lost money. */
  predicate MoverShown(kind: Mover, performer: Option<DetailedHolding>) {
    performer.Some? && !(kind == Worst && performer.value.profitOrLoss >= 0.0)
  }

  /** The best card shows whenever there are holdings; the worst card exactly
      when some holding is at a loss. */
  lemma MoverCards(prices: map<string, real>, hs: seq<Holding>, txs: seq<Transaction>)
    ensures var a := Evaluate(prices, hs, txs);
      && (MoverShown(Best, a.bestPerformer) <==> |hs| > 0)
      && (MoverShown(Worst, a.worstPerformer) <==>
            exists i :: 0 <= i < |hs| && Details(prices, hs)[i].profitOrLoss < 0.0)
  {
    var a := Evaluate(prices, hs, txs);
    EvaluateRanking(prices, hs, txs);
    if MoverShown(Worst, a.worstPerformer) {
      var w := a.worstPerformer.value;
      assert w in multiset(Details(prices, hs));
    }
  }

  /** The `holdings.map(...)` of `runAnalysis`, with the two totals it
      accumulates as it goes. */
  method ValueHoldings(livePrices: map<string, real>, holdings: seq<Holding>)
    returns (detailedHoldings: seq<DetailedHolding>, totalInvested: real, totalCurrentValue: real)
    ensures detailedHoldings == Details(livePrices, holdings)
    ensures totalInvested == SumOf(detailedHoldings, CostOf)
    ensures totalCurrentValue == SumOf(detailedHoldings, CurrentValue)
  {
    totalInvested := 0.0;
    totalCurrentValue := 0.0;
    detailedHoldings := [];
    ghost var ds := Details(livePrices, holdings);
    for i := 0 to |holdings|
      invariant detailedHoldings == ds[..i]
      invariant totalInvested == SumOf(ds[..i], CostOf)
      invariant totalCurrentValue == SumOf(ds[..i], CurrentValue)
    {
      var holding := holdings[i];
      var currentPrice := if HasTruthyPrice(livePrices, holding.ticker) then livePrices[holding.ticker]
                          else holding.averagePurchasePrice;
      var costBasis := holding.averagePurchasePrice * holding.quantity as real;
      var currentValue := currentPrice * holding.quantity as real;
      var profitOrLoss := currentValue - costBasis;
      assert ds[i] == DetailedHolding(holding, currentPrice, currentValue, profitOrLoss);
      SumOfSnoc(ds, i, CostOf);
      SumOfSnoc(ds, i, CurrentValue);
      assert ds[..i + 1] == ds[..i] + [ds[i]];
      totalInvested := totalInvested + costBasis;
      totalCurrentValue := totalCurrentValue + currentValue;
      detailedHoldings := detailedHoldings + [DetailedHolding(holding, currentPrice, currentValue, profitOrLoss)];
    }
    assert ds[..|holdings|] == ds;
  }

  /** The `transactions.forEach(...)` of `runAnalysis`: the recorded P/L of
      every SELL that has one. */
  method RealizedTotal(transactions: seq<Transaction>) returns (totalRealizedPL: real)
    ensures totalRealizedPL == SumOf(transactions, RealizedOf)
  {
    totalRealizedPL := 0.0;
    for j := 0 to |transactions|
      invariant totalRealizedPL == SumOf(transactions[..j], RealizedOf)
    {
      var tx := transactions[j];
      SumOfSnoc(transactions, j, RealizedOf);
      if tx.kind == Sell && tx.profitOrLoss.Some? {
        totalRealizedPL := totalRealizedPL + tx.profitOrLoss.value;
      }
    }
    assert transactions[..|transactions|] == transactions;
  }

  /** `runAnalysis` on prices already fetched. */
  method Analyze(livePrices: map<string, real>, holdings: seq<Holding>, transactions: seq<Transaction>)
    returns (a: Analysis)
    ensures a == Evaluate(livePrices, holdings, transactions)
  {
    var detailedHoldings, totalInvested, totalCurrentValue := ValueHoldings(livePrices, holdings);
    var unrealizedPL := totalCurrentValue - totalInvested;
    var totalRealizedPL := RealizedTotal(transactions);
    detailedHoldings := Sorting.SortDesc(detailedHoldings, ProfitOrLoss);
    a := Analysis(totalCurrentValue, unrealizedPL, totalRealizedPL, unrealizedPL + totalRealizedPL,
                  detailedHoldings,
                  if |detailedHoldings| > 0 then Some(detailedHoldings[0]) else None,
                  if |detailedHoldings| > 0 then Some(detailedHoldings[|detailedHoldings| - 1]) else None);
  }

  /** `holdings` and `transactions` as the component receives them: either
      may be null. */
  predicate Blank<T>(xs: Option<seq<T>>) {
    xs.None? || |xs.value| == 0
  }

  function OrEmpty<T>(xs: Option<seq<T>>): seq<T> {
    if xs.Some? then xs.value else []
  }

  /** The component's state. */
  class AnalysisView {
    var analysis: Option<Analysis>
    var loading: bool

    constructor ()
      ensures analysis == None && loading
    {
      analysis := None;
      loading := true;
    }

    /** One run of the effect: with neither holdings nor transactions it
        fetches nothing and leaves the previous analysis in place; otherwise
        it fetches through the cache and publishes the evaluation. */
    method RunAnalysis(store: Storage, holdings: Option<seq<Holding>>, transactions: Option<seq<Transaction>>,
                       today: string, quote: string -> Option<real>)
      modifies this, store
      ensures !loading
      ensures Blank(holdings) && Blank(transactions) ==>
        analysis == old(analysis) && store.stockPriceCache == old(store.stockPriceCache)
        && store.writes == old(store.writes)
      ensures !(Blank(holdings) && Blank(transactions)) ==>
        var r := Resolve(old(store.stockPriceCache), today, OrEmpty(holdings), quote);
        && analysis == Some(Evaluate(r.prices, OrEmpty(holdings), OrEmpty(transactions)))
        && store.stockPriceCache == SlotAfter(old(store.stockPriceCache), r)
        && store.writes == old(store.writes) + (if r.written.Some? then 1 else 0)
    {
      if Blank(holdings) && Blank(transactions) {
        loading := false;
        return;
      }
      loading := true;
      var livePrices, _ := store.FetchAndCacheLivePrices(today, OrEmpty(holdings), quote);
      var a := Analyze(livePrices, OrEmpty(holdings), OrEmpty(transactions));
      analysis := Some(a);
      loading := false;
    }
  }
}
