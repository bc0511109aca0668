/** The portfolio value in the dashboard header, `calculateValue` in
    frontend/src/pages/DashboardPage.jsx: the account's holdings valued at
    the cache's live prices. */
module Dashboard {
  import opened Wrappers
  import opened Records
  import opened PriceCache
  import opened PortfolioAnalysis

  /** One step of the reduce: the truthy live price, else the average
      purchase price, times the quantity. */
  function HoldingValue(prices: map<string, real>, h: Holding): real {
    (if HasTruthyPrice(prices, h.ticker) then prices[h.ticker] else h.averagePurchasePrice) * h.quantity as real
  }

  /** `holdings.reduce((acc, holding) => acc + currentPrice * quantity, acc)`:
      a left fold, first holding first. */
  function HeaderValue(prices: map<string, real>, hs: seq<Holding>, acc: real): real
    decreases |hs|
  {
    if hs == [] then acc else HeaderValue(prices, hs[1..], acc + HoldingValue(prices, hs[0]))
  }

  /** The fold started at `acc` adds `acc` to the analysis's current value. */
  lemma {:induction false} HeaderValueIsTotal(prices: map<string, real>, hs: seq<Holding>, acc: real)
    ensures HeaderValue(prices, hs, acc) == acc + TotalCurrentValue(prices, hs)
    decreases |hs|
  {
    if hs != [] {
      var ds := Details(prices, hs);
      HeaderValueIsTotal(prices, hs[1..], acc + HoldingValue(prices, hs[0]));
      assert ds[1..] == Details(prices, hs[1..]);
      assert CurrentValue(ds[0]) == HoldingValue(prices, hs[0]);
    }
  }

  /** The header's value and the analysis tab's current value agree: on the
      same cache, day, holdings and quotes the reduce from 0 gives the
      analysis's total current value. */
  lemma SameValueAsAnalysis(slot: StoredCache, today: string, hs: seq<Holding>, txs: seq<Transaction>,
                            quote: string -> Option<real>)
    ensures var prices := Resolve(slot, today, hs, quote).prices;
      HeaderValue(prices, hs, 0.0) == Evaluate(prices, hs, txs).totalCurrentValue
  {
    HeaderValueIsTotal(Resolve(slot, today, hs, quote).prices, hs, 0.0);
  }

  /** With a same-day cache that already prices every holding, the value is
      computed from the cache alone, whatever the quote provider answers. */
  lemma ValueFromFreshCache(slot: StoredCache, today: string, hs: seq<Holding>,
                            quote1: string -> Option<real>, quote2: string -> Option<real>)
    requires Load(slot).date == Some(today)
    requires forall i :: 0 <= i < |hs| ==> HasTruthyPrice(Load(slot).prices, hs[i].ticker)
    ensures Resolve(slot, today, hs, quote1) == Resolve(slot, today, hs, quote2) == Resolution(Load(slot).prices, [], None)
    ensures HeaderValue(Resolve(slot, today, hs, quote1).prices, hs, 0.0) == HeaderValue(Load(slot).prices, hs, 0.0)
  {
  }

  /** The page's `portfolioValue` and `isPortfolioLoading` state. */
  class DashboardState {
    var portfolioValue: real
    var isPortfolioLoading: bool

    /** `useState(0)` and `useState(true)`: loading until the first
        calculation ends. */
    constructor ()
      ensures portfolioValue == 0.0 && isPortfolioLoading
    {
      portfolioValue := 0.0;
      isPortfolioLoading := true;
    }

    /** `holdings` is `user.holdings` when both the user and the list are
        there (an empty list included), None otherwise.  Without holdings the
        value is 0 and nothing is fetched; with them it is the sum, by
        `reduce`, of each holding's current price times its quantity. */
    method CalculateValue(store: Storage, holdings: Option<seq<Holding>>, today: string, quote: string -> Option<real>)
      modifies this, store
      ensures !isPortfolioLoading
      ensures holdings.None? ==>
        portfolioValue == 0.0 && store.stockPriceCache == old(store.stockPriceCache) && store.writes == old(store.writes)
      ensures holdings.Some? ==>
        var r := Resolve(old(store.stockPriceCache), today, holdings.value, quote);
        && portfolioValue == HeaderValue(r.prices, holdings.value, 0.0)
        && store.stockPriceCache == SlotAfter(old(store.stockPriceCache), r)
        && store.writes == old(store.writes) + (if r.written.Some? then 1 else 0)
    {
      if holdings.Some? {
        isPortfolioLoading := true;
        var hs := holdings.value;
        var livePrices, _ := store.FetchAndCacheLivePrices(today, hs, quote);
        portfolioValue := HeaderValue(livePrices, hs, 0.0);
        isPortfolioLoading := false;
      } else {
        portfolioValue := 0.0;
        isPortfolioLoading := false;
      }
    }
  }
}
