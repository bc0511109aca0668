/** The once-a-day price cache, `fetchAndCacheLivePrices`, of which the
    frontend has two copies that differ only in their logging
    (frontend/src/pages/DashboardPage.jsx and
    frontend/src/components/dashboard/PortfolioAnalysisView.jsx).  The
    persisted slot 'stockPriceCache' is a field, the quote provider an oracle
    from ticker to the `close` it answers with (None for a failed request or
    an answer without `close`), and `today` is passed in. */
module PriceCache {
  import opened Wrappers
  import opened Records

  /** `{ date, prices }` as persisted. */
  datatype CacheEntry = CacheEntry(date: Option<string>, prices: map<string, real>)

  /** What reading and parsing the slot yields. */
  datatype StoredCache = Missing | Unparsable | Stored(entry: CacheEntry)

  /** One `{ symbol, price }` that a fetch resolves to. */
  datatype PriceUpdate = PriceUpdate(symbol: string, price: real)

  /** The outcome of one call: the price map returned, the tickers requested
      from the provider, and the entry written back (None: no write). */
  datatype Resolution = Resolution(prices: map<string, real>, fetched: seq<string>, written: Option<CacheEntry>)

  /** A number is truthy unless it is zero (NaN is not modelled). */
  predicate Truthy(p: real) {
    p != 0.0
  }

  predicate HasTruthyPrice(prices: map<string, real>, ticker: string) {
    ticker in prices && Truthy(prices[ticker])
  }

  /** A missing or unparsable slot reads as `{ date: null, prices: {} }`. */
  function Load(slot: StoredCache): CacheEntry {
    match slot
    case Stored(e) => e
    case _ => CacheEntry(None, map[])
  }

  /** An entry not dated today is replaced by an empty one dated today. */
  function ForToday(e: CacheEntry, today: string): CacheEntry {
    if e.date != Some(today) then CacheEntry(Some(today), map[]) else e
  }

  /** `holdings.filter(h => !cachedData.prices[h.stock_ticker])`. */
  function PricesToFetch(prices: map<string, real>, hs: seq<Holding>): (r: seq<Holding>)
    ensures |r| <= |hs|
    ensures forall i :: 0 <= i < |r| ==> r[i] in hs && !HasTruthyPrice(prices, r[i].ticker)
    ensures forall i :: 0 <= i < |hs| && !HasTruthyPrice(prices, hs[i].ticker) ==> hs[i] in r
    ensures r == [] <==> forall i :: 0 <= i < |hs| ==> HasTruthyPrice(prices, hs[i].ticker)
  {
    if hs == [] then []
    else (if HasTruthyPrice(prices, hs[0].ticker) then [] else [hs[0]]) + PricesToFetch(prices, hs[1..])
  }

  lemma PricesToFetchCons(prices: map<string, real>, h: Holding, t: seq<Holding>)
    ensures PricesToFetch(prices, [h] + t) == (if HasTruthyPrice(prices, h.ticker) then [] else [h]) + PricesToFetch(prices, t)
  {
    var s := [h] + t;
    assert s[0] == h && s[1..] == t;
  }

  /** The filter keeps the holdings in their order: it distributes over
      concatenation. */
  lemma {:induction false} PricesToFetchConcat(prices: map<string, real>, a: seq<Holding>, b: seq<Holding>)
    ensures PricesToFetch(prices, a + b) == PricesToFetch(prices, a) + PricesToFetch(prices, b)
    decreases |a|
  {
    if a == [] {
      assert a + b == b;
    } else {
      var head: seq<Holding> := if HasTruthyPrice(prices, a[0].ticker) then [] else [a[0]];
      assert a + b == [a[0]] + (a[1..] + b);
      assert a == [a[0]] + a[1..];
      PricesToFetchCons(prices, a[0], a[1..] + b);
      PricesToFetchCons(prices, a[0], a[1..]);
      PricesToFetchConcat(prices, a[1..], b);
      var restA := PricesToFetch(prices, a[1..]);
      var restB := PricesToFetch(prices, b);
      ConcatAssociative(head, restA, restB);
    }
  }

  lemma ConcatAssociative<T>(x: seq<T>, y: seq<T>, z: seq<T>)
    ensures x + (y + z) == (x + y) + z
  {
  }

  /** One request: a truthy `close` is taken, anything else (a failed
      request, no `close`, a zero `close`) falls back to the holding's
      average purchase price. */
  function FetchPrice(h: Holding, quote: string -> Option<real>): PriceUpdate {
    var answer := quote(h.ticker);
    if answer.Some? && Truthy(answer.value) then PriceUpdate(h.ticker, answer.value)
    else PriceUpdate(h.ticker, h.averagePurchasePrice)
  }

  /** `Promise.all(pricesToFetch.map(...))`. */
  function FetchAll(hs: seq<Holding>, quote: string -> Option<real>): (u: seq<PriceUpdate>)
    ensures |u| == |hs| && forall i :: 0 <= i < |hs| ==> u[i] == FetchPrice(hs[i], quote)
  {
    seq(|hs|, i requires 0 <= i < |hs| => FetchPrice(hs[i], quote))
  }

  function Tickers(hs: seq<Holding>): (r: seq<string>)
    ensures |r| == |hs| && forall i :: 0 <= i < |hs| ==> r[i] == hs[i].ticker
  {
    seq(|hs|, i requires 0 <= i < |hs| => hs[i].ticker)
  }

  /** The `forEach` that stores each update in turn, later ones winning. */
  function Merge(prices: map<string, real>, updates: seq<PriceUpdate>): map<string, real>
    decreases |updates|
  {
    if updates == [] then prices
    else
      var last := updates[|updates| - 1];
      Merge(prices, updates[..|updates| - 1])[last.symbol := last.price]
  }

  /** One call, as a function of the slot it reads. */
  function Resolve(slot: StoredCache, today: string, hs: seq<Holding>, quote: string -> Option<real>): Resolution {
    var cached := ForToday(Load(slot), today);
    var toFetch := PricesToFetch(cached.prices, hs);
    if |toFetch| > 0 then
      var merged := cached.(prices := Merge(cached.prices, FetchAll(toFetch, quote)));
      Resolution(merged.prices, Tickers(toFetch), Some(merged))
    else
      Resolution(cached.prices, [], None)
  }

  /** The slot after a call. */
  function SlotAfter(slot: StoredCache, r: Resolution): StoredCache {
    if r.written.Some? then Stored(r.written.value) else slot
  }

  predicate DistinctTickers(hs: seq<Holding>) {
    forall i, j :: 0 <= i < j < |hs| ==> hs[i].ticker != hs[j].ticker
  }

  // ----- Merge -----

  lemma {:induction false} MergeKeys(prices: map<string, real>, updates: seq<PriceUpdate>)
    ensures Merge(prices, updates).Keys == prices.Keys + (set j | 0 <= j < |updates| :: updates[j].symbol)
    decreases |updates|
  {
    if updates != [] {
      var init := updates[..|updates| - 1];
      MergeKeys(prices, init);
      assert (set j | 0 <= j < |updates| :: updates[j].symbol)
          == (set j | 0 <= j < |init| :: init[j].symbol) + {updates[|updates| - 1].symbol};
    }
  }

  /** A ticker no update names keeps its cached entry, or its absence. */
  lemma {:induction false} MergeOther(prices: map<string, real>, updates: seq<PriceUpdate>, t: string)
    requires forall j :: 0 <= j < |updates| ==> updates[j].symbol != t
    ensures (t in Merge(prices, updates)) == (t in prices)
    ensures t in prices ==> Merge(prices, updates)[t] == prices[t]
    decreases |updates|
  {
    if updates != [] {
      MergeOther(prices, updates[..|updates| - 1], t);
    }
  }

  /** A ticker whose updates all carry `p` ends up at `p`. */
  lemma {:induction false} MergeValue(prices: map<string, real>, updates: seq<PriceUpdate>, t: string, p: real)
    requires exists j :: 0 <= j < |updates| && updates[j].symbol == t
    requires forall j :: 0 <= j < |updates| && updates[j].symbol == t ==> updates[j].price == p
    ensures t in Merge(prices, updates) && Merge(prices, updates)[t] == p
    decreases |updates|
  {
    var n := |updates|;
    var init := updates[..n - 1];
    if updates[n - 1].symbol != t {
      var j :| 0 <= j < n && updates[j].symbol == t;
      assert init[j].symbol == t;
      MergeValue(prices, init, t, p);
    }
  }

  // ----- properties of one call -----

  /** After a call every holding's ticker has a price. */
  lemma ResolveCovers(slot: StoredCache, today: string, hs: seq<Holding>, quote: string -> Option<real>)
    ensures forall i :: 0 <= i < |hs| ==> hs[i].ticker in Resolve(slot, today, hs, quote).prices
  {
    var cached := ForToday(Load(slot), today);
    var toFetch := PricesToFetch(cached.prices, hs);
    if |toFetch| > 0 {
      var updates := FetchAll(toFetch, quote);
      MergeKeys(cached.prices, updates);
      forall i | 0 <= i < |hs| ensures hs[i].ticker in Merge(cached.prices, updates) {
        if !HasTruthyPrice(cached.prices, hs[i].ticker) {
          var k :| 0 <= k < |toFetch| && toFetch[k] == hs[i];
          assert updates[k].symbol == hs[i].ticker;
        }
      }
    }
  }

  /** A call requests exactly the holdings lacking a truthy price in the
      (possibly just reset) cache, and writes back exactly when it requests
      something; what it writes is dated today and holds the returned map. */
  lemma ResolveFetchesOnlyMissing(slot: StoredCache, today: string, hs: seq<Holding>, quote: string -> Option<real>)
    ensures var cached, r := ForToday(Load(slot), today).prices, Resolve(slot, today, hs, quote);
      && (forall t :: t in r.fetched <==> exists i :: 0 <= i < |hs| && hs[i].ticker == t && !HasTruthyPrice(cached, t))
      && (r.written.None? <==> forall i :: 0 <= i < |hs| ==> HasTruthyPrice(cached, hs[i].ticker))
      && (r.written.None? ==> r.fetched == [])
      && (r.written.Some? ==> r.written.value == CacheEntry(Some(today), r.prices))
  {
    var cached := ForToday(Load(slot), today).prices;
    var toFetch := PricesToFetch(cached, hs);
    var r := Resolve(slot, today, hs, quote);
    forall t ensures t in r.fetched <==> exists i :: 0 <= i < |hs| && hs[i].ticker == t && !HasTruthyPrice(cached, t) {
      if t in r.fetched {
        var k :| 0 <= k < |r.fetched| && r.fetched[k] == t;
        var i :| 0 <= i < |hs| && hs[i] == toFetch[k];
      }
      if exists i :: 0 <= i < |hs| && hs[i].ticker == t && !HasTruthyPrice(cached, t) {
        var i :| 0 <= i < |hs| && hs[i].ticker == t && !HasTruthyPrice(cached, t);
        var k :| 0 <= k < |toFetch| && toFetch[k] == hs[i];
        assert r.fetched[k] == t;
      }
    }
    if |toFetch| > 0 {
      var h := toFetch[0];
      var i :| 0 <= i < |hs| && hs[i] == h;
    }
  }

  /** The price a call settles for a holding: a truthy cached price is kept;
      otherwise a truthy `close` from the provider, and failing that the
      holding's average purchase price.  Tickers are distinct within one
      user's holdings. */
  lemma ResolvePrice(slot: StoredCache, today: string, hs: seq<Holding>, quote: string -> Option<real>, i: nat)
    requires DistinctTickers(hs) && i < |hs|
    ensures var cached, r := ForToday(Load(slot), today).prices, Resolve(slot, today, hs, quote);
      var t, answer := hs[i].ticker, quote(hs[i].ticker);
      && t in r.prices
      && (HasTruthyPrice(cached, t) ==> r.prices[t] == cached[t])
      && (!HasTruthyPrice(cached, t) && answer.Some? && Truthy(answer.value) ==> r.prices[t] == answer.value)
      && (!HasTruthyPrice(cached, t) && !(answer.Some? && Truthy(answer.value)) ==>
            r.prices[t] == hs[i].averagePurchasePrice)
  {
    var cached := ForToday(Load(slot), today).prices;
    var toFetch := PricesToFetch(cached, hs);
    var t := hs[i].ticker;
    if |toFetch| > 0 {
      var updates := FetchAll(toFetch, quote);
      if HasTruthyPrice(cached, t) {
        forall j | 0 <= j < |updates| ensures updates[j].symbol != t {
          assert toFetch[j] in hs;
        }
        MergeOther(cached, updates, t);
      } else {
        var k :| 0 <= k < |toFetch| && toFetch[k] == hs[i];
        forall j | 0 <= j < |updates| && updates[j].symbol == t
          ensures updates[j].price == FetchPrice(hs[i], quote).price
        {
          var i' :| 0 <= i' < |hs| && hs[i'] == toFetch[j];
          assert i' == i;
        }
        assert updates[k].symbol == t;
        MergeValue(cached, updates, t, FetchPrice(hs[i], quote).price);
      }
    }
  }

  lemma FetchedIsMissing(prices: map<string, real>, hs: seq<Holding>, quote: string -> Option<real>, j: nat)
    requires j < |PricesToFetch(prices, hs)|
    ensures var h := PricesToFetch(prices, hs)[j];
      FetchAll(PricesToFetch(prices, hs), quote)[j].symbol == h.ticker
      && exists i :: 0 <= i < |hs| && hs[i] == h && !HasTruthyPrice(prices, h.ticker)
  {
    var toFetch := PricesToFetch(prices, hs);
    assert toFetch[j] in hs;
  }

  lemma MissingIsFetched(prices: map<string, real>, hs: seq<Holding>, quote: string -> Option<real>, i: nat)
    requires i < |hs| && !HasTruthyPrice(prices, hs[i].ticker)
    ensures exists k :: 0 <= k < |PricesToFetch(prices, hs)| && FetchAll(PricesToFetch(prices, hs), quote)[k].symbol == hs[i].ticker
  {
    var toFetch := PricesToFetch(prices, hs);
    assert hs[i] in toFetch;
    var k :| 0 <= k < |toFetch| && toFetch[k] == hs[i];
    assert FetchAll(toFetch, quote)[k].symbol == hs[i].ticker;
  }

  /** The requests go to exactly the tickers without a truthy cached price. */
  lemma FetchedSymbols(prices: map<string, real>, hs: seq<Holding>, quote: string -> Option<real>)
    ensures var updates := FetchAll(PricesToFetch(prices, hs), quote);
      (set j | 0 <= j < |updates| :: updates[j].symbol)
      == (set i | 0 <= i < |hs| && !HasTruthyPrice(prices, hs[i].ticker) :: hs[i].ticker)
  {
    var updates := FetchAll(PricesToFetch(prices, hs), quote);
    var keys := set j | 0 <= j < |updates| :: updates[j].symbol;
    var missing := set i | 0 <= i < |hs| && !HasTruthyPrice(prices, hs[i].ticker) :: hs[i].ticker;
    forall t | t in keys ensures t in missing {
      var j :| 0 <= j < |updates| && updates[j].symbol == t;
      FetchedIsMissing(prices, hs, quote, j);
    }
    forall t | t in missing ensures t in keys {
      var i :| 0 <= i < |hs| && !HasTruthyPrice(prices, hs[i].ticker) && hs[i].ticker == t;
      MissingIsFetched(prices, hs, quote, i);
    }
  }

  /** A cache from another day (or none at all) keeps nothing: the returned
      map has exactly the holdings' tickers. */
  lemma ResolveDiscardsStale(slot: StoredCache, today: string, hs: seq<Holding>, quote: string -> Option<real>)
    requires Load(slot).date != Some(today)
    ensures Resolve(slot, today, hs, quote).prices.Keys == set i | 0 <= i < |hs| :: hs[i].ticker
  {
    var empty: map<string, real> := map[];
    assert ForToday(Load(slot), today).prices == empty;
    var toFetch := PricesToFetch(empty, hs);
    FetchedSymbols(empty, hs, quote);
    assert (set i | 0 <= i < |hs| && !HasTruthyPrice(empty, hs[i].ticker) :: hs[i].ticker)
        == set i | 0 <= i < |hs| :: hs[i].ticker;
    if |toFetch| > 0 {
      MergeKeys(empty, FetchAll(toFetch, quote));
    }
  }

  /** A same-day cache keeps every entry it had that was not requested again. */
  lemma ResolveRetains(slot: StoredCache, today: string, hs: seq<Holding>, quote: string -> Option<real>, t: string)
    requires Load(slot).date == Some(today)
    requires t in Load(slot).prices && t !in Resolve(slot, today, hs, quote).fetched
    ensures t in Resolve(slot, today, hs, quote).prices
    ensures Resolve(slot, today, hs, quote).prices[t] == Load(slot).prices[t]
  {
    var cached := Load(slot).prices;
    var toFetch := PricesToFetch(cached, hs);
    if |toFetch| > 0 {
      var updates := FetchAll(toFetch, quote);
      forall j | 0 <= j < |updates| ensures updates[j].symbol != t {
        assert Tickers(toFetch)[j] == updates[j].symbol;
      }
      MergeOther(cached, updates, t);
    }
  }

  /** Idempotence: once every holding has a truthy price, a second call on
      the same day with the same holdings requests nothing, writes nothing and
      returns the same map, whatever the provider would answer. */
  lemma ResolveIdempotent(slot: StoredCache, today: string, hs: seq<Holding>,
                          quote1: string -> Option<real>, quote2: string -> Option<real>)
    requires var r := Resolve(slot, today, hs, quote1);
      forall i :: 0 <= i < |hs| ==> hs[i].ticker in r.prices && Truthy(r.prices[hs[i].ticker])
    ensures var r1 := Resolve(slot, today, hs, quote1);
      Resolve(SlotAfter(slot, r1), today, hs, quote2) == Resolution(r1.prices, [], None)
  {
    var r1 := Resolve(slot, today, hs, quote1);
    var slot2 := SlotAfter(slot, r1);
    ResolveFetchesOnlyMissing(slot, today, hs, quote1);
    assert ForToday(Load(slot2), today) == CacheEntry(Some(today), r1.prices);
    assert PricesToFetch(r1.prices, hs) == [];
  }

  /** `newPrices.forEach(p => cachedData.prices[p.symbol] = p.price)`. */
  method StoreEach(prices: map<string, real>, updates: seq<PriceUpdate>) returns (merged: map<string, real>)
    ensures merged == Merge(prices, updates)
  {
    merged := prices;
    for i := 0 to |updates|
      invariant merged == Merge(prices, updates[..i])
    {
      assert updates[..i + 1][..i] == updates[..i];
      merged := merged[updates[i].symbol := updates[i].price];
    }
    assert updates[..|updates|] == updates;
  }

  /** The persisted slot of the browser's local storage, with a count of the
      writes made to it. */
  class Storage {
    var stockPriceCache: StoredCache
    ghost var writes: nat

    constructor (initial: StoredCache)
      ensures stockPriceCache == initial && writes == 0
    {
      stockPriceCache := initial;
      writes := 0;
    }

    /** `fetchAndCacheLivePrices(holdings)` on the day `today`. */
    method FetchAndCacheLivePrices(today: string, holdings: seq<Holding>, quote: string -> Option<real>)
      returns (prices: map<string, real>, fetched: seq<string>)
      modifies this
      ensures var r := Resolve(old(stockPriceCache), today, holdings, quote);
        && prices == r.prices && fetched == r.fetched
        && stockPriceCache == SlotAfter(old(stockPriceCache), r)
        && writes == old(writes) + (if r.written.Some? then 1 else 0)
    {
      var cachedData: CacheEntry;
      match stockPriceCache {
        case Stored(e) => cachedData := e;
        case _ => cachedData := CacheEntry(None, map[]);
      }
      if cachedData.date != Some(today) {
        cachedData := CacheEntry(Some(today), map[]);
      }
      assert cachedData == ForToday(Load(old(stockPriceCache)), today);
      var pricesToFetch := PricesToFetch(cachedData.prices, holdings);
      fetched := [];
      if |pricesToFetch| > 0 {
        var newPrices := FetchAll(pricesToFetch, quote);
        var merged := StoreEach(cachedData.prices, newPrices);
        cachedData := cachedData.(prices := merged);
        stockPriceCache := Stored(cachedData);
        writes := writes + 1;
        fetched := Tickers(pricesToFetch);
      }
      prices := cachedData.prices;
    }
  }
}
