# Paper trader, modelled in Dafny

A model of the logic in the paper-trading app, with proofs about it.

**Backend.** A FastAPI service keeps users, holdings and a transaction log. Users buy and sell simulated shares against a budget that starts at 100000.00.

**Frontend.** A React app values the portfolio at live quotes, using prices cached once per day. It also shows:
- the transaction history;
- an AI-written analysis, laid out line by line;
- a stock search that prefers Indian exchanges.

The model has these parts:

- **Ledger** (`ledger.dfy`). The record operations of `backend/crud.py` and the guards of `backend/main.py`, as one `Database` class.
  - The class holds the users, holdings and transactions tables as sequences. Each operation is one atomic step.
  - A user's id is their position in `users`.
  - The invariant `Valid()` says:
    - accounts are unique;
    - every holding has quantity > 0, a non-negative average price and an upper-cased ticker;
    - no user holds a ticker twice;
    - a BUY records P/L 0.0 and a SELL always records one.
  - `Solvent()` says every budget is non-negative.
  - `Capital(u)` is budget + cost basis held − P/L realized. Every buy and sell preserves it.
- **Price cache** (`price_cache.dfy`). `fetchAndCacheLivePrices` as a `Storage` class.
  - The persisted `'stockPriceCache'` slot is a field. The quote provider is an oracle from ticker to the `close` it answers with. The day is a parameter.
  - The function `Resolve` specifies one call, and the method is proved equal to it.
  - The two copies in `frontend/src/pages/DashboardPage.jsx` and `frontend/src/components/dashboard/PortfolioAnalysisView.jsx` differ only in their console logging. Both are this one method, and both views call it.
- **Valuation** (`portfolio_analysis.dfy`, `dashboard.dfy`).
  - `runAnalysis` is modelled by a specification function plus its accumulating loops. The loops are proved to compute it.
  - The component state is a class. Runs with no data leave it unchanged.
  - The dashboard header value is its own left fold, `HeaderValue`. A lemma proves it equals the analysis's total current value.
- **Views** (`transactions_view.dfy`, `ai_response.dfy`, `browse_stocks.dfy`):
  - the newest-first transaction table with its P/L cells and colours;
  - the line classifier of the AI answer;
  - the search's best-match rule, its symbol and its error messages.
- **Support**:
  - `records.dfy`: holding and transaction records;
  - `text.dfy`: ASCII upper-casing, the ECMAScript `trim`, `split`/`join`;
  - `sorting.dfy`: the stable descending sort that `Array.prototype.sort` performs for a `b - a` comparator;
  - `wrappers.dfy`: `Option` and `Result`.

Money is an exact `real`. A price counts as present when it is *truthy*, that is, non-zero.

Three facts about the code shape the model:
- **Which cached prices count.** A cached price counts only when it is truthy: the filter is `!cachedData.prices[h.stock_ticker]`, and the valuation uses `livePrices[t] || average_purchase_price`.
  - So a cached 0 is fetched again. Only a price that is still falsy after the fetch is valued at the average price.
  - A holding whose fallback price is 0 is therefore requested again on every call. `PriceCache.ResolveIdempotent` assumes truthy prices for this reason.
- **Which day is "today".** It is the UTC date of `new Date().toISOString()`. The model takes `today` as a parameter.
- **The P/L of a BUY.** Every BUY records a P/L of 0.0 (`backend/crud.py:49`). `Ledger.WellFormedTransaction` says so.

## Model

| member | source | states |
|---|---|---|
| Text.Upper | backend/crud.py:45 | `str.upper()` on the ticker: same length, ASCII a–z shifted to A–Z, every other character kept, no lower-case ASCII letter left |
| Text.UpperIdempotent | backend/crud.py:56 | upper-casing an upper-cased ticker changes nothing, so the lookup key and the stored key agree |
| Text.Trim | frontend/src/components/dashboard/AiStockAnalysisView.jsx:8 | `trim()`: the result is a contiguous slice of the line; what was cut on each side is all white space; the result neither starts nor ends with white space |
| Text.TrimIdempotent | frontend/src/components/dashboard/AiStockAnalysisView.jsx:8 | trimming a trimmed line changes nothing |
| Text.Split | frontend/src/components/dashboard/AiStockAnalysisView.jsx:8 | `split('\n')`: at least one piece, no piece contains the separator |
| Text.JoinSplit | frontend/src/components/dashboard/AiStockAnalysisView.jsx:8 | joining the pieces with the separator gives back the text |
| Text.SplitJoin | frontend/src/components/dashboard/AiStockAnalysisView.jsx:8 | splitting a join of separator-free pieces gives back the pieces |
| Text.SplitConcat | frontend/src/components/dashboard/AiStockAnalysisView.jsx:8 | splitting `a + sep + b` gives the pieces of `a` followed by the pieces of `b` |
| Sorting.SortDesc | frontend/src/components/dashboard/PortfolioAnalysisView.jsx:98 | the sorted copy is a permutation of the input and non-increasing by key |
| Sorting.SortDescStable | frontend/src/components/dashboard/PortfolioAnalysisView.jsx:98 | stability: for every key value, the elements carrying it appear in the output in their input order |
| Sorting.StableSortIsUnique | frontend/src/components/dashboard/TransactionsView.jsx:6 | any non-increasing, stable arrangement of the input equals the model's, so the model is what every conforming `sort` returns |
| Ledger.FindHolding | backend/crud.py:54-57 | `.filter(user_id, ticker).first()`: the first matching row, and None exactly when no row matches |
| Ledger.FindUserByEmail | backend/crud.py:11-12 | the first user with that email, None exactly when there is none |
| Ledger.FindUserByUsername | backend/crud.py:14-15 | the first user with that username, None exactly when there is none |
| Ledger.HoldingsOf | backend/models.py:25 | `user.holdings`: exactly that user's rows, with the same invested amount |
| Ledger.TransactionsOf | backend/models.py:24 | `user.transactions`: exactly that user's rows, with the same realized P/L |
| Ledger.HoldingsOfConcat | backend/models.py:25 | selecting a user's holdings keeps the table's order: it distributes over concatenation |
| Ledger.TransactionsOfConcat | backend/models.py:24 | selecting a user's transactions keeps the table's order: it distributes over concatenation |
| Ledger.ApplyBuy | backend/crud.py:54-76 | the holdings after a buy: a new row for an unheld ticker, the re-weighted row otherwise. Its properties are stated by `BuyPosition` and `BuyHeld` |
| Ledger.ApplySell | backend/crud.py:116-121 | the holdings after a sell: the row is deleted when all is sold, reduced otherwise. Its properties are stated by `SellPosition` |
| Ledger.BuyPosition | backend/crud.py:54-76 | after a buy the table stays valid and the buyer has exactly one holding in the ticker. An unheld ticker gets a new holding of q shares at price. A held one gains q shares, and its new avg × quantity = old avg × old quantity + price × q. Other positions are unchanged. The buyer's invested amount grows by price × q |
| Ledger.BuyHeld | backend/crud.py:59-67 | the weighted-average re-pricing of a held ticker, with the same conclusions for that case |
| Ledger.SellPosition | backend/crud.py:118-121 | a sell of at most the held quantity deletes the holding exactly when all is sold. Otherwise the quantity drops by q and the average price stays, so quantities stay > 0. Other positions are unchanged. Invested shrinks by avg × q |
| Ledger.HoldingsNotOf | backend/crud.py:180 | the rows kept by the bulk delete are exactly the other users' rows |
| Ledger.TransactionsNotOf | backend/crud.py:177 | the transactions kept by the bulk delete are exactly the other users' ones |
| Ledger.ResetHoldings | backend/crud.py:180 | after the delete the table is valid and the user holds nothing; every other user's positions and invested amount are unchanged |
| Ledger.ResetTransactions | backend/crud.py:177 | after the delete the log is valid and the user has realized nothing; every other user's realized P/L is unchanged |
| Ledger.Database.constructor | backend/models.py:14-58 | the three tables start empty, which satisfies `Valid` and `Solvent` |
| Ledger.Database.CreateUser | backend/crud.py:17-27 | appends one user with the given email and username, the hash of the password and budget 100000.00; its id is the old row count; nothing else changes |
| Ledger.Database.RegisterUser | backend/main.py:62-70 | an existing email is refused with 400 "Email already registered", checked before an existing username (400 "Username already taken"). It succeeds exactly when both are new, and then creates the user. Emails and usernames stay unique |
| Ledger.Database.Login | backend/main.py:72-80 | succeeds exactly when a user has that username and the password verifies against their stored hash; every failure is the same 401 "Incorrect username or password" |
| Ledger.Database.ExecuteBuyTransaction | backend/crud.py:29-80 | returns None exactly when budget < price × q, with no change. Otherwise: the budget drops by exactly price × q; one BUY with the upper-cased ticker and P/L 0.0 is appended; the holdings become `ApplyBuy`. It keeps `Valid`, `Solvent` and the buyer's `Capital` |
| Ledger.Database.ExecuteSellTransaction | backend/crud.py:82-126 | "Stock not owned" without a holding for the upper-cased ticker, and "Insufficient quantity" when fewer shares are held, both with no change. Otherwise: P/L = (price − avg) × q; the budget rises by price × q; a SELL carrying that P/L is appended; the holdings become `ApplySell`. It keeps `Valid`, `Solvent` and `Capital` |
| Ledger.Database.UpdateUserBudget | backend/crud.py:167-172 | only that user's budget changes, to the given value |
| Ledger.Database.ResetUserAccount | backend/crud.py:174-187 | only this user's transactions and holdings are deleted and their budget becomes 100000.00, so their capital is 100000.00; other users' rows and positions stay |
| Ledger.Database.BuyStock | backend/main.py:91-100 | 400 "Insufficient funds" exactly when budget < price × q, with no change. Otherwise the updated user is returned, with the budget down by price × q, the BUY appended and the holdings `ApplyBuy` |
| Ledger.Database.SellStock | backend/main.py:103-112 | success exactly when the user holds the upper-cased ticker with at least q shares. "Stock not owned" and "Insufficient quantity" become the 400 detail verbatim, with no change. On success the user and P/L = (price − avg) × q are returned, the budget rises by price × q, a SELL with that P/L is appended and the holdings become `ApplySell` |
| Ledger.Database.UpdateBudget | backend/main.py:131-139 | fails with 400 "Budget cannot be negative." exactly when the value is negative, with no change; zero and positive values are stored unchanged |
| PriceCache.PricesToFetch | frontend/src/components/dashboard/PortfolioAnalysisView.jsx:24 | exactly the holdings without a truthy cached price are kept, and the list is empty exactly when every holding has one |
| PriceCache.PricesToFetchConcat | frontend/src/components/dashboard/PortfolioAnalysisView.jsx:24 | the filter keeps the holdings' order: it distributes over concatenation |
| PriceCache.Load | frontend/src/components/dashboard/PortfolioAnalysisView.jsx:11-18 | a missing or unparsable slot reads as `{ date: null, prices: {} }`. Its consequences are stated by `ResolveDiscardsStale` |
| PriceCache.ForToday | frontend/src/components/dashboard/PortfolioAnalysisView.jsx:20-22 | an entry from another day is replaced by an empty one for today. Its consequences are stated by `ResolveDiscardsStale` and `ResolveRetains` |
| PriceCache.FetchPrice | frontend/src/components/dashboard/PortfolioAnalysisView.jsx:28-40 | a truthy `close`, else the average purchase price. Its consequence for valuation is stated by `ResolvePrice` |
| PriceCache.FetchAll | frontend/src/components/dashboard/PortfolioAnalysisView.jsx:28-42 | one answer per holding to fetch, in order |
| PriceCache.MergeKeys | frontend/src/components/dashboard/PortfolioAnalysisView.jsx:44-48 | the merged map's tickers are the cached ones plus the fetched ones |
| PriceCache.MergeOther | frontend/src/components/dashboard/PortfolioAnalysisView.jsx:44-48 | a ticker no update names keeps its cached entry, or its absence |
| PriceCache.MergeValue | frontend/src/components/dashboard/PortfolioAnalysisView.jsx:44-48 | a ticker all of whose updates carry p ends up at p |
| PriceCache.Merge | frontend/src/components/dashboard/PortfolioAnalysisView.jsx:44-48 | the `forEach` that stores each update in turn, later ones winning. Its properties are stated by `MergeKeys`, `MergeOther` and `MergeValue` |
| PriceCache.StoreEach | frontend/src/components/dashboard/PortfolioAnalysisView.jsx:44-48 | the loop computes `Merge` of the cached prices and the updates |
| PriceCache.FetchedSymbols | frontend/src/components/dashboard/PortfolioAnalysisView.jsx:24-42 | the requests go to exactly the tickers without a truthy cached price |
| PriceCache.Resolve | frontend/src/components/dashboard/PortfolioAnalysisView.jsx:7-56 | one call as a function of the slot it reads. Its properties are stated by the `Resolve…` lemmas |
| PriceCache.ResolveCovers | frontend/src/components/dashboard/PortfolioAnalysisView.jsx:24-55 | after a call every holding's ticker has a price |
| PriceCache.ResolveFetchesOnlyMissing | frontend/src/components/dashboard/PortfolioAnalysisView.jsx:24-53 | a ticker is requested exactly when a holding lacks a truthy price in the (possibly reset) cache. A write happens exactly when something is requested. The entry written is dated today and holds the returned prices |
| PriceCache.ResolvePrice | frontend/src/components/dashboard/PortfolioAnalysisView.jsx:28-48 | a holding's settled price is, in order of preference: the truthy cached price; a truthy `close`; its own average purchase price. So a failure for one ticker affects no other |
| PriceCache.ResolveDiscardsStale | frontend/src/pages/DashboardPage.jsx:24-32 | a missing, unparsable or other-day cache keeps nothing: the returned map has exactly the holdings' tickers |
| PriceCache.ResolveRetains | frontend/src/pages/DashboardPage.jsx:46-49 | a same-day entry that was not requested again is returned unchanged |
| PriceCache.ResolveIdempotent | frontend/src/pages/DashboardPage.jsx:33-50 | once every holding has a truthy price, a second same-day call requests nothing, writes nothing and returns the same map, whatever the provider answers |
| PriceCache.Storage.constructor | frontend/src/components/dashboard/PortfolioAnalysisView.jsx:13 | the slot holds what local storage holds, with no writes yet |
| PriceCache.Storage.FetchAndCacheLivePrices | frontend/src/components/dashboard/PortfolioAnalysisView.jsx:7-56 | returns `Resolve`'s prices and requested tickers; the slot becomes the written entry when there is one and is otherwise untouched; the write count goes up by one only when it writes. The copy in `frontend/src/pages/DashboardPage.jsx` (lines 20-53) differs only in logging and is the same method |
| PortfolioAnalysis.Details | frontend/src/components/dashboard/PortfolioAnalysisView.jsx:75-85 | one detailed row per holding, in holding order |
| PortfolioAnalysis.CurrentPrice | frontend/src/components/dashboard/PortfolioAnalysisView.jsx:76 | `livePrices[t] || average_purchase_price`. Stated through the cache by `ValuationPrice` |
| PortfolioAnalysis.Detail | frontend/src/components/dashboard/PortfolioAnalysisView.jsx:76-84 | one row: price, value = price × quantity, P/L = value − cost basis. Its sums are stated by `EvaluateTotals` |
| PortfolioAnalysis.TotalCurrentValue | frontend/src/components/dashboard/PortfolioAnalysisView.jsx:82 | the sum of the rows' values. `Dashboard.HeaderValueIsTotal` ties the header's reduce to it |
| PortfolioAnalysis.RealizedOf | frontend/src/components/dashboard/PortfolioAnalysisView.jsx:89-95 | a SELL's recorded P/L, and 0 for a BUY or a SELL without one. Its sum is stated by `RealizedIsLedgerRealized` and `RealizedTotal` |
| PortfolioAnalysis.Evaluate | frontend/src/components/dashboard/PortfolioAnalysisView.jsx:73-108 | the analysis object. Its properties are stated by `EvaluateTotals`, `EvaluateRanking`, `MoverCards` and `OverallAgainstCapital` |
| PortfolioAnalysis.SumOfPermutation | frontend/src/components/dashboard/PortfolioAnalysisView.jsx:98 | a total does not depend on the order of its terms, so sorting the rows leaves the totals alone |
| PortfolioAnalysis.EvaluateTotals | frontend/src/components/dashboard/PortfolioAnalysisView.jsx:81-104 | current value = sum of the rows' values; unrealized P/L (current − invested) = sum of the rows' P/L; overall = unrealized + realized |
| PortfolioAnalysis.EvaluateRanking | frontend/src/components/dashboard/PortfolioAnalysisView.jsx:98-107 | the rows are a permutation of the holdings' details, non-increasing by P/L, with ties in holding order. The best performer has the highest P/L and the worst the lowest. Both are null exactly when there are no holdings |
| PortfolioAnalysis.MoverShown | frontend/src/components/dashboard/PortfolioAnalysisView.jsx:225-226 | no card without a performer, and no worst card unless it lost money. Stated by `MoverCards` |
| PortfolioAnalysis.ValuationPrice | frontend/src/components/dashboard/PortfolioAnalysisView.jsx:76 | valued through the cache, a holding's current price is the truthy cached price, else a truthy `close`, else its average price |
| PortfolioAnalysis.CostIsInvested | frontend/src/components/dashboard/PortfolioAnalysisView.jsx:77-80 | a user's total invested is the ledger's invested amount for that user |
| PortfolioAnalysis.RealizedIsLedgerRealized | frontend/src/components/dashboard/PortfolioAnalysisView.jsx:89-96 | a user's realized total (SELLs with a P/L; BUYs and nulls skipped) is the ledger's realized amount |
| PortfolioAnalysis.OverallAgainstCapital | frontend/src/components/dashboard/PortfolioAnalysisView.jsx:104 | on a user's own holdings and transactions, overall P/L = (budget + current value) − `Database.Capital`, the amount every trade preserves |
| PortfolioAnalysis.MoverCards | frontend/src/components/dashboard/PortfolioAnalysisView.jsx:225-226 | the best card shows exactly when there are holdings; the worst card exactly when some holding is at a loss |
| PortfolioAnalysis.ValueHoldings | frontend/src/components/dashboard/PortfolioAnalysisView.jsx:73-85 | the `map` with its `+=` loop yields the detailed rows, total invested and total current value |
| PortfolioAnalysis.RealizedTotal | frontend/src/components/dashboard/PortfolioAnalysisView.jsx:89-96 | the `forEach` yields the sum of recorded SELL P/L |
| PortfolioAnalysis.Analyze | frontend/src/components/dashboard/PortfolioAnalysisView.jsx:73-108 | the analysis object is `Evaluate` of the prices, holdings and transactions |
| PortfolioAnalysis.AnalysisView.constructor | frontend/src/components/dashboard/PortfolioAnalysisView.jsx:60-61 | no analysis, loading |
| PortfolioAnalysis.Blank | frontend/src/components/dashboard/PortfolioAnalysisView.jsx:65 | a null or empty list. Its effect on a run is stated by `AnalysisView.RunAnalysis` |
| PortfolioAnalysis.OrEmpty | frontend/src/components/dashboard/PortfolioAnalysisView.jsx:71 | `holdings || []`. Its effect on a run is stated by `AnalysisView.RunAnalysis` |
| PortfolioAnalysis.AnalysisView.RunAnalysis | frontend/src/components/dashboard/PortfolioAnalysisView.jsx:63-113 | with neither holdings nor transactions: nothing is fetched, nothing is written and the previous analysis (null at first) stays. Otherwise the cache slot and write count follow `Resolve`, and the evaluation is published. Loading ends false |
| Dashboard.HoldingValue | frontend/src/pages/DashboardPage.jsx:146-147 | one step of the reduce: the truthy live price, else the average price, times the quantity. Stated through `HeaderValueIsTotal` |
| Dashboard.HeaderValue | frontend/src/pages/DashboardPage.jsx:145-148 | the reduce as a left fold from `acc`. Stated by `HeaderValueIsTotal` |
| Dashboard.HeaderValueIsTotal | frontend/src/pages/DashboardPage.jsx:145-148 | the `reduce` started at `acc` is `acc` plus the analysis's sum of current values |
| Dashboard.SameValueAsAnalysis | frontend/src/pages/DashboardPage.jsx:145-148 | the header value (the reduce from 0) equals the analysis tab's current value on the same cache, day and quotes |
| Dashboard.ValueFromFreshCache | frontend/src/pages/DashboardPage.jsx:33-34 | a same-day cache that prices every holding yields the value with no request |
| Dashboard.DashboardState.constructor | frontend/src/pages/DashboardPage.jsx:117-118 | value 0, loading until the first calculation ends |
| Dashboard.DashboardState.CalculateValue | frontend/src/pages/DashboardPage.jsx:140-157 | 0 and no fetch without a user or holdings. Otherwise the reduce `HeaderValue` over the cache's prices, with the slot and write count updated as one call. Loading ends false |
| TransactionsView.SortedTransactionsOrder | frontend/src/components/dashboard/TransactionsView.jsx:6 | the shown list is a permutation of the input, newest first, with equal timestamps in server order |
| TransactionsView.SortedTransactions | frontend/src/components/dashboard/TransactionsView.jsx:6 | the stable newest-first sort. Stated by `SortedTransactionsOrder` |
| TransactionsView.PLColour | frontend/src/components/dashboard/TransactionsView.jsx:36-38 | green above 0, red below, grey otherwise. Stated by `RenderRowsCells` |
| TransactionsView.RenderRow | frontend/src/components/dashboard/TransactionsView.jsx:28-41 | one row's cells; none for a SELL without P/L. Stated by `RenderRowsCells` |
| TransactionsView.RenderRows | frontend/src/components/dashboard/TransactionsView.jsx:27-42 | the row `map` over the sorted transactions, which fails when any row fails. Stated by `RenderRowsCells` |
| TransactionsView.Render | frontend/src/components/dashboard/TransactionsView.jsx:26-53 | the table body. Stated by `RenderTable` |
| TransactionsView.RenderRowsCells | frontend/src/components/dashboard/TransactionsView.jsx:27-40 | rows render exactly when every SELL has a P/L. There is one row per transaction, in order. A dash appears exactly for a BUY, and a SELL shows its amount. BUY is green in the type cell. P/L > 0 is green and P/L < 0 is red; anything else is grey |
| TransactionsView.RenderTable | frontend/src/components/dashboard/TransactionsView.jsx:26-52 | the single empty-state row shows exactly when there are no transactions; otherwise one row per transaction in sorted order |
| TransactionsView.TableMatchesRealized | frontend/src/components/dashboard/TransactionsView.jsx:39 | when every SELL has a P/L, the table renders rows and its P/L column adds up to the analysis's realized P/L |
| TransactionsView.LedgerTransactionsRender | frontend/src/components/dashboard/TransactionsView.jsx:39 | transactions that keep the ledger's invariant have a P/L on every SELL, so they always render |
| AiResponse.RemoveDoubleStarsClean | frontend/src/components/dashboard/AiStockAnalysisView.jsx:15 | no `**` survives the global replace |
| AiResponse.RemoveDoubleStarsIdentity | frontend/src/components/dashboard/AiStockAnalysisView.jsx:15 | text without `**` passes unchanged |
| AiResponse.RemoveDoubleStarsIdempotent | frontend/src/components/dashboard/AiStockAnalysisView.jsx:15 | replacing twice is replacing once |
| AiResponse.RemoveDoubleStarsKeepsText | frontend/src/components/dashboard/AiStockAnalysisView.jsx:15 | only stars are removed: all other characters stay, in order |
| AiResponse.RemoveDoubleStars | frontend/src/components/dashboard/AiStockAnalysisView.jsx:15 | `replace(/\*\*/g, '')`. Stated by the `RemoveDoubleStars…` lemmas |
| AiResponse.RemoveDoubleStarsSingle | frontend/src/components/dashboard/AiStockAnalysisView.jsx:15 | a single `*` that no other `*` follows is kept |
| AiResponse.RemoveDoubleStarsPair | frontend/src/components/dashboard/AiStockAnalysisView.jsx:15 | a leading `**` is deleted as a pair, and scanning goes on after it, so `"***x**"` gives `"*x"` |
| AiResponse.Classify | frontend/src/components/dashboard/AiStockAnalysisView.jsx:13-22 | the element for one trimmed line. Stated by `ClassifyLine` |
| AiResponse.Render | frontend/src/components/dashboard/AiStockAnalysisView.jsx:8-23 | the split, trimmed and classified lines. Stated by `RenderConcat` and `RenderLine` |
| AiResponse.ClassifyLine | frontend/src/components/dashboard/AiStockAnalysisView.jsx:13-22 | the heading test comes first: a line starting and ending with `**` (even `**` alone) is a heading with no `**` and the same text apart from stars. `RemoveDoubleStarsSingle` and `RemoveDoubleStarsPair` say which stars go. Next, a `* ` or `- ` line is a list item of the rest after two characters. Any other non-empty line is a paragraph of itself. Only the empty line renders nothing |
| AiResponse.ParagraphTrimmed | frontend/src/components/dashboard/AiStockAnalysisView.jsx:8-22 | a paragraph is a whole trimmed line: non-empty, no white space at either end |
| AiResponse.RenderConcat | frontend/src/components/dashboard/AiStockAnalysisView.jsx:8-23 | the text before a newline renders, in order, before the text after it |
| AiResponse.RenderLine | frontend/src/components/dashboard/AiStockAnalysisView.jsx:12-22 | a single line renders as exactly one element or, when blank, none |
| BrowseStocks.BestMatch | frontend/src/components/dashboard/BrowseStocksView.jsx:30 | the first NSE or BSE match when there is one, otherwise entry 0 |
| BrowseStocks.SymbolParts | frontend/src/components/dashboard/BrowseStocksView.jsx:31 | `Code.Exchange` splits back into the code and the exchange when neither contains a dot |
| BrowseStocks.Symbol | frontend/src/components/dashboard/BrowseStocksView.jsx:31 | `${Code}.${Exchange}`. Stated by `SymbolParts` |
| BrowseStocks.Lookup | frontend/src/components/dashboard/BrowseStocksView.jsx:21-48 | one search's outcome. Stated by `LookupOutcome` |
| BrowseStocks.LookupOutcome | frontend/src/components/dashboard/BrowseStocksView.jsx:21-48 | success exactly when the search gives matches and the preferred match's quote has a code. The result carries the quote's code, close, change, change % and volume, and the match's name. A non-array or empty answer gives `No stocks found for "<term>".`. A non-object quote or one without a code gives `Could not fetch live price data for <symbol>.`. A failed request gives its own message |
| BrowseStocks.SearchView.constructor | frontend/src/components/dashboard/BrowseStocksView.jsx:8-11 | empty term, no result, not loading, no error |
| BrowseStocks.SearchView.HandleSearch | frontend/src/components/dashboard/BrowseStocksView.jsx:13-55 | an empty term changes nothing. Otherwise either the result is set and the error cleared, or the result is cleared and the message shown, such as "Could not fetch live price data for <symbol>.". Loading ends false |

## Left out

- Ledger.Database.ExecuteBuyTransaction, ExecuteSellTransaction, BuyStock, SellStock: `quantity > 0` and `price >= 0` are preconditions. The backend code (`backend/crud.py:31-33`, `backend/crud.py:100-103`, `backend/main.py:91-118`) checks neither. Only the trade modal clamps the quantity to at least 1 (`frontend/src/components/dashboard/TradeModal.jsx:133-134`). A direct request with a quantity of 0 or less, or a negative price, is outside the model.
- Ledger.Database.CreateUser: requires an unused email and username. In the code the database's unique columns (backend/models.py:18-19) enforce this, and `register_user` checks it first.
- Ledger.Database.Login: password verification is an abstract predicate. Creating the JWT access token (backend/security.py) and decoding it for the authenticated endpoints are not modelled.
- Ledger.Database.UpdateUserBudget: like the source, it does not check the sign. Only `UpdateBudget` (the endpoint) keeps budgets non-negative.
- PriceCache.ResolvePrice, PortfolioAnalysis.ValuationPrice: they assume distinct tickers among the holdings, which the ledger guarantees for one user. With duplicates the last fetched answer for a ticker wins, and the model computes that but no lemma states it.
- PriceCache.Storage.FetchAndCacheLivePrices: the parallel requests of `Promise.all` are a sequential fold. Each request writes its own ticker, so the order does not matter.
- PriceCache.Storage.FetchAndCacheLivePrices: one call is one atomic step. In the code, the dashboard's `calculateValue` and the analysis tab's `runAnalysis` can overlap: each awaits its requests and then writes the whole slot, so the last write wins and may drop prices the other call stored. The model does not capture this interleaving.
- Network requests to the quote and search provider are oracle parameters. The model does not capture failures that leave a request pending, or answers that change between two requests for the same ticker.
- Local storage and JSON are a field with an explicit "unparsable" value. The system clock is the `today` parameter. The transaction timestamp is the `now` parameter. Transaction ids are not modelled.
- Floating point: money is exact `real`. NaN prices (which are falsy) and rounding are not modelled.
- Locale formatting (`toLocaleString`, `:.2f`) and dates shown as text are display only.
- Text.Upper: upper-cases ASCII letters only. Python's `str.upper()` also maps other scripts, which tickers do not use.
- PriceCache.Storage.FetchAndCacheLivePrices, Dashboard.DashboardState.CalculateValue, PortfolioAnalysis.AnalysisView.RunAnalysis: the model assumes reading and writing the cache slot never throws. In the code, `localStorage.setItem` (`frontend/src/components/dashboard/PortfolioAnalysisView.jsx:50`, `frontend/src/pages/DashboardPage.jsx:50`) is outside any `try`. A stored value of the wrong shape, such as `null` or an object without `prices`, also throws at `frontend/src/components/dashboard/PortfolioAnalysisView.jsx:20-24`, outside the guarded parse at :12-18. Either failure, for example a full storage quota, rejects the whole call. Then `runAnalysis` never publishes an analysis or clears `loading`, and `calculateValue` never clears `isPortfolioLoading`. The model's "loading ends false" holds only when no such error occurs.
- Answers of the wrong shape that make JavaScript throw a TypeError are not modelled, such as a null search or quote body; a thrown error's message is the `SearchFailed`/`QuoteFailed` message. A SELL row without a P/L, which throws in the table, is the `None` of `TransactionsView.Render`.
- `detailedHoldings.sort` sorts in place. The transaction list is sorted on a spread copy. Both are modelled on values, so the input list is unchanged by construction.
- The AI analysis request and the Gemini call (backend/crud.py:131-163) are outside this model; only the rendering of their text is modelled. So are the dashboard fetch, `read_users_me` and `get_current_active_user`.
- Pure UI is not modelled: spinners, tabs, modals, the trade modal's quantity clamp, the holdings view, and the login and registration pages.
