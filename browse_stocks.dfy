/** The stock search of frontend/src/components/dashboard/BrowseStocksView.jsx:
    a search for the term, the first match on an Indian exchange (NSE or BSE)
    or else the first match, then a quote for `<Code>.<Exchange>`.  Both
    requests are oracles that give the decoded answer or the message of the
    error they raised. */
module BrowseStocks {
  import opened Wrappers
  import opened Text

  /** One entry of the search answer. */
  datatype Match = Match(code: string, exchange: string, name: string)

  /** The decoded search answer: not an array, an array of matches, or an
      error raised by the request or the decoding. */
  datatype SearchAnswer = NotAnArray | Matches(matches: seq<Match>) | SearchFailed(message: string)

  /** The decoded quote answer; `code` is "" when missing. */
  datatype QuoteAnswer =
    | NotAnObject
    | Quote(code: string, close: real, change: real, changePercent: real, volume: int)
    | QuoteFailed(message: string)

  /** What `setSearchResult` receives. */
  datatype StockResult = StockResult(symbol: string, name: string, price: real, change: real,
                                     changePercent: real, volume: int)

  predicate OnIndianExchange(m: Match) {
    m.exchange == "NSE" || m.exchange == "BSE"
  }

  /** `searchData.find(m => ...) || searchData[0]`, as an index. */
  function BestMatch(ms: seq<Match>): (k: nat)
    requires |ms| > 0
    ensures k < |ms|
    ensures (exists i :: 0 <= i < |ms| && OnIndianExchange(ms[i])) ==>
      OnIndianExchange(ms[k]) && forall i :: 0 <= i < k ==> !OnIndianExchange(ms[i])
    ensures (forall i :: 0 <= i < |ms| ==> !OnIndianExchange(ms[i])) ==> k == 0
    decreases |ms|
  {
    if OnIndianExchange(ms[0]) then 0
    else if |ms| == 1 then 0
    else
      var k := BestMatch(ms[1..]);
      if OnIndianExchange(ms[1..][k]) then k + 1 else 0
  }

  /** `${Code}.${Exchange}`. */
  function Symbol(m: Match): string {
    m.code + "." + m.exchange
  }

  function NotFound(term: string): string {
    "No stocks found for \"" + term + "\"."
  }

  function NoQuote(symbol: string): string {
    "Could not fetch live price data for " + symbol + "."
  }

  /** The outcome of one search for a non-empty term: the result, or the
      message shown. */
  function Lookup(term: string, search: string -> SearchAnswer, quote: string -> QuoteAnswer): Result<StockResult, string> {
    match search(term)
    case SearchFailed(message) => Failure(message)
    case NotAnArray => Failure(NotFound(term))
    case Matches(ms) =>
      if |ms| == 0 then Failure(NotFound(term))
      else
        var best := ms[BestMatch(ms)];
        match quote(Symbol(best))
        case QuoteFailed(message) => Failure(message)
        case NotAnObject => Failure(NoQuote(Symbol(best)))
        case Quote(code, close, change, changePercent, volume) =>
          if code == "" then Failure(NoQuote(Symbol(best)))
          else Success(StockResult(code, best.name, close, change, changePercent, volume))
  }

  /** A symbol names its match: when neither part contains a dot, the code
      and the exchange are read back by splitting at the dot. */
  lemma SymbolParts(m: Match)
    requires '.' !in m.code && '.' !in m.exchange
    ensures Split(Symbol(m), '.') == [m.code, m.exchange]
  {
    assert Join([m.code, m.exchange], '.') == Symbol(m) by {
      assert [m.code, m.exchange][1..] == [m.exchange];
    }
    SplitJoin([m.code, m.exchange], '.');
  }

  /** A search succeeds exactly when it finds matches and a quote with a
      code for the preferred match; the result carries the quote's code as
      symbol and the preferred match's name; an empty answer, a quote that
      is not an object or has no code, and a failed request give their
      messages. */
  lemma LookupOutcome(term: string, search: string -> SearchAnswer, quote: string -> QuoteAnswer)
    ensures Lookup(term, search, quote).Success? <==>
      && search(term).Matches? && |search(term).matches| > 0
      && var best := search(term).matches[BestMatch(search(term).matches)];
         quote(Symbol(best)).Quote? && quote(Symbol(best)).code != ""
    ensures Lookup(term, search, quote).Success? ==>
      var ms := search(term).matches;
      var best := ms[BestMatch(ms)];
      var r := Lookup(term, search, quote).value;
      && r.symbol == quote(Symbol(best)).code
      && r.name == best.name
      && r.price == quote(Symbol(best)).close
      && r.change == quote(Symbol(best)).change
      && r.changePercent == quote(Symbol(best)).changePercent
      && r.volume == quote(Symbol(best)).volume
      && exists i :: 0 <= i < |ms| && r.name == ms[i].name
    ensures search(term) == NotAnArray || search(term) == Matches([]) ==>
      Lookup(term, search, quote) == Failure(NotFound(term))
    ensures search(term).Matches? && |search(term).matches| > 0 ==>
      var best := search(term).matches[BestMatch(search(term).matches)];
      && (quote(Symbol(best)).NotAnObject? || (quote(Symbol(best)).Quote? && quote(Symbol(best)).code == "") ==>
            Lookup(term, search, quote) == Failure(NoQuote(Symbol(best))))
      && (quote(Symbol(best)).QuoteFailed? ==>
            Lookup(term, search, quote) == Failure(quote(Symbol(best)).message))
    ensures search(term).SearchFailed? ==> Lookup(term, search, quote) == Failure(search(term).message)
  {
    if Lookup(term, search, quote).Success? {
      var ms := search(term).matches;
      var k := BestMatch(ms);
      assert Lookup(term, search, quote).value.name == ms[k].name;
    }
  }

  /** The component's state. */
  class SearchView {
    var searchTerm: string
    var searchResult: Option<StockResult>
    var searchLoading: bool
    var searchError: string

    constructor ()
      ensures searchTerm == "" && searchResult == None && !searchLoading && searchError == ""
    {
      searchTerm := "";
      searchResult := None;
      searchLoading := false;
      searchError := "";
    }

    /** `handleSearch`: an empty term does nothing at all; otherwise the
        result or the error message replaces the previous ones. */
    method HandleSearch(search: string -> SearchAnswer, quote: string -> QuoteAnswer)
      modifies this
      ensures searchTerm == old(searchTerm)
      ensures old(searchTerm) == "" ==>
        searchResult == old(searchResult) && searchLoading == old(searchLoading) && searchError == old(searchError)
      ensures old(searchTerm) != "" ==>
        && !searchLoading
        && match Lookup(searchTerm, search, quote)
           case Success(r) => searchResult == Some(r) && searchError == ""
           case Failure(message) => searchResult == None && searchError == message
    {
      if searchTerm == "" {
        return;
      }
      searchLoading := true;
      searchError := "";
      searchResult := None;
      var outcome := Lookup(searchTerm, search, quote);
      match outcome {
        case Success(r) => searchResult := Some(r);
        case Failure(message) => searchError := message;
      }
      searchLoading := false;
    }
  }
}
