/**
 * Stock search and ticker resolution (frontend/src/lib/searchStock.ts). The
 * two Polygon requests are parameters: `search` answers the tickers search
 * for a query, `lookup` the direct lookup of a ticker, each given the key.
 */
module SearchStock {
  import opened Wrappers
  import opened Text

  /** One element of the search response's `results`, each field possibly missing. */
  datatype RawTicker = RawTicker(ticker: Option<string>, name: Option<string>, market: Option<string>, primaryExchange: Option<string>)

  /** `StockSearchResult`. */
  datatype StockSearchResult = StockSearchResult(ticker: string, name: string, market: Option<string>, primaryExchange: Option<string>)

  /** What the search request produced: an exception, or a response with its parsed body. */
  datatype SearchReply =
    | SearchThrew
    | SearchResponse(ok: bool, status: Option<string>, results: Option<seq<RawTicker>>)

  /** What the direct lookup produced: an exception, or a response and its `results?.ticker`. */
  datatype LookupReply =
    | LookupThrew
    | LookupResponse(ok: bool, ticker: Option<string>)

  /** JavaScript truthiness of a string that may be missing. */
  predicate Truthy(value: Option<string>) {
    value.Some? && value.value != []
  }

  /** `value || ''`. */
  function OrEmpty(value: Option<string>): (r: string)
    ensures Truthy(value) ==> r == value.value
    ensures !Truthy(value) ==> r == []
  {
    if Truthy(value) then value.value else []
  }

  /** The `map` over `data.results`. */
  function MapResults(raw: seq<RawTicker>): (r: seq<StockSearchResult>)
    ensures |r| == |raw|
    ensures forall i :: 0 <= i < |raw| ==>
      r[i] == StockSearchResult(OrEmpty(raw[i].ticker), OrEmpty(raw[i].name), raw[i].market, raw[i].primaryExchange)
  {
    seq(|raw|, i requires 0 <= i < |raw| =>
      StockSearchResult(OrEmpty(raw[i].ticker), OrEmpty(raw[i].name), raw[i].market, raw[i].primaryExchange))
  }

  /** The guard both functions start with: `!query.trim() || !polygonKey`. */
  predicate Refused(query: string, polygonKey: string) {
    IsBlank(JavaScript, query) || polygonKey == []
  }

  /**
   * `searchStock(query, polygonKey)`: results only for a query and key that
   * pass the guard and a response that is ok, not "ERROR" and has `results`,
   * and then one per raw result.
   */
  function Search(query: string, polygonKey: string, search: (string, string) -> SearchReply): (r: seq<StockSearchResult>)
    ensures Refused(query, polygonKey) ==> r == []
    ensures r != [] ==>
      var reply := search(query, polygonKey);
      && !Refused(query, polygonKey)
      && reply.SearchResponse? && reply.ok && reply.status != Some("ERROR") && reply.results.Some?
      && |r| == |reply.results.value|
  {
    if Refused(query, polygonKey) then []
    else match search(query, polygonKey)
      case SearchThrew => []
      case SearchResponse(ok, status, results) =>
        if !ok then []
        else if status == Some("ERROR") || results.None? then []
        else MapResults(results.value)
  }

  /** `results.find(r => r.ticker === t)`. */
  function Find(results: seq<StockSearchResult>, t: string): (r: Option<StockSearchResult>)
    ensures r.Some? <==> exists i :: 0 <= i < |results| && results[i].ticker == t
    ensures r.Some? ==> r.value in results && r.value.ticker == t
  {
    if results == [] then None
    else if results[0].ticker == t then Some(results[0])
    else Find(results[1..], t)
  }

  /** `query.trim().toUpperCase()`. */
  function Normalized(query: string): string {
    Upper(Trim(JavaScript, query))
  }

  /**
   * `resolveTicker(query, polygonKey)`: `null` exactly when the guard refuses,
   * or when the direct lookup names no ticker and the search finds nothing.
   */
  function ResolveTicker(query: string, polygonKey: string,
                         lookup: (string, string) -> LookupReply, search: (string, string) -> SearchReply): (r: Option<string>)
    ensures r.None? <==>
      Refused(query, polygonKey) || (LookupMissed(query, polygonKey, lookup) && Search(query, polygonKey, search) == [])
  {
    if Refused(query, polygonKey) then None
    else
      var trimmedQuery := Normalized(query);
      var direct := lookup(trimmedQuery, polygonKey);
      if direct.LookupResponse? && direct.ok && Truthy(direct.ticker) then direct.ticker
      else
        var results := Search(query, polygonKey, search);
        if |results| == 0 then None
        else match Find(results, trimmedQuery)
          case Some(exactMatch) => Some(exactMatch.ticker)
          case None => Some(results[0].ticker)
  }

  // ---------------------------------------------------------------------------
  // Properties of searchStock

  /** A blank query or a missing key gives no results and asks nothing of the network. */
  lemma SearchRefused(query: string, polygonKey: string, search1: (string, string) -> SearchReply,
                      search2: (string, string) -> SearchReply)
    requires Refused(query, polygonKey)
    ensures Search(query, polygonKey, search1) == [] == Search(query, polygonKey, search2)
  {
  }

  /** A non-ok response, an "ERROR" status, missing `results` or an exception gives no results. */
  lemma SearchFailures(query: string, polygonKey: string, search: (string, string) -> SearchReply)
    requires var reply := search(query, polygonKey);
      reply.SearchThrew? || !reply.ok || reply.status == Some("ERROR") || reply.results.None?
    ensures Search(query, polygonKey, search) == []
  {
  }

  /** Otherwise every raw result maps, in order, to its ticker and name, '' when missing. */
  lemma SearchMapsEach(query: string, polygonKey: string, search: (string, string) -> SearchReply)
    requires !Refused(query, polygonKey)
    requires var reply := search(query, polygonKey);
      reply.SearchResponse? && reply.ok && reply.status != Some("ERROR") && reply.results.Some?
    ensures var raw := search(query, polygonKey).results.value;
      var r := Search(query, polygonKey, search);
      && |r| == |raw|
      && forall i :: 0 <= i < |raw| ==>
           && (Truthy(raw[i].ticker) ==> r[i].ticker == raw[i].ticker.value)
           && (!Truthy(raw[i].ticker) ==> r[i].ticker == [])
           && (Truthy(raw[i].name) ==> r[i].name == raw[i].name.value)
           && (!Truthy(raw[i].name) ==> r[i].name == [])
  {
  }

  // ---------------------------------------------------------------------------
  // Properties of resolveTicker

  /** A blank query or a missing key resolves to nothing, whatever the network would say. */
  lemma ResolveRefused(query: string, polygonKey: string,
                       lookup: (string, string) -> LookupReply, search: (string, string) -> SearchReply)
    requires Refused(query, polygonKey)
    ensures ResolveTicker(query, polygonKey, lookup, search) == None
  {
  }

  /** A direct lookup that names a ticker decides the answer; the search is not consulted. */
  lemma DirectLookupWins(query: string, polygonKey: string, lookup: (string, string) -> LookupReply,
                         search1: (string, string) -> SearchReply, search2: (string, string) -> SearchReply)
    requires !Refused(query, polygonKey)
    requires var d := lookup(Normalized(query), polygonKey); d.LookupResponse? && d.ok && Truthy(d.ticker)
    ensures ResolveTicker(query, polygonKey, lookup, search1) == lookup(Normalized(query), polygonKey).ticker
    ensures ResolveTicker(query, polygonKey, lookup, search1) == ResolveTicker(query, polygonKey, lookup, search2)
  {
  }

  /** Whether the direct lookup named no ticker. */
  predicate LookupMissed(query: string, polygonKey: string, lookup: (string, string) -> LookupReply) {
    var d := lookup(Normalized(query), polygonKey);
    !(d.LookupResponse? && d.ok && Truthy(d.ticker))
  }

  /**
   * After a missed lookup: nothing when the search finds nothing; the
   * normalised query when some result carries exactly that ticker; the first
   * result's ticker otherwise.
   */
  lemma SearchFallback(query: string, polygonKey: string,
                       lookup: (string, string) -> LookupReply, search: (string, string) -> SearchReply)
    requires !Refused(query, polygonKey) && LookupMissed(query, polygonKey, lookup)
    ensures var results := Search(query, polygonKey, search);
      var r := ResolveTicker(query, polygonKey, lookup, search);
      && (results == [] <==> r.None?)
      && ((exists i :: 0 <= i < |results| && results[i].ticker == Normalized(query)) ==> r == Some(Normalized(query)))
      && (results != [] && (forall i :: 0 <= i < |results| ==> results[i].ticker != Normalized(query)) ==>
            r == Some(results[0].ticker))
  {
  }

  /** Whatever is returned came from the lookup or is the ticker of a search result. */
  lemma ResolvedFromReplies(query: string, polygonKey: string,
                            lookup: (string, string) -> LookupReply, search: (string, string) -> SearchReply)
    ensures var r := ResolveTicker(query, polygonKey, lookup, search);
      var d := lookup(Normalized(query), polygonKey);
      var results := Search(query, polygonKey, search);
      r.Some? ==>
        || (d.LookupResponse? && r == d.ticker)
        || exists i :: 0 <= i < |results| && results[i].ticker == r.value
  {
    if !Refused(query, polygonKey) && LookupMissed(query, polygonKey, lookup) {
      var results := Search(query, polygonKey, search);
      if results != [] && Find(results, Normalized(query)).None? {
        assert results[0].ticker == ResolveTicker(query, polygonKey, lookup, search).value;
      }
    }
  }

  /** A search hit without a ticker resolves to the empty string, not to `null`. */
  lemma EmptyTickerResolved(query: string, polygonKey: string,
                            lookup: (string, string) -> LookupReply, search: (string, string) -> SearchReply)
    requires !Refused(query, polygonKey) && LookupMissed(query, polygonKey, lookup)
    requires var reply := search(query, polygonKey);
      && reply.SearchResponse? && reply.ok && reply.status != Some("ERROR") && reply.results.Some?
      && |reply.results.value| > 0 && reply.results.value[0].ticker.None?
      && (forall i :: 0 <= i < |reply.results.value| ==> OrEmpty(reply.results.value[i].ticker) != Normalized(query))
    ensures ResolveTicker(query, polygonKey, lookup, search) == Some([])
  {
    SearchFallback(query, polygonKey, lookup, search);
  }
}
