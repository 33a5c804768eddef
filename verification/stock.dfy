/** The quote fetcher and parsers of dist/stock.js: the lookup key, the
    market classifier, the three fixed-index parsers with the A-share order
    book, the single fetch and the batch fetch.

    The HTTP call is a parameter `server` that maps a request URL to a
    response; `parseFloat` and `parseInt` are the uninterpreted `Numerics`. */
module Stock {
  import opened Wrappers
  import opened Types
  import opened Fields
  import opened Envelope
  import Lists

  /** The quote endpoint. */
  const BaseUrl: string := "https://qt.gtimg.cn"

  // ---------------------------------------------------------------------------
  // Request key

  /** `getPrefix(market)`. */
  function Prefix(market: Market): (p: string)
    ensures p in Prefixes
    ensures |p| >= 2
  {
    match market
    case SH => "sh"
    case SZ => "sz"
    case HK => "r_hk"
    case US => "s_us"
  }

  /** The market-prefixed code the endpoint is asked for. */
  function Key(market: Market, code: string): string {
    Prefix(market) + code
  }

  /** The request URL `${BASE_URL}/?q=${prefix}${code}`. */
  function Url(market: Market, code: string): string {
    BaseUrl + "/?q=" + Key(market, code)
  }

  /** Different requests never share a key: the four prefixes already differ
      in their first two characters, so the key determines both the market
      and the code. */
  lemma KeyInjective(m1: Market, c1: string, m2: Market, c2: string)
    requires Key(m1, c1) == Key(m2, c2)
    ensures m1 == m2 && c1 == c2
  {
    var k := Key(m1, c1);
    assert k[0] == Prefix(m1)[0] == Prefix(m2)[0];
    assert k[1] == Prefix(m1)[1] == Prefix(m2)[1];
    assert Prefix(m1) == Prefix(m2);
    assert c1 == k[|Prefix(m1)|..] == c2;
  }

  // ---------------------------------------------------------------------------
  // Responses and errors

  /** What the HTTP call yields: `response.ok`, `response.statusText` and the
      text of the body. */
  datatype Response = Response(ok: bool, statusText: string, body: string)

  /** The errors a single fetch throws. */
  datatype FetchError =
    | RequestFailed(statusText: string)
    | NoData(key: string)
    | TooFewFields
    | UnknownMarket(marketCode: Option<int>)

  function DecimalText(n: nat): string
    decreases n
  {
    var digit := ['0' + ((n % 10) as char)];
    if n < 10 then digit else DecimalText(n / 10) + digit
  }

  /** How JavaScript prints the parsed market code (`NaN` when it did not
      parse). */
  function CodeText(code: Option<int>): string {
    match code
    case None => "NaN"
    case Some(n) => if n < 0 then "-" + DecimalText(-n) else DecimalText(n)
  }

  /** The message of each error. */
  function Message(e: FetchError): string {
    match e
    case RequestFailed(status) => "Failed to fetch stock data: " + status
    case NoData(key) => "No data returned for " + key
    case TooFewFields => "Invalid stock data: too few fields"
    case UnknownMarket(code) => "Unknown market type: " + CodeText(code)
  }

  // ---------------------------------------------------------------------------
  // Order book

  /** `fields[i] && fields[i + 1]`: both strings of the pair starting at `i`
      are there and non-empty. */
  predicate PairPresent(fields: seq<string>, i: nat) {
    GetField(fields, i) != "" && GetField(fields, i + 1) != ""
  }

  /** `{ price: parseFloat(fields[i]), volume: parseInt(fields[i + 1]) }`. */
  function LevelAt(num: Numerics, fields: seq<string>, i: nat): Level {
    Level(num.parseFloat(GetField(fields, i)), num.parseInt(GetField(fields, i + 1)))
  }

  /** The levels of the first `n` pairs starting at field `first`, stepping
      by two fields, keeping a pair exactly when both of its strings are
      present. */
  function Levels(num: Numerics, fields: seq<string>, first: nat, n: nat): (levels: seq<Level>)
    ensures |levels| <= n
  {
    if n == 0 then []
    else
      var i := first + 2 * (n - 1);
      Levels(num, fields, first, n - 1) + (if PairPresent(fields, i) then [LevelAt(num, fields, i)] else [])
  }

  /** Looking at one more pair, the one at field `i`, appends its level when
      it is present. */
  lemma LevelsNext(num: Numerics, fields: seq<string>, first: nat, k: nat, i: nat)
    requires i == first + 2 * k
    ensures Levels(num, fields, first, k + 1) ==
      Levels(num, fields, first, k) + (if PairPresent(fields, i) then [LevelAt(num, fields, i)] else [])
  {
  }

  /** The number of present pairs among the first `n`. */
  function PresentCount(fields: seq<string>, first: nat, n: nat): nat {
    if n == 0 then 0
    else PresentCount(fields, first, n - 1) + (if PairPresent(fields, first + 2 * (n - 1)) then 1 else 0)
  }

  /** One level per present pair, and none for an absent one. */
  lemma {:induction false} LevelsCount(num: Numerics, fields: seq<string>, first: nat, n: nat)
    ensures |Levels(num, fields, first, n)| == PresentCount(fields, first, n)
  {
    if n > 0 {
      LevelsCount(num, fields, first, n - 1);
    }
  }

  /** A present pair contributes its level, at the position given by the
      number of present pairs before it. */
  lemma {:induction false} LevelsSlot(num: Numerics, fields: seq<string>, first: nat, n: nat, k: nat)
    requires k < n && PairPresent(fields, first + 2 * k)
    ensures PresentCount(fields, first, k) < |Levels(num, fields, first, n)|
    ensures Levels(num, fields, first, n)[PresentCount(fields, first, k)] == LevelAt(num, fields, first + 2 * k)
  {
    var prev := Levels(num, fields, first, n - 1);
    var i := first + 2 * (n - 1);
    var tail := if PairPresent(fields, i) then [LevelAt(num, fields, i)] else [];
    LevelsNext(num, fields, first, n - 1, i);
    assert Levels(num, fields, first, n) == prev + tail;
    var slot := PresentCount(fields, first, k);
    if k < n - 1 {
      LevelsSlot(num, fields, first, n - 1, k);
      assert (prev + tail)[slot] == prev[slot] == LevelAt(num, fields, first + 2 * k);
    } else {
      assert first + 2 * k == i;
      LevelsCount(num, fields, first, k);
      assert slot == |prev|;
      assert tail == [LevelAt(num, fields, i)];
      assert (prev + tail)[slot] == LevelAt(num, fields, i);
    }
  }

  /** Levels keep field order: of two present pairs, the earlier one's level
      comes first. */
  lemma {:induction false} LevelsInFieldOrder(fields: seq<string>, first: nat, k1: nat, k2: nat)
    requires k1 < k2 && PairPresent(fields, first + 2 * k1)
    ensures PresentCount(fields, first, k1) < PresentCount(fields, first, k2)
    decreases k2
  {
    if k1 < k2 - 1 {
      LevelsInFieldOrder(fields, first, k1, k2 - 1);
    }
  }

  /** One loop of `parseAStock`: from field `first`, step by two fields up to
      `first + 9`, pushing the level of every present pair. */
  method PushLevels(num: Numerics, fields: seq<string>, first: nat) returns (levels: seq<Level>)
    ensures levels == Levels(num, fields, first, 5)
  {
    levels := [];
    var i := first;
    ghost var k := 0;
    while i <= first + 9
      invariant i == first + 2 * k && k <= 5
      invariant levels == Levels(num, fields, first, k)
    {
      LevelsNext(num, fields, first, k, i);
      if PairPresent(fields, i) {
        levels := levels + [LevelAt(num, fields, i)];
      }
      i, k := i + 2, k + 1;
    }
  }

  /** The order book of `parseAStock`: the ask pairs are fields 9 to 18 and
      the bid pairs fields 19 to 28. */
  method BuildOrderBook(num: Numerics, fields: seq<string>) returns (book: OrderBook)
    ensures book == OrderBook(Levels(num, fields, 9, 5), Levels(num, fields, 19, 5))
  {
    var asks := PushLevels(num, fields, 9);
    var bids := PushLevels(num, fields, 19);
    book := OrderBook(asks, bids);
  }

  // ---------------------------------------------------------------------------
  // The three parsers

  /** `parseAStock(fields, market)`; the order book is the one `BuildOrderBook`
      computes. */
  function ParseAStock(fields: seq<string>, market: Market, num: Numerics): (q: StockData)
    requires market == SH || market == SZ
    ensures q.AShare? && q.market == market
    ensures q.bidAsk == OrderBook(Levels(num, fields, 9, 5), Levels(num, fields, 19, 5))
    ensures |q.bidAsk.asks| <= 5 && |q.bidAsk.bids| <= 5
    ensures q.name == GetField(fields, 1) && q.code == GetField(fields, 2) && q.datetime == GetField(fields, 30)
    ensures GetField(fields, 82) != "" ==> q.currency == GetField(fields, 82)
    ensures GetField(fields, 82) == "" ==> q.currency == "CNY"
  {
    AShare(
      market := market,
      name := GetField(fields, 1),
      code := GetField(fields, 2),
      currentPrice := ParseNum(num, fields, 3, 0.0),
      yesterdayClose := ParseNum(num, fields, 4, 0.0),
      open := ParseNum(num, fields, 5, 0.0),
      volume := ParseNum(num, fields, 6, 0.0),
      outside := ParseNum(num, fields, 7, 0.0),
      inside := ParseNum(num, fields, 8, 0.0),
      datetime := GetField(fields, 30),
      change := ParseNum(num, fields, 31, 0.0),
      changePercent := ParseNum(num, fields, 32, 0.0),
      high := ParseNum(num, fields, 33, 0.0),
      low := ParseNum(num, fields, 34, 0.0),
      amount := ParseNum(num, fields, 37, 0.0),
      turnoverRate := ParseNum(num, fields, 38, 0.0),
      peTtm := ParseNum(num, fields, 39, 0.0),
      amplitude := ParseNum(num, fields, 43, 0.0),
      totalMarketCap := ParseNum(num, fields, 44, 0.0),
      floatMarketCap := ParseNum(num, fields, 45, 0.0),
      volumeRatio := ParseNum(num, fields, 49, 0.0),
      avgPrice := ParseNum(num, fields, 51, 0.0),
      peDynamic := ParseNum(num, fields, 52, 0.0),
      peStatic := ParseNum(num, fields, 53, 0.0),
      floatingShares := ParseNum(num, fields, 72, 0.0),
      totalShares := ParseNum(num, fields, 73, 0.0),
      currency := if GetField(fields, 82) != "" then GetField(fields, 82) else "CNY",
      bidAsk := OrderBook(Levels(num, fields, 9, 5), Levels(num, fields, 19, 5)))
  }

  /** `parseHKStock(fields)`. */
  function ParseHKStock(fields: seq<string>, num: Numerics): (q: StockData)
    ensures q.HKShare? && q.MarketOf() == HK
    ensures q.name == GetField(fields, 1) && q.code == GetField(fields, 2) && q.datetime == GetField(fields, 30)
    ensures GetField(fields, 75) != "" ==> q.currency == GetField(fields, 75)
    ensures GetField(fields, 75) == "" ==> q.currency == "HKD"
  {
    HKShare(
      name := GetField(fields, 1),
      code := GetField(fields, 2),
      currentPrice := ParseNum(num, fields, 3, 0.0),
      yesterdayClose := ParseNum(num, fields, 4, 0.0),
      open := ParseNum(num, fields, 5, 0.0),
      volume := ParseNum(num, fields, 6, 0.0),
      datetime := GetField(fields, 30),
      change := ParseNum(num, fields, 31, 0.0),
      changePercent := ParseNum(num, fields, 32, 0.0),
      high := ParseNum(num, fields, 33, 0.0),
      low := ParseNum(num, fields, 34, 0.0),
      amount := ParseNum(num, fields, 37, 0.0),
      pe := ParseNum(num, fields, 39, 0.0),
      floatingShares := ParseNum(num, fields, 69, 0.0),
      totalShares := ParseNum(num, fields, 70, 0.0),
      currency := if GetField(fields, 75) != "" then GetField(fields, 75) else "HKD")
  }

  /** `parseUSStock(fields)`: the currency is always USD, whatever the payload
      holds. */
  function ParseUSStock(fields: seq<string>, num: Numerics): (q: StockData)
    ensures q.USShare? && q.MarketOf() == US
    ensures q.name == GetField(fields, 1) && q.code == GetField(fields, 2)
    ensures q.currency == "USD"
  {
    USShare(
      name := GetField(fields, 1),
      code := GetField(fields, 2),
      currentPrice := ParseNum(num, fields, 3, 0.0),
      change := ParseNum(num, fields, 4, 0.0),
      changePercent := ParseNum(num, fields, 5, 0.0),
      volume := ParseNum(num, fields, 6, 0.0),
      amount := ParseNum(num, fields, 7, 0.0),
      marketCap := ParseNum(num, fields, 8, 0.0),
      currency := "USD")
  }

  // ---------------------------------------------------------------------------
  // Market classifier

  /** The parser a record is sent to. */
  datatype Family = AShareFamily | HKFamily | USFamily | NoFamily

  function FamilyOf(q: StockData): Family {
    if q.AShare? then AShareFamily else if q.HKShare? then HKFamily else USFamily
  }

  /** The condition chain of `parseStockData`: the first branch whose test
      holds wins, and the embedded market code sits in the same test as the
      hint. Read by hint: an A-share hint always gives the A-share parser; an
      HK hint gives the HK parser unless the code is 1 or 51; a US hint gives
      the US parser unless the code is 1, 51 or 100. No hint reaches the
      unknown-market error. */
  function Route(hint: Market, marketCode: Option<int>): (f: Family)
    ensures hint == SH || hint == SZ ==> f == AShareFamily
    ensures hint == HK ==> f == (if marketCode == Some(1) || marketCode == Some(51) then AShareFamily else HKFamily)
    ensures hint == US ==> f == (if marketCode == Some(1) || marketCode == Some(51) then AShareFamily
                                 else if marketCode == Some(100) then HKFamily else USFamily)
  {
    if hint == SH || hint == SZ || marketCode == Some(1) || marketCode == Some(51) then AShareFamily
    else if hint == HK || marketCode == Some(100) then HKFamily
    else if hint == US || marketCode == Some(200) then USFamily
    else NoFamily
  }

  /** The unknown-market branch is dead: whatever the embedded code, the hint
      alone already selects a parser. */
  lemma RouteKnown(hint: Market, marketCode: Option<int>)
    ensures Route(hint, marketCode) != NoFamily
  {
    match hint
    case SH =>
    case SZ =>
    case HK =>
    case US =>
  }

  /** `parseStockData(raw, market)`. */
  function ParseStockData(raw: RawResponse, hint: Market, num: Numerics): (r: Result<StockData, FetchError>)
    ensures var fields := Split(raw.data, Tilde);
      |fields| < 10 ==> r == Failure(TooFewFields)
    ensures var fields := Split(raw.data, Tilde);
      |fields| >= 10 ==> r.Success? && FamilyOf(r.value) == Route(hint, num.parseInt(fields[0]))
    ensures var fields := Split(raw.data, Tilde);
      |fields| >= 10 ==>
        r == Success(match Route(hint, num.parseInt(fields[0]))
                     case AShareFamily => ParseAStock(fields, if hint == SZ then SZ else SH, num)
                     case HKFamily => ParseHKStock(fields, num)
                     case _ => ParseUSStock(fields, num))
    ensures r.Success? && r.value.AShare? ==> (r.value.market == SZ <==> hint == SZ)
    ensures r.Failure? ==> r.error == TooFewFields
  {
    var fields := Split(raw.data, Tilde);
    if |fields| < 10 then Failure(TooFewFields)
    else
      var marketCode := num.parseInt(fields[0]);
      RouteKnown(hint, marketCode);
      match Route(hint, marketCode)
      case AShareFamily => Success(ParseAStock(fields, if hint == SZ then SZ else SH, num))
      case HKFamily => Success(ParseHKStock(fields, num))
      case USFamily => Success(ParseUSStock(fields, num))
      case NoFamily => Failure(UnknownMarket(marketCode))
  }

  /** The embedded code overrides an HK or US request: a code of 1 or 51
      gives an A-share record tagged SH, and a code of 100 turns a US request
      into an HK record. */
  lemma HintOverridden(raw: RawResponse, num: Numerics)
    requires |Split(raw.data, Tilde)| >= 10
    ensures var fields := Split(raw.data, Tilde);
      var code := num.parseInt(fields[0]);
      (code == Some(1) || code == Some(51)) ==>
        ParseStockData(raw, HK, num) == Success(ParseAStock(fields, SH, num)) &&
        ParseStockData(raw, US, num) == Success(ParseAStock(fields, SH, num)) &&
        ParseStockData(raw, HK, num).value.market == SH
    ensures var fields := Split(raw.data, Tilde);
      num.parseInt(fields[0]) == Some(100) ==>
        ParseStockData(raw, US, num) == Success(ParseHKStock(fields, num))
  {
  }

  // ---------------------------------------------------------------------------
  // Fetching

  /** `fetchStock(code, market)`. Each error case is exactly one of the
      throws of the source, and an unknown market is never reported. */
  function FetchStock(code: string, market: Market, server: string -> Response, num: Numerics): (r: Result<StockData, FetchError>)
    ensures var response := server(Url(market, code));
      (r.Failure? && r.error.RequestFailed?) <==> !response.ok
    ensures var response := server(Url(market, code));
      !response.ok ==> r == Failure(RequestFailed(response.statusText))
    ensures var response := server(Url(market, code));
      response.ok && ParseRawResponse(response.body).Some? ==>
        r == ParseStockData(ParseRawResponse(response.body).value, market, num)
    ensures var response := server(Url(market, code));
      (r.Failure? && r.error.NoData?) <==> response.ok && ParseRawResponse(response.body).None?
    ensures r.Failure? && r.error.NoData? ==> r.error.key == Key(market, code)
    ensures var response := server(Url(market, code));
      (r.Failure? && r.error.TooFewFields?) <==>
        response.ok && ParseRawResponse(response.body).Some? &&
        |Split(ParseRawResponse(response.body).value.data, Tilde)| < 10
    ensures !(r.Failure? && r.error.UnknownMarket?)
  {
    var prefix := Prefix(market);
    var response := server(Url(market, code));
    if !response.ok then Failure(RequestFailed(response.statusText))
    else
      match ParseRawResponse(response.body)
      case None => Failure(NoData(prefix + code))
      case Some(raw) => ParseStockData(raw, market, num)
  }

  /** A successful response with no well-formed envelope anywhere in its
      body, an empty quoted payload included, makes `fetchStock` throw "No
      data returned for" followed by the lookup key. */
  lemma FetchStockNoData(code: string, market: Market, server: string -> Response, num: Numerics)
    requires server(Url(market, code)).ok
    requires var body := server(Url(market, code)).body;
      forall i :: 0 <= i <= |body| ==> !HasEnvelopeAt(body, i)
    ensures FetchStock(code, market, server, num) == Failure(NoData(Key(market, code)))
    ensures Message(FetchStock(code, market, server, num).error) ==
      "No data returned for " + Prefix(market) + code
  {
    ParseRawResponseNull(server(Url(market, code)).body);
  }

  /** One entry of the batch input. */
  datatype Query = Query(code: string, market: Market)

  /** The outcome of fetching each query on its own. */
  function Outcomes(queries: seq<Query>, server: string -> Response, num: Numerics): (outcomes: seq<Result<StockData, FetchError>>)
    ensures |outcomes| == |queries|
  {
    if queries == [] then []
    else
      var n := |queries| - 1;
      Outcomes(queries[..n], server, num) + [FetchStock(queries[n].code, queries[n].market, server, num)]
  }

  /** Each outcome is the fetch of the query at the same position. */
  lemma {:induction false} OutcomesAt(queries: seq<Query>, server: string -> Response, num: Numerics, i: nat)
    requires i < |queries|
    ensures Outcomes(queries, server, num)[i] == FetchStock(queries[i].code, queries[i].market, server, num)
  {
    var n := |queries| - 1;
    var init := Outcomes(queries[..n], server, num);
    var last := FetchStock(queries[n].code, queries[n].market, server, num);
    assert Outcomes(queries, server, num) == init + [last];
    if i < n {
      OutcomesAt(queries[..n], server, num, i);
      assert queries[..n][i] == queries[i];
      assert (init + [last])[i] == init[i];
    }
  }

  /** Fetching one more query appends its outcome. */
  lemma OutcomesStep(queries: seq<Query>, k: nat, server: string -> Response, num: Numerics)
    requires k < |queries|
    ensures Lists.Successes(Outcomes(queries[..k + 1], server, num)) ==
      var outcome := FetchStock(queries[k].code, queries[k].market, server, num);
      Lists.Successes(Outcomes(queries[..k], server, num)) + (if outcome.Success? then [outcome.value] else [])
  {
    assert queries[..k + 1][..k] == queries[..k];
  }

  /** `fetchStocks(codes)`: fetch each query in turn, keep what succeeded in
      input order, skip what failed and carry on. */
  method FetchStocks(queries: seq<Query>, server: string -> Response, num: Numerics) returns (results: seq<StockData>)
    ensures results == Lists.Successes(Outcomes(queries, server, num))
    ensures |results| <= |queries|
  {
    results := [];
    var k := 0;
    while k < |queries|
      invariant k <= |queries|
      invariant results == Lists.Successes(Outcomes(queries[..k], server, num))
    {
      var q := queries[k];
      var outcome := FetchStock(q.code, q.market, server, num);
      if outcome.Success? {
        results := results + [outcome.value];
      }
      OutcomesStep(queries, k, server, num);
      k := k + 1;
    }
    assert queries[..k] == queries;
  }
}
