/** The record shapes of src/types.ts. */
module Types {
  import opened Wrappers

  /** The four markets a caller can ask for. */
  datatype Market = SH | SZ | HK | US

  /** One order-book level. `price` comes from `parseFloat` and `volume` from
      `parseInt`; either is `None` when the text did not parse (JavaScript NaN). */
  datatype Level = Level(price: Option<real>, volume: Option<int>)

  /** The ask and bid levels of an A-share quote, in payload field order. */
  datatype OrderBook = OrderBook(asks: seq<Level>, bids: seq<Level>)

  /** The quote record: exactly one of the three market families. */
  datatype StockData =
    | AShare(
        market: Market, name: string, code: string,
        currentPrice: real, yesterdayClose: real, open: real, volume: real,
        outside: real, inside: real, datetime: string,
        change: real, changePercent: real, high: real, low: real, amount: real,
        turnoverRate: real, peTtm: real, amplitude: real,
        totalMarketCap: real, floatMarketCap: real, volumeRatio: real,
        avgPrice: real, peDynamic: real, peStatic: real,
        floatingShares: real, totalShares: real, currency: string,
        bidAsk: OrderBook)
    | HKShare(
        name: string, code: string,
        currentPrice: real, yesterdayClose: real, open: real, volume: real,
        datetime: string, change: real, changePercent: real,
        high: real, low: real, amount: real, pe: real,
        floatingShares: real, totalShares: real, currency: string)
    | USShare(
        name: string, code: string,
        currentPrice: real, change: real, changePercent: real,
        volume: real, amount: real, marketCap: real, currency: string)
  {
    /** The record's `market` tag: the A-share exchange, or the literal
        `'hk'` / `'us'` the HK and US parsers write. */
    function MarketOf(): Market {
      if AShare? then market else if HKShare? then HK else US
    }
  }

  /** The envelope pulled out of a response body: the market-prefixed code and
      the tilde-delimited payload. */
  datatype RawResponse = RawResponse(key: string, data: string)

  /** A held position. Timestamps are ISO-8601 strings supplied by the caller. */
  datatype Position = Position(
    code: string, name: string, quantity: real, costPrice: real,
    currency: string, market: Market, createdAt: string, updatedAt: string)

  /** A watch-list entry. */
  datatype WatchItem = WatchItem(
    code: string, name: string, reason: string, market: Market, createdAt: string)
}
