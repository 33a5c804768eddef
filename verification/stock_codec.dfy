/** A reference encoder for the quote payload, used to state what the parsers
    of dist/stock.js recover: the fixed field positions each parser reads,
    written the other way round. Encoding a record and parsing it back gives
    the record, and a response that carries the encoded record in its
    envelope makes `FetchStock` return it. */
module StockCodec {
  import opened Wrappers
  import opened Types
  import opened Fields
  import opened Envelope
  import opened Stock

  /** How numbers are written into a payload: decimals, integers, and a text
      that parses to NaN. */
  datatype Formats = Formats(decimal: real -> string, integer: int -> string, nan: string)

  /** A field text that survives splitting and the envelope's quotes. */
  predicate Plain(s: string) {
    Tilde !in s && '"' !in s
  }

  /** `fmt.decimal` writes `x` as a non-empty text that `parseFloat` reads
      back. */
  ghost predicate DecimalReads(fmt: Formats, num: Numerics, x: real) {
    fmt.decimal(x) != "" && num.parseFloat(fmt.decimal(x)) == Some(x)
  }

  /** `fmt.integer` writes `n` as a non-empty text that `parseInt` reads
      back. */
  ghost predicate IntegerReads(fmt: Formats, num: Numerics, n: int) {
    fmt.integer(n) != "" && num.parseInt(fmt.integer(n)) == Some(n)
  }

  /** The NaN text is non-empty and neither parser reads a number from it. */
  ghost predicate NanReads(fmt: Formats, num: Numerics) {
    fmt.nan != "" && num.parseFloat(fmt.nan) == None && num.parseInt(fmt.nan) == None
  }

  /** Every price and volume of an order-book side reads back. */
  ghost predicate SideReads(fmt: Formats, num: Numerics, side: seq<Level>) {
    forall k :: 0 <= k < |side| ==>
      (side[k].price.Some? ==> DecimalReads(fmt, num, side[k].price.value)) &&
      (side[k].volume.Some? ==> IntegerReads(fmt, num, side[k].volume.value))
  }

  /** Every number of the record `q` reads back from the text the formats
      write for it. Only the finitely many numbers of one record are asked
      for, which a real decimal printer and `parseFloat` can meet. */
  ghost predicate ReadsBack(fmt: Formats, num: Numerics, q: StockData) {
    NanReads(fmt, num) && IntegerReads(fmt, num, MarketCode(q.MarketOf())) &&
    DecimalReads(fmt, num, q.currentPrice) && DecimalReads(fmt, num, q.volume) &&
    DecimalReads(fmt, num, q.change) && DecimalReads(fmt, num, q.changePercent) &&
    DecimalReads(fmt, num, q.amount) &&
    if q.AShare? then
      DecimalReads(fmt, num, q.yesterdayClose) && DecimalReads(fmt, num, q.open) &&
      DecimalReads(fmt, num, q.outside) && DecimalReads(fmt, num, q.inside) &&
      DecimalReads(fmt, num, q.high) && DecimalReads(fmt, num, q.low) &&
      DecimalReads(fmt, num, q.turnoverRate) && DecimalReads(fmt, num, q.peTtm) &&
      DecimalReads(fmt, num, q.amplitude) && DecimalReads(fmt, num, q.totalMarketCap) &&
      DecimalReads(fmt, num, q.floatMarketCap) && DecimalReads(fmt, num, q.volumeRatio) &&
      DecimalReads(fmt, num, q.avgPrice) && DecimalReads(fmt, num, q.peDynamic) &&
      DecimalReads(fmt, num, q.peStatic) && DecimalReads(fmt, num, q.floatingShares) &&
      DecimalReads(fmt, num, q.totalShares) &&
      SideReads(fmt, num, q.bidAsk.asks) && SideReads(fmt, num, q.bidAsk.bids)
    else if q.HKShare? then
      DecimalReads(fmt, num, q.yesterdayClose) && DecimalReads(fmt, num, q.open) &&
      DecimalReads(fmt, num, q.high) && DecimalReads(fmt, num, q.low) &&
      DecimalReads(fmt, num, q.pe) && DecimalReads(fmt, num, q.floatingShares) &&
      DecimalReads(fmt, num, q.totalShares)
    else
      DecimalReads(fmt, num, q.marketCap)
  }

  /** Every text the formats write is plain. */
  ghost predicate WritesPlain(fmt: Formats) {
    (forall x :: Plain(fmt.decimal(x))) && (forall n :: Plain(fmt.integer(n))) && Plain(fmt.nan)
  }

  /** The formats write plain texts from which the numbers of `q` read
      back. */
  ghost predicate Inverts(fmt: Formats, num: Numerics, q: StockData) {
    ReadsBack(fmt, num, q) && WritesPlain(fmt)
  }

  /** The records the parsers can produce: plain strings, an A-share exchange
      of SH or SZ, at most five levels a side, and the currency each parser
      can yield. */
  predicate Encodable(q: StockData) {
    Plain(q.name) && Plain(q.code) && Plain(q.currency) &&
    match q
    case AShare(_, _, _, _, _, _, _, _, _, _, _, _, _, _, _, _, _, _, _, _, _, _, _, _, _, _, _, _) =>
      (q.market == SH || q.market == SZ) && Plain(q.datetime) && q.currency != "" &&
      |q.bidAsk.asks| <= 5 && |q.bidAsk.bids| <= 5
    case HKShare(_, _, _, _, _, _, _, _, _, _, _, _, _, _, _, _) =>
      Plain(q.datetime) && q.currency != ""
    case USShare(_, _, _, _, _, _, _, _, _) =>
      q.currency == "USD"
  }

  /** The market code the endpoint writes in field 0. */
  function MarketCode(m: Market): int {
    match m
    case SH => 1
    case SZ => 51
    case HK => 100
    case US => 200
  }

  /** The price or the volume text of the `k`-th level of one side; past the
      last level the pair is left empty. */
  function BookCell(fmt: Formats, side: seq<Level>, k: nat, volume: bool): string {
    if k >= |side| then ""
    else if volume then (match side[k].volume case None => fmt.nan case Some(v) => fmt.integer(v))
    else (match side[k].price case None => fmt.nan case Some(p) => fmt.decimal(p))
  }

  /** Field `i` of an A-share payload. */
  function ACell(fmt: Formats, q: StockData, i: nat): string
    requires q.AShare?
  {
    if i == 0 then fmt.integer(MarketCode(q.market))
    else if i == 1 then q.name
    else if i == 2 then q.code
    else if i == 3 then fmt.decimal(q.currentPrice)
    else if i == 4 then fmt.decimal(q.yesterdayClose)
    else if i == 5 then fmt.decimal(q.open)
    else if i == 6 then fmt.decimal(q.volume)
    else if i == 7 then fmt.decimal(q.outside)
    else if i == 8 then fmt.decimal(q.inside)
    else if 9 <= i < 19 then BookCell(fmt, q.bidAsk.asks, (i - 9) / 2, (i - 9) % 2 == 1)
    else if 19 <= i < 29 then BookCell(fmt, q.bidAsk.bids, (i - 19) / 2, (i - 19) % 2 == 1)
    else if i == 30 then q.datetime
    else if i == 31 then fmt.decimal(q.change)
    else if i == 32 then fmt.decimal(q.changePercent)
    else if i == 33 then fmt.decimal(q.high)
    else if i == 34 then fmt.decimal(q.low)
    else if i == 37 then fmt.decimal(q.amount)
    else if i == 38 then fmt.decimal(q.turnoverRate)
    else if i == 39 then fmt.decimal(q.peTtm)
    else if i == 43 then fmt.decimal(q.amplitude)
    else if i == 44 then fmt.decimal(q.totalMarketCap)
    else if i == 45 then fmt.decimal(q.floatMarketCap)
    else if i == 49 then fmt.decimal(q.volumeRatio)
    else if i == 51 then fmt.decimal(q.avgPrice)
    else if i == 52 then fmt.decimal(q.peDynamic)
    else if i == 53 then fmt.decimal(q.peStatic)
    else if i == 72 then fmt.decimal(q.floatingShares)
    else if i == 73 then fmt.decimal(q.totalShares)
    else if i == 82 then q.currency
    else ""
  }

  /** Field `i` of an HK payload. */
  function HKCell(fmt: Formats, q: StockData, i: nat): string
    requires q.HKShare?
  {
    if i == 0 then fmt.integer(MarketCode(HK))
    else if i == 1 then q.name
    else if i == 2 then q.code
    else if i == 3 then fmt.decimal(q.currentPrice)
    else if i == 4 then fmt.decimal(q.yesterdayClose)
    else if i == 5 then fmt.decimal(q.open)
    else if i == 6 then fmt.decimal(q.volume)
    else if i == 30 then q.datetime
    else if i == 31 then fmt.decimal(q.change)
    else if i == 32 then fmt.decimal(q.changePercent)
    else if i == 33 then fmt.decimal(q.high)
    else if i == 34 then fmt.decimal(q.low)
    else if i == 37 then fmt.decimal(q.amount)
    else if i == 39 then fmt.decimal(q.pe)
    else if i == 69 then fmt.decimal(q.floatingShares)
    else if i == 70 then fmt.decimal(q.totalShares)
    else if i == 75 then q.currency
    else ""
  }

  /** Field `i` of a US payload. */
  function USCell(fmt: Formats, q: StockData, i: nat): string
    requires q.USShare?
  {
    if i == 0 then fmt.integer(MarketCode(US))
    else if i == 1 then q.name
    else if i == 2 then q.code
    else if i == 3 then fmt.decimal(q.currentPrice)
    else if i == 4 then fmt.decimal(q.change)
    else if i == 5 then fmt.decimal(q.changePercent)
    else if i == 6 then fmt.decimal(q.volume)
    else if i == 7 then fmt.decimal(q.amount)
    else if i == 8 then fmt.decimal(q.marketCap)
    else ""
  }

  /** The number of fields each payload carries: one past the highest index
      its parser reads, and never fewer than ten. */
  function FieldCount(q: StockData): nat {
    if q.AShare? then 83 else if q.HKShare? then 76 else 10
  }

  /** Field `i` of the payload of a record. */
  function Cell(fmt: Formats, q: StockData, i: nat): string {
    if q.AShare? then ACell(fmt, q, i) else if q.HKShare? then HKCell(fmt, q, i) else USCell(fmt, q, i)
  }

  /** The payload fields of a record. */
  function EncodeFields(fmt: Formats, q: StockData): (fields: seq<string>)
    ensures |fields| == FieldCount(q)
  {
    seq(FieldCount(q), i requires 0 <= i < FieldCount(q) => Cell(fmt, q, i))
  }

  /** The field at `i` is the cell at `i`. */
  lemma FieldAt(fmt: Formats, q: StockData, i: nat)
    requires i < FieldCount(q)
    ensures GetField(EncodeFields(fmt, q), i) == Cell(fmt, q, i)
  {
  }

  /** The tilde-delimited payload of a record. */
  function Encode(fmt: Formats, q: StockData): string {
    Join(EncodeFields(fmt, q), Tilde)
  }

  // ---------------------------------------------------------------------------
  // Proofs

  /** A cell of a level pair is empty exactly past the last level, and its
      text reads back as the level's price or volume. */
  lemma BookCellReads(fmt: Formats, num: Numerics, side: seq<Level>, k: nat)
    requires NanReads(fmt, num) && SideReads(fmt, num, side)
    ensures k < |side| <==> BookCell(fmt, side, k, false) != ""
    ensures k < |side| <==> BookCell(fmt, side, k, true) != ""
    ensures k < |side| ==> num.parseFloat(BookCell(fmt, side, k, false)) == side[k].price
    ensures k < |side| ==> num.parseInt(BookCell(fmt, side, k, true)) == side[k].volume
  {
  }

  /** The order-book loop reads back a side packed from its first pair. */
  lemma {:induction false} LevelsPacked(fmt: Formats, num: Numerics, fields: seq<string>, first: nat, n: nat, side: seq<Level>)
    requires NanReads(fmt, num) && SideReads(fmt, num, side)
    requires forall k :: 0 <= k < n ==>
      GetField(fields, first + 2 * k) == BookCell(fmt, side, k, false) &&
      GetField(fields, first + 2 * k + 1) == BookCell(fmt, side, k, true)
    ensures Levels(num, fields, first, n) == if n <= |side| then side[..n] else side
  {
    if n > 0 {
      var k := n - 1;
      var i := first + 2 * k;
      LevelsPacked(fmt, num, fields, first, k, side);
      LevelsNext(num, fields, first, k, i);
      var prev := Levels(num, fields, first, k);
      assert GetField(fields, i) == BookCell(fmt, side, k, false);
      assert GetField(fields, i + 1) == BookCell(fmt, side, k, true);
      BookCellReads(fmt, num, side, k);
      if k < |side| {
        assert PairPresent(fields, i);
        assert LevelAt(num, fields, i) == side[k];
        assert prev == side[..k];
        assert side[..k] + [side[k]] == side[..n];
      } else {
        assert !PairPresent(fields, i);
        assert prev == side;
      }
    }
  }

  /** The encoded fields contain neither the separator nor a quote. */
  lemma FieldsPlain(fmt: Formats, q: StockData)
    requires WritesPlain(fmt) && Encodable(q)
    ensures forall i :: 0 <= i < |EncodeFields(fmt, q)| ==> Plain(EncodeFields(fmt, q)[i])
  {
    var fields := EncodeFields(fmt, q);
    forall i | 0 <= i < |fields| ensures Plain(fields[i]) {
      if q.AShare? {
        assert fields[i] == ACell(fmt, q, i);
      }
    }
  }

  /** Splitting the payload gives back the encoded fields. */
  lemma SplitEncode(fmt: Formats, q: StockData)
    requires WritesPlain(fmt) && Encodable(q)
    ensures Split(Encode(fmt, q), Tilde) == EncodeFields(fmt, q)
  {
    FieldsPlain(fmt, q);
    SplitJoin(EncodeFields(fmt, q), Tilde);
  }

  /** The cells of the `k`-th ask and bid pairs of an A-share payload. */
  lemma BookFields(fmt: Formats, q: StockData, k: nat)
    requires q.AShare? && k < 5
    ensures GetField(EncodeFields(fmt, q), 9 + 2 * k) == BookCell(fmt, q.bidAsk.asks, k, false)
    ensures GetField(EncodeFields(fmt, q), 9 + 2 * k + 1) == BookCell(fmt, q.bidAsk.asks, k, true)
    ensures GetField(EncodeFields(fmt, q), 19 + 2 * k) == BookCell(fmt, q.bidAsk.bids, k, false)
    ensures GetField(EncodeFields(fmt, q), 19 + 2 * k + 1) == BookCell(fmt, q.bidAsk.bids, k, true)
  {
    assert (2 * k) / 2 == k && (2 * k) % 2 == 0;
    assert (2 * k + 1) / 2 == k && (2 * k + 1) % 2 == 1;
    FieldAt(fmt, q, 9 + 2 * k);
    FieldAt(fmt, q, 10 + 2 * k);
    FieldAt(fmt, q, 19 + 2 * k);
    FieldAt(fmt, q, 20 + 2 * k);
  }

  /** The A-share parser reads back the order book. */
  lemma AShareBook(fmt: Formats, num: Numerics, q: StockData)
    requires ReadsBack(fmt, num, q) && Encodable(q) && q.AShare?
    ensures var fields := EncodeFields(fmt, q);
      OrderBook(Levels(num, fields, 9, 5), Levels(num, fields, 19, 5)) == q.bidAsk
  {
    var fields := EncodeFields(fmt, q);
    forall k | 0 <= k < 5
      ensures GetField(fields, 9 + 2 * k) == BookCell(fmt, q.bidAsk.asks, k, false)
      ensures GetField(fields, 9 + 2 * k + 1) == BookCell(fmt, q.bidAsk.asks, k, true)
      ensures GetField(fields, 19 + 2 * k) == BookCell(fmt, q.bidAsk.bids, k, false)
      ensures GetField(fields, 19 + 2 * k + 1) == BookCell(fmt, q.bidAsk.bids, k, true)
    {
      BookFields(fmt, q, k);
    }
    LevelsPacked(fmt, num, fields, 9, 5, q.bidAsk.asks);
    LevelsPacked(fmt, num, fields, 19, 5, q.bidAsk.bids);
  }

  /** A number written by `fmt.decimal` into cell `idx` reads back through
      `parseNum`, zero included. */
  lemma NumberReads(fmt: Formats, num: Numerics, q: StockData, idx: nat, x: real)
    requires DecimalReads(fmt, num, x)
    requires idx < FieldCount(q) && Cell(fmt, q, idx) == fmt.decimal(x)
    ensures ParseNum(num, EncodeFields(fmt, q), idx, 0.0) == x
  {
    FieldAt(fmt, q, idx);
  }

  /** `parseAStock` inverts the A-share encoding. */
  lemma AShareRoundTrip(fmt: Formats, num: Numerics, q: StockData)
    requires ReadsBack(fmt, num, q) && Encodable(q) && q.AShare?
    ensures ParseAStock(EncodeFields(fmt, q), q.market, num) == q
  {
    AShareBook(fmt, num, q);
    FieldAt(fmt, q, 1);
    FieldAt(fmt, q, 2);
    FieldAt(fmt, q, 30);
    FieldAt(fmt, q, 82);
    NumberReads(fmt, num, q, 3, q.currentPrice);
    NumberReads(fmt, num, q, 4, q.yesterdayClose);
    NumberReads(fmt, num, q, 5, q.open);
    NumberReads(fmt, num, q, 6, q.volume);
    NumberReads(fmt, num, q, 7, q.outside);
    NumberReads(fmt, num, q, 8, q.inside);
    NumberReads(fmt, num, q, 31, q.change);
    NumberReads(fmt, num, q, 32, q.changePercent);
    NumberReads(fmt, num, q, 33, q.high);
    NumberReads(fmt, num, q, 34, q.low);
    NumberReads(fmt, num, q, 37, q.amount);
    NumberReads(fmt, num, q, 38, q.turnoverRate);
    NumberReads(fmt, num, q, 39, q.peTtm);
    NumberReads(fmt, num, q, 43, q.amplitude);
    NumberReads(fmt, num, q, 44, q.totalMarketCap);
    NumberReads(fmt, num, q, 45, q.floatMarketCap);
    NumberReads(fmt, num, q, 49, q.volumeRatio);
    NumberReads(fmt, num, q, 51, q.avgPrice);
    NumberReads(fmt, num, q, 52, q.peDynamic);
    NumberReads(fmt, num, q, 53, q.peStatic);
    NumberReads(fmt, num, q, 72, q.floatingShares);
    NumberReads(fmt, num, q, 73, q.totalShares);
  }

  /** `parseHKStock` reads the session figures of an HK record back. */
  lemma HKPrices(fmt: Formats, num: Numerics, q: StockData)
    requires ReadsBack(fmt, num, q) && q.HKShare?
    ensures var r := ParseHKStock(EncodeFields(fmt, q), num);
      r.currentPrice == q.currentPrice && r.yesterdayClose == q.yesterdayClose &&
      r.open == q.open && r.volume == q.volume && r.change == q.change &&
      r.changePercent == q.changePercent
  {
    NumberReads(fmt, num, q, 3, q.currentPrice);
    NumberReads(fmt, num, q, 4, q.yesterdayClose);
    NumberReads(fmt, num, q, 5, q.open);
    NumberReads(fmt, num, q, 6, q.volume);
    NumberReads(fmt, num, q, 31, q.change);
    NumberReads(fmt, num, q, 32, q.changePercent);
  }

  /** `parseHKStock` reads the range, turnover and share figures of an HK
      record back. */
  lemma HKFigures(fmt: Formats, num: Numerics, q: StockData)
    requires ReadsBack(fmt, num, q) && q.HKShare?
    ensures var r := ParseHKStock(EncodeFields(fmt, q), num);
      r.high == q.high && r.low == q.low && r.amount == q.amount && r.pe == q.pe &&
      r.floatingShares == q.floatingShares && r.totalShares == q.totalShares
  {
    NumberReads(fmt, num, q, 33, q.high);
    NumberReads(fmt, num, q, 34, q.low);
    NumberReads(fmt, num, q, 37, q.amount);
    NumberReads(fmt, num, q, 39, q.pe);
    NumberReads(fmt, num, q, 69, q.floatingShares);
    NumberReads(fmt, num, q, 70, q.totalShares);
  }

  /** `parseHKStock` inverts the HK encoding. */
  lemma HKRoundTrip(fmt: Formats, num: Numerics, q: StockData)
    requires ReadsBack(fmt, num, q) && Encodable(q) && q.HKShare?
    ensures ParseHKStock(EncodeFields(fmt, q), num) == q
  {
    FieldAt(fmt, q, 1);
    FieldAt(fmt, q, 2);
    FieldAt(fmt, q, 30);
    FieldAt(fmt, q, 75);
    HKPrices(fmt, num, q);
    HKFigures(fmt, num, q);
  }

  /** `parseUSStock` inverts the US encoding. */
  lemma USRoundTrip(fmt: Formats, num: Numerics, q: StockData)
    requires ReadsBack(fmt, num, q) && Encodable(q) && q.USShare?
    ensures ParseUSStock(EncodeFields(fmt, q), num) == q
  {
    FieldAt(fmt, q, 1);
    FieldAt(fmt, q, 2);
    NumberReads(fmt, num, q, 3, q.currentPrice);
    NumberReads(fmt, num, q, 4, q.change);
    NumberReads(fmt, num, q, 5, q.changePercent);
    NumberReads(fmt, num, q, 6, q.volume);
    NumberReads(fmt, num, q, 7, q.amount);
    NumberReads(fmt, num, q, 8, q.marketCap);
  }

  /** `parseStockData` inverts the encoding when asked with the record's own
      market: the classifier picks the record's parser and that parser reads
      every field back. */
  lemma ParseStockDataRoundTrip(fmt: Formats, num: Numerics, q: StockData, key: string)
    requires Inverts(fmt, num, q) && Encodable(q)
    ensures ParseStockData(RawResponse(key, Encode(fmt, q)), q.MarketOf(), num) == Success(q)
  {
    SplitEncode(fmt, q);
    var f := EncodeFields(fmt, q);
    var code := num.parseInt(f[0]);
    if q.AShare? {
      assert Route(q.market, code) == AShareFamily;
      AShareRoundTrip(fmt, num, q);
    } else if q.HKShare? {
      FieldAt(fmt, q, 0);
      assert Route(HK, code) == HKFamily;
      HKRoundTrip(fmt, num, q);
    } else {
      FieldAt(fmt, q, 0);
      assert Route(US, code) == USFamily;
      USRoundTrip(fmt, num, q);
    }
  }

  /** The payload can sit between the envelope's quotes. */
  lemma EncodeIsPayload(fmt: Formats, q: StockData)
    requires WritesPlain(fmt) && Encodable(q)
    ensures IsPayload(Encode(fmt, q))
  {
    var f := EncodeFields(fmt, q);
    FieldsPlain(fmt, q);
    JoinAvoids(f, Tilde, '"');
    assert Join(f, Tilde) == f[0] + [Tilde] + Join(f[1..], Tilde);
  }

  /** A response whose body starts with the envelope of the encoded record
      makes `fetchStock` return the record. */
  lemma FetchStockRoundTrip(fmt: Formats, num: Numerics, q: StockData, code: string,
                            server: string -> Response, rest: string)
    requires Inverts(fmt, num, q) && Encodable(q) && IsCode(code)
    requires server(Url(q.MarketOf(), code)).ok
    requires server(Url(q.MarketOf(), code)).body ==
      Envelope.Envelope(Prefix(q.MarketOf()), code, Encode(fmt, q)) + rest
    ensures FetchStock(code, q.MarketOf(), server, num) == Success(q)
  {
    var m := q.MarketOf();
    EncodeIsPayload(fmt, q);
    ParseEnvelope(Prefix(m), code, Encode(fmt, q), rest);
    ParseStockDataRoundTrip(fmt, num, q, Prefix(m) + code);
  }

  // ---------------------------------------------------------------------------
  // A concrete instance

  /** Formats for a quote whose figures are all 0 or 1.5, market code 200. */
  function ExampleFormats(): Formats {
    Formats(x => if x == 0.0 then "0" else "1.5", n => if n == 200 then "200" else "0", "N")
  }

  /** Number parsers that read those texts back. */
  function ExampleNumerics(): Numerics {
    Numerics(t => if t == "0" then Some(0.0) else if t == "1.5" then Some(1.5) else None,
             t => if t == "200" then Some(200) else if t == "0" then Some(0) else None)
  }

  /** A US quote for AAPL at 1.5, every other figure 0. */
  function ExampleQuote(): StockData {
    USShare("Apple", "AAPL", 1.5, 0.0, 0.0, 0.0, 0.0, 0.0, "USD")
  }

  /** The example meets the premises of the round trip. */
  lemma ExampleInverts()
    ensures Inverts(ExampleFormats(), ExampleNumerics(), ExampleQuote())
    ensures Encodable(ExampleQuote())
  {
    var fmt, num, q := ExampleFormats(), ExampleNumerics(), ExampleQuote();
    assert ReadsBack(fmt, num, q);
    forall x ensures Plain(fmt.decimal(x)) {
      assert fmt.decimal(x) == "0" || fmt.decimal(x) == "1.5";
    }
    forall n ensures Plain(fmt.integer(n)) {
      assert fmt.integer(n) == "0" || fmt.integer(n) == "200";
    }
  }

  /** With the example formats and parsers, a server that answers the AAPL
      request with the quote's envelope makes `fetchStock` return the quote. */
  lemma ExampleFetch(rest: string)
    ensures var body := Envelope.Envelope("s_us", "AAPL", Encode(ExampleFormats(), ExampleQuote())) + rest;
      FetchStock("AAPL", US, (url: string) => Response(true, "OK", body), ExampleNumerics()) ==
        Success(ExampleQuote())
  {
    var fmt, num, q := ExampleFormats(), ExampleNumerics(), ExampleQuote();
    ExampleInverts();
    assert IsCode("AAPL") by {
      forall j | 0 <= j < 4 ensures IsCodeChar("AAPL"[j]) { }
    }
    var body := Envelope.Envelope("s_us", "AAPL", Encode(fmt, q)) + rest;
    var server := (url: string) => Response(true, "OK", body);
    assert q.MarketOf() == US && Prefix(US) == "s_us";
    assert server(Url(US, "AAPL")) == Response(true, "OK", body);
    FetchStockRoundTrip(fmt, num, q, "AAPL", server, rest);
  }
}
