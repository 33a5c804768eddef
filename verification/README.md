# Stock quotes, positions and watch list — a Dafny model

This project models the three components of a small stock-tracking service.

- **Quote fetcher** (`dist/stock.js`). It builds a lookup key from a market and a code (`sh`, `sz`, `r_hk`, `s_us`), asks the quote endpoint, and takes the first `v_<prefix><code>="<payload>"` assignment out of the response. It splits the payload on `~`, keeping empty fields, and rejects payloads of fewer than ten fields. It then picks one of three parsers from the market hint and the market code in field 0. The parsers are A-share, Hong Kong and US; each copies fixed field positions into a record, and the A-share parser also collects a five-level order book per side. A batch fetch keeps the successful fetches in input order and skips the failures.
- **Position store** (`src/position.ts`). A list of held positions keyed by code and market, where duplicates are allowed. It has append, first-match update (which refreshes `updatedAt`), first-match remove and first-match lookup.
- **Watch list** (`src/watch.ts`). It has the same operations as the position store, but refuses to add a key it already holds, stamps only `createdAt` when it adds, and never refreshes a timestamp on update.

Modules:
- `Types` holds the records.
- `Lists` holds the array primitives (`findIndex`, `find`, `some`, `splice`, the success filter of the batch fetch).
- `Fields` holds `split`/`join`, `getField` and `parseNum`.
- `Envelope` holds the response matcher.
- `Stock` holds the request key, order book, parsers, classifier and fetches.
- `StockCodec` is a reference encoder. It writes a record into the payload positions the parsers read, so that every parser can be stated as its inverse. Its premises ask only that the numbers of the one record being encoded read back through `parseFloat`/`parseInt`, and `StockCodec.ExampleInverts` exhibits formats and parsers that meet them.
- `Positions` and `Watch` hold the two stores.

`parseFloat` and `parseInt` are left uninterpreted: they are the two fields of a `Numerics` value, and NaN is `None`. The HTTP call is a parameter `server` mapping the request URL to a `Response`. The clock is a `now` parameter. Each store's JSON file is the `seq` field of its class.

The matcher follows the regular expression `v_(sh|sz|r_hk|s_us)([a-zA-Z0-9._]+)="([^"]+)"` as a leftmost search. At each position there is at most one match. The prefix alternatives differ in their first two characters. The code run is followed by `=` and the payload run by `"`, so a shorter run never matches. `ParseRawResponseFound` and `ParseRawResponseNull` state that the search returns exactly the leftmost well-formed envelope, or null when there is none.

The classifier (`dist/stock.js:44-55`) tests the embedded market code in the same condition as the hint, and the first condition that holds wins. A reader might expect the requested market to decide the parser and the embedded code to serve only as a fallback, but that is not what the code does:
- an embedded code of 1 or 51 sends an HK or US request to the A-share parser, which tags the record `SH`;
- an embedded code of 100 sends a US request to the HK parser.

`Stock.Route` states this per hint and `Stock.HintOverridden` states the resulting records. Because every `Market` is a hint, the "Unknown market type" branch is dead (`Stock.RouteKnown`).

The functions `Envelope.MatchAt`, `Envelope.Search` and `Envelope.ParseRawResponse` (the response pattern), `Stock.Key` and `Stock.Url` (the request), `Stock.Message` (the four error texts of `dist/stock.js:17, 22, 42, 55`) and `Lists.Any` (`some`) are definitions without contracts of their own; they are specified through the lemmas listed below.

## Model

| member | source | states |
|---|---|---|
| Stock.Prefix | dist/stock.js:3-10 | the prefix of each market is one of the four alternatives of the response pattern, at least two characters long |
| Stock.KeyInjective | dist/stock.js:3-14 | two requests with the same lookup key `prefix + code` have the same market and the same code |
| Envelope.RunEnd | dist/stock.js:29 | the end of a greedy character-class run lies between its start and the end of the text |
| Envelope.RunEndSpec | dist/stock.js:29 | every character of a run is in its class and the character after it is not |
| Envelope.PrefixUnique | dist/stock.js:29 | at one position at most one prefix alternative matches |
| Envelope.MatchAtSound | dist/stock.js:29-35 | whatever the matcher returns at a position is a well-formed envelope starting there, with key = prefix + code and data = the quoted payload |
| Envelope.MatchAtComplete | dist/stock.js:29-35 | a well-formed envelope starting at a position is exactly what the matcher returns there |
| Envelope.MatchAtNone | dist/stock.js:29-31 | the matcher fails at a position exactly when no well-formed envelope starts there |
| Envelope.SearchFound | dist/stock.js:29 | a found match is the match at some position, and the matcher failed at every earlier position |
| Envelope.SearchMissed | dist/stock.js:29-31 | the search finds nothing exactly when the matcher fails at every position |
| Envelope.ParseRawResponseFound | dist/stock.js:27-36 | a result of `parseRawResponse` is the leftmost well-formed envelope of the text, with its key and payload |
| Envelope.ParseRawResponseNull | dist/stock.js:27-31 | `parseRawResponse` returns null exactly when no well-formed envelope occurs anywhere in the text |
| Envelope.ParseEnvelope | dist/stock.js:27-36 | a body that starts with `v_<prefix><code>="<data>"` yields key `prefix + code` and exactly `data`, whatever follows |
| Envelope.EmptyPayloadIsNull | dist/stock.js:29-31 | an empty quoted payload is no match: such a body with no further `=` gives null |
| Fields.Split | dist/stock.js:40 | splitting yields at least one field and no field contains the separator |
| Fields.SplitCount | dist/stock.js:40-41 | the field count is the number of `~` plus one, so empty fields keep their positions |
| Fields.JoinSplit | dist/stock.js:40 | joining the fields with `~` gives the payload back |
| Fields.SplitAtom | dist/stock.js:40 | a text without the separator is a single field |
| Fields.SplitCons | dist/stock.js:40 | a separator-free field followed by `~` splits off as the first field |
| Fields.SplitJoin | dist/stock.js:40 | splitting the join of separator-free fields gives the same fields back |
| Fields.GetField | dist/stock.js:59 | `getField` is the field at the index, and `''` past the end of the field list; it never fails |
| Fields.ParseNum | dist/stock.js:60-63 | `parseNum` is the parsed value when the field is non-empty and parses to a number other than NaN or 0, and the default otherwise |
| Stock.Levels | dist/stock.js:94-113 | the levels of the first `n` pairs number at most `n` |
| Stock.LevelsCount | dist/stock.js:97-113 | one level per present pair, none for an absent pair, whether or not the strings parse |
| Stock.LevelsSlot | dist/stock.js:97-113 | a present pair's level is in the list, at the index given by the number of present pairs before it |
| Stock.LevelsInFieldOrder | dist/stock.js:97-113 | of two present pairs the earlier one's level comes first: field order, not sorted |
| Stock.PushLevels | dist/stock.js:97-104 | the stepped loop from field `first` to `first + 9` pushes exactly the levels of the five pairs there |
| Stock.BuildOrderBook | dist/stock.js:94-114 | asks come from pairs (9,10)…(17,18) and bids from pairs (19,20)…(27,28) |
| Stock.ParseAStock | dist/stock.js:58-116 | an A-share record with the requested exchange, `bidAsk` always set to the two loops' levels, at most five levels a side, name, code and datetime copied from fields 1, 2 and 30, currency field 82 or else "CNY"; the numeric fields' positions are stated by `StockCodec.AShareRoundTrip` |
| Stock.ParseHKStock | dist/stock.js:118-143 | an HK record with name, code and datetime copied from fields 1, 2 and 30, currency field 75 or else "HKD"; the numeric fields' positions are stated by `StockCodec.HKRoundTrip` |
| Stock.ParseUSStock | dist/stock.js:145-163 | a US record with name and code copied from fields 1 and 2, currency "USD" whatever the payload holds; the numeric fields' positions are stated by `StockCodec.USRoundTrip` |
| Stock.Route | dist/stock.js:44-55 | first-match routing per hint: SH/SZ go to the A-share parser; HK goes to the HK parser unless the code is 1 or 51; US goes to the US parser unless the code is 1, 51 or 100 |
| Stock.RouteKnown | dist/stock.js:46-55 | no market hint reaches the unknown-market error |
| Stock.ParseStockData | dist/stock.js:38-56 | fewer than ten fields fail with "too few fields" before any parser runs; otherwise the result is the record of the parser `Route` picks, applied to the same fields, with the exchange SZ for an SZ hint and SH otherwise; an A-share record is tagged SZ exactly when the hint is SZ; no other failure |
| Stock.FetchStock | dist/stock.js:12-25 | fails with `RequestFailed(statusText)` exactly when the response is not ok; when an envelope matches, the result is `parseStockData` of it with the requested market; with the lookup key exactly when no envelope matches; with "too few fields" exactly when the payload is short; never with an unknown market |
| Stock.HintOverridden | dist/stock.js:46-50 | with an embedded code of 1 or 51 an HK or US request returns the A-share record tagged SH; with code 100 a US request returns the HK record |
| Stock.FetchStockNoData | dist/stock.js:19-23 | an ok response with no well-formed envelope anywhere fails with the message "No data returned for " + prefix + code |
| Stock.Outcomes | dist/stock.js:165-177 | one outcome per query |
| Stock.OutcomesAt | dist/stock.js:167-169 | the outcome at each position is the fetch of the query at that position |
| Stock.OutcomesStep | dist/stock.js:167-174 | handling one more query appends its record when it succeeds and nothing when it fails |
| Stock.FetchStocks | dist/stock.js:165-177 | the result is the successes among the per-query outcomes, in input order, and is no longer than the input |
| Lists.Successes | dist/stock.js:165-177 | keeping the successes never lengthens the list |
| Lists.SuccessesAppend | dist/stock.js:167-175 | the successes of a concatenation are the successes of each part, in order |
| Lists.FailureSkipped | dist/stock.js:172-174 | a failure in the middle does not stop the items after it |
| Lists.SuccessPosition | dist/stock.js:169-170 | each success appears in the result, after the successes of the earlier queries |
| Lists.SuccessOrigin | dist/stock.js:169-170 | every result is the success of some query |
| StockCodec.BookCellReads | dist/stock.js:98-102 | when the side's numbers read back, an encoded pair cell is empty exactly past the last level and reads back as the level's price or volume |
| StockCodec.LevelsPacked | dist/stock.js:97-104 | the order-book loop reads back a side written into consecutive pairs |
| StockCodec.BookFields | dist/stock.js:96-106 | the `k`-th ask pair of an A-share payload sits at fields 9+2k and 10+2k, the bid pair at 19+2k and 20+2k |
| StockCodec.AShareBook | dist/stock.js:94-114 | the A-share parser reads back the order book |
| StockCodec.NumberReads | dist/stock.js:60-63 | a number written at a field reads back through `parseNum`, zero included |
| StockCodec.FieldsPlain | dist/stock.js:40 | no encoded field contains `~` or `"` |
| StockCodec.SplitEncode | dist/stock.js:40 | splitting an encoded payload gives back its fields at their positions |
| StockCodec.AShareRoundTrip | dist/stock.js:58-116 | for any A-share record whose numbers read back, `parseAStock` returns every field, each from the field index its parser reads |
| StockCodec.HKPrices | dist/stock.js:128-134 | `parseHKStock` reads fields 3-6, 31 and 32 back |
| StockCodec.HKFigures | dist/stock.js:135-140 | `parseHKStock` reads fields 33, 34, 37, 39, 69 and 70 back |
| StockCodec.HKRoundTrip | dist/stock.js:118-143 | for any HK record whose numbers read back, `parseHKStock` returns every field, each from the field index its parser reads |
| StockCodec.USRoundTrip | dist/stock.js:145-163 | for any US record whose numbers read back, `parseUSStock` returns every field, each from the field index its parser reads |
| StockCodec.ParseStockDataRoundTrip | dist/stock.js:38-56 | asked with the record's own market, `parseStockData` returns the record |
| StockCodec.EncodeIsPayload | dist/stock.js:29 | an encoded payload is non-empty and free of `"`, so it fits between the envelope's quotes |
| StockCodec.ExampleInverts | dist/stock.js:145-163 | a concrete US quote, with concrete formats and parsers, meets the round trip's premises |
| StockCodec.ExampleFetch | dist/stock.js:12-36 | for that quote, a server answering the AAPL request with its envelope makes `fetchStock` return the quote |
| StockCodec.FetchStockRoundTrip | dist/stock.js:12-36 | a response whose body starts with the envelope of an encoded record makes `fetchStock` return the record |
| Lists.FindIndex | src/position.ts:61 | the index of the first match, or none when nothing matches |
| Lists.FindIndexIsFirst | src/position.ts:61 | a match with no earlier match is the index `findIndex` returns |
| Lists.FindIndexAppend | src/position.ts:61 | in a concatenation the first part's first match wins, otherwise the second part's shifted by the first part's length |
| Lists.Find | src/position.ts:99 | null exactly when nothing matches; otherwise an element that matches with no match before it |
| Lists.RemoveAt | src/position.ts:86 | `splice(i, 1)`: one element shorter, the elements before `i` in place and the ones after shifted down by one |
| Lists.AnyIffFound | src/watch.ts:35 | `some` holds exactly when `findIndex` finds a match |
| Lists.FindSnoc | src/position.ts:48 | after a push, the first match is the old first match if there was one, else the new element if it matches |
| Lists.FindAfterUpdate | src/position.ts:67-74 | overwriting the first match with a matching element makes it the first match |
| Lists.FindAfterRemove | src/position.ts:86 | after removing the first match, the first match is the first one that came after it |
| Positions.Patch | src/position.ts:67-71 | given quantity and cost price overwrite, absent ones keep; `updatedAt` is `now`; code, name, currency, market and `createdAt` are kept |
| Positions.PositionStore.constructor | src/position.ts:17 | a store starts empty, as the source does when the file is missing |
| Positions.PositionStore.AddPosition | src/position.ts:26-52 | appends exactly one record with the given fields and `createdAt = updatedAt = now` and returns it; earlier records are unchanged and a duplicate key is accepted |
| Positions.PositionStore.UpdatePosition | src/position.ts:55-75 | on a miss returns null and changes nothing; otherwise replaces only the first matching record with its patch and returns it |
| Positions.PositionStore.RemovePosition | src/position.ts:78-89 | returns true exactly when a record matches; then only the first match is removed and the rest keep their order; on a miss nothing changes |
| Positions.PositionStore.GetAllPositions | src/position.ts:92-94 | the stored list as it is |
| Positions.PositionStore.GetPosition | src/position.ts:97-100 | null exactly when no record matches both code and market; otherwise a matching record with no match before it |
| Positions.PositionStore.GetPositionsWithMarket | src/position.ts:110-113 | every stored position in order, with no live-quote field filled in |
| Positions.AddThenGet | src/position.ts:34-51 | after an add, a lookup of the key finds the older record when the key was held, else the new one |
| Positions.UpdateThenGet | src/position.ts:61-74 | after an update hits, a lookup of the key finds the patched record |
| Positions.RemoveThenGet | src/position.ts:80-88 | after a remove hits, a lookup of the key finds the next record with that key, if any |
| Watch.Patch | src/watch.ts:67-70 | given name and reason overwrite, absent ones keep; code, market and `createdAt` are kept |
| Watch.WatchList.constructor | src/watch.ts:17 | a list starts empty, with distinct keys |
| Watch.WatchList.AddWatch | src/watch.ts:26-52 | a held key fails with "Stock already in watch list" and changes nothing; otherwise appends exactly one item stamped `now` and returns it; distinct keys stay distinct |
| Watch.WatchList.UpdateWatch | src/watch.ts:55-74 | on a miss returns null and changes nothing; otherwise replaces only the first matching item with its patch; distinct keys stay distinct |
| Watch.WatchList.RemoveWatch | src/watch.ts:77-88 | returns true exactly when an item matches; then only the first match is removed, the rest in order; distinct keys stay distinct |
| Watch.WatchList.GetAllWatch | src/watch.ts:91-93 | the stored list as it is |
| Watch.WatchList.GetWatch | src/watch.ts:96-99 | null exactly when no item matches both code and market; otherwise a matching item with no match before it |
| Watch.AddKeepsUnique | src/watch.ts:35-48 | pushing an item whose key is not held keeps the keys distinct |
| Watch.UpdateKeepsUnique | src/watch.ts:67-70 | patching an item keeps its key, so the keys stay distinct |
| Watch.RemoveKeepsUnique | src/watch.ts:85 | removing an item keeps the other keys distinct |
| Watch.AddThenGet | src/watch.ts:40-51 | after a successful add, a lookup of the key finds the new item |
| Watch.UpdateThenGet | src/watch.ts:61-73 | after an update hits, a lookup of the key finds the patched item |
| Watch.RemoveThenGet | src/watch.ts:79-87 | on a list with distinct keys, after a remove hits, the key is gone |

## Left out

- The HTTP request, `response.ok`, `statusText` and `response.text()` are modelled by a `server` parameter mapping the URL to a response. The model assumes the same URL always gets the same response, so repeated fetches and network failures in between are not modelled.
- `parseFloat` and `parseInt` are uninterpreted: decimal-to-floating-point conversion and JavaScript's prefix scanning are not modelled. Numbers are `real`, with NaN as `None`.
- The regular expression is modelled for its own pattern only, not as a general regex engine.
- The two order-book loops of `parseAStock` are one method, `Stock.PushLevels`, called from fields 9 and 19. The model keeps the loop's steps and bounds, but not the two array variables being pushed in place.
- Loading and saving the JSON files, `JSON.parse`/`JSON.stringify`, and the fallback to an empty list when loading fails (src/position.ts:8-23, src/watch.ts:8-23) are not modelled. Each store's list is a field of its class, and the constructor gives the empty list.
- The clock (`new Date().toISOString()`) is the `now` parameter.
- `console.error` logging in `fetchStocks` and in the loaders is not modelled.
- Update arguments follow their `Partial` type: a field given as `Some` overwrites and a field given as `None` keeps. A caller that passes a key whose value is `undefined` would, through the object spread, blank that field; that effect is not modelled.
- The MCP server, its tool schemas and its error wrapping in src/index.ts are not part of this model.
- The compiled copies dist/position.js and dist/watch.js are not modelled separately: they are modelled once, through src/position.ts and src/watch.ts.
- dist/*.d.ts and src/types.ts are declarations only; they are the datatypes in `Types`.
- Stock.Message: JavaScript's number printing for the unknown-market code is written out only for integers. The branch that would print it is dead.
- StockCodec.AShareRoundTrip, HKRoundTrip, USRoundTrip: the premise that a record's numbers read back is shown satisfiable only for the example quote of `StockCodec.ExampleInverts`. That such formats exist for every record (a decimal printer that `parseFloat` inverts on finitely many values) is not proved.
