# MOEX ISS client: history pagination and quote snapshot, modelled in Dafny

This project models the core of `MoexClient`, a small client for the public
ISS REST API of the Moscow Exchange:

- **Client** — the client value. The constructor upper-cases the ticker and
  keeps the engine, market and board (defaults `stock`, `shares`, `TQBR`).
- **Resolver** — the first step of `get_history`. The interval is checked
  against the table `1m → 1`, `10m → 10`, `1h → 60`, `1d → 1440` (minutes).
  - `1d` selects the board-keyed `history/.../boards/{board}/securities/{ticker}.json` resource. Its query holds only `from` and `till`.
  - Every other interval selects the `.../securities/{ticker}/candles.json` resource, which has no board. Its query adds `interval` as a minute count.
- **Pages** — what the page loop does with one response.
  - It picks the `history` block, else the `candles` block.
  - It recognises the page shape: a page with an `end` column is a candle page.
  - On a candle page, `end` is the timestamp and `close` becomes `CLOSE`.
  - It projects the rows to (timestamp, close, volume-if-`VOLUME`-exists).
  - It decides whether the loop stops, fails or goes on.
- **Fetcher** — the `while True` page loop. Request `k` carries `start = 100k` and `limit = 100`. The `params` map is updated in place, and every kept page is appended to `all_dfs`.
- **Normalizer** — the merge. The pages are concatenated in fetch order. Rows whose timestamp was already seen are dropped. The rest are sorted by timestamp.
- **History** — `get_history` end to end.
- **Snapshot** — `get_data`.
  - The price is the first present, non-null field among `LCURRENTPRICE`, `LAST`, `MARKETPRICE`, `LASTPRICE`, `CLOSEPRICE`.
  - The price must then be finite and above zero.
  - `VOLUME` must be present, non-null and above zero.
  - The timestamp is `SYSTIME`, or the current time.

The HTTP layer (`_get`) is a parameter, `server: Request -> Result<Json>`: a
function from the request actually sent to a decoded body or the error the
layer raised. Every request the loop sends is returned to the caller, so its
contents are part of what is proved. Exceptions become `Failure(error)`.
The pandas frames become sequences of `Row(time, close,
volume)`. A timestamp is an integer: a cell `Stamp(t)` stands for a date string that
`pd.to_datetime` parses to `t`. Python floats are `Float = Real(x) | PosInf |
NegInf | NaN`.

The `while True` loop only ends when the server sends a page that stops it.
`FetchPages` and `GetHistory` therefore take a ghost `horizon`: a request
number whose answer ends the loop. The source itself would loop forever
without one. The loop is written once for any per-response reader and is
instantiated with `Pages.PageStep`.

Files: `types.dfy` (shared values), `client.dfy`, `resolver.dfy`, `pages.dfy`,
`fetcher.dfy`, `normalizer.dfy`, `history.dfy`, `snapshot.dfy`.

## Model

| member | source | states |
|---|---|---|
| Client.Upper | moex_client.py:17 | the upper-cased ticker has the same length, no lower-case ASCII letter, and changes exactly the lower-case letters |
| Client.UpperIdempotent | moex_client.py:17 | upper-casing twice equals upper-casing once |
| Client.NewClient | moex_client.py:16-20 | the stored ticker is the upper-cased input, so it has the same length and no lower-case letter; engine, market and board are kept as given, with defaults `stock`, `shares`, `TQBR` |
| Client.TickerCaseInsensitive | moex_client.py:17 | a ticker in any case builds the same client as its upper-case spelling |
| Resolver.Resolve | moex_client.py:35-44 | the request fails exactly when the interval is not in the table, and then with InvalidInterval |
| Resolver.AcceptedIntervals | moex_client.py:35-37 | exactly `1m`, `10m`, `1h`, `1d` are accepted; their bar lengths increase in that order, the daily one is 24·60 minutes and every intraday one is shorter |
| Resolver.DailyRequest | moex_client.py:39-41 | `1d` selects the board-keyed history path, with query keys exactly `from` and `till` |
| Resolver.IntradayRequest | moex_client.py:42-44 | other accepted intervals select the candles path, with keys `from`, `till`, `interval`, and `interval` is 1, 10 or 60 |
| Resolver.IntradayIgnoresBoard | moex_client.py:43-44 | an intraday request is the same whatever the client's board |
| Resolver.PathsDiffer | moex_client.py:40-43 | a history path never equals a candles path |
| Pages.PickEnvelope | moex_client.py:54-56 | a non-empty `history` block is chosen first; otherwise a non-empty `candles` block; nothing exactly when neither is present and non-empty |
| Pages.ReadBlock | moex_client.py:58-79 | the page's own errors are only a malformed frame, a missing TRADEDATE and an unparseable timestamp; a kept page has a well-formed frame, one row per data row, and continues iff it has at least 100 rows |
| Pages.PageStep | moex_client.py:53-79 | a transport error is passed on; any other error is one of the page's own three; a kept page comes from the chosen block and is never empty (the cases are stated by the lemmas below) |
| Pages.TransportErrorPropagates | moex_client.py:53 | an error of the HTTP layer is passed on unchanged |
| Pages.HistoryEnvelopeWins | moex_client.py:54 | a non-empty `history` block is used whatever `candles` holds |
| Pages.CandlesWhenNoHistory | moex_client.py:54 | a missing or empty `history` block behaves as if absent, so `candles` decides |
| Pages.NoEnvelopeStops | moex_client.py:54-56 | with neither block present and non-empty, the loop stops without error |
| Pages.EmptyDataStops | moex_client.py:58-60 | a block with no rows stops the loop without error |
| Pages.NoCloseStops | moex_client.py:62-69 | a page with no CLOSE column after aliasing stops the loop and is not kept |
| Pages.MissingTradeDateFails | moex_client.py:65-66 | a daily page without TRADEDATE fails with a KeyError before the CLOSE check |
| Pages.RaggedPageFails | moex_client.py:61 | a non-empty page whose widest row differs from the column count fails; shorter rows are padded with nulls, as pandas does |
| Pages.KeptPage | moex_client.py:62-79 | a kept page has one row per data row, in order: row i's timestamp is data row i's cell in the time column and its close the cell in the price column; it continues the loop iff it has at least 100 rows; rows carry a volume iff the page has `VOLUME`, and it is that row's VOLUME cell |
| Pages.CandleAliasing | moex_client.py:62-64 | on a page with `end`, the timestamp is `end` and the price is `close` |
| Pages.CandleUpperClose | moex_client.py:62-64 | on a page with `end` and no lower-case `close`, the rename does nothing and an upper-case CLOSE column is the price |
| Pages.HistoryColumns | moex_client.py:65-75 | on a page without `end`, the timestamp is TRADEDATE and the price is CLOSE |
| Pages.CandleVolumeDropped | moex_client.py:71-75 | a candle page with only lower-case `volume` yields rows with no volume |
| Fetcher.SamePageParams | moex_client.py:50-52 | setting `start` and `limit` in place on the map gives the query of request k |
| Fetcher.FetchPages | moex_client.py:46-79 | the loop returns the pages the specification gives; it makes exactly the counted number of requests; request k carries `start` = 100k and `limit` = 100 |
| Fetcher.FetchUnrolled | moex_client.py:50-79 | after n full pages and a page that ends the loop: n+1 requests; the n pages kept in order; the last response decides between failure, stop and a last kept page |
| Fetcher.ShortPageIsLast | moex_client.py:77-79 | full pages at requests 0..n-1 and a short page at n: exactly n+1 requests and all n+1 pages in order |
| Fetcher.StopKeepsEarlierPages | moex_client.py:54-69 | a stopping page after n full pages: n+1 requests, the n earlier pages kept and nothing of the last |
| Fetcher.FailureAbortsFetch | moex_client.py:53 | a failure at any request fails the loop with that error and no partial result |
| Normalizer.DropDuplicatesKeepsFirst | moex_client.py:85 | dropping duplicates keeps every input timestamp exactly once, and each kept row is the first row seen with its timestamp |
| Normalizer.DropDuplicateTimes | moex_client.py:85 | the single pass with a seen-set computes the drop-duplicates specification |
| Normalizer.Insert | moex_client.py:86 | inserting into a sorted sequence keeps it sorted and adds exactly the one row |
| Normalizer.SortByTime | moex_client.py:86 | the result is in ascending timestamp order and is a permutation of the input |
| Normalizer.DistinctTimesCount | moex_client.py:85 | rows with distinct timestamps have as many timestamps as rows |
| Normalizer.StrictlySortedUnique | moex_client.py:86-87 | two strictly increasing sequences of the same rows are equal, so the order does not depend on the sort algorithm |
| Normalizer.MergeIsUnique | moex_client.py:84-87 | the merge promise determines the merged series uniquely |
| Normalizer.Normalize | moex_client.py:81-87 | no pages gives NoData; otherwise timestamps strictly increase, every page timestamp appears exactly once, and each row is its timestamp's first occurrence in fetch order |
| History.GetHistory | moex_client.py:34-87 | the interval defaults to `1d`; a bad interval fails with no request; request k carries offset 100k; a loop failure is the call's failure; no kept page gives NoData; otherwise the result is the merge of the kept pages |
| History.EmptyFirstPage | moex_client.py:54-60 | a first response without rows means one request and no page, so the call fails with NoData |
| Snapshot.PriceIndex | moex_client.py:110-113 | the chosen position is a usable priority field, and no earlier field is usable |
| Snapshot.PickPrice | moex_client.py:109-113 | the loop converts the first usable priority field's value and looks at no later field |
| Snapshot.CheckPrice | moex_client.py:115-116 | a price passes iff it exists, is finite and is above zero |
| Snapshot.CheckVolume | moex_client.py:118-121 | a volume passes only if VOLUME is present, non-null and positive (`+inf` included); a missing or null VOLUME fails with InvalidVolume |
| Snapshot.QuoteTime | moex_client.py:123-126 | without a non-null SYSTIME the time is the supplied current time; with one, the call succeeds iff it is a timestamp, and then the time is that timestamp |
| Snapshot.QuoteOf | moex_client.py:101-132 | on success the price is the first usable field's value and is positive and finite, and the volume is positive; conversely a well-formed first row whose first usable price is positive and finite, whose VOLUME is positive and whose SYSTIME is absent, null or a timestamp gives exactly that quote |
| Snapshot.GetData | moex_client.py:97-132 | one request; a transport error is passed on; otherwise the result is the quote of the body |
| Snapshot.FirstUsableFieldDecides | moex_client.py:110-116 | when the first usable field is not a positive finite number the call fails, whatever later fields hold |
| Snapshot.LastBeforeClosePrice | moex_client.py:110-113 | with LAST usable and LCURRENTPRICE not, the price is LAST's, even when CLOSEPRICE is present |
| Snapshot.NoPriceFieldFails | moex_client.py:109-116 | with no usable priority field the call fails with InvalidPrice |

## Left out

- The HTTP transport of `_get` (moex_client.py:22-32): the URL, the 5-second timeout, the status check and the empty-body check. This is network I/O. It is the `server` parameter, whose errors are passed on unchanged.
- `LOGRET`, `RET`, `CUMRET` (moex_client.py:90-92): floating-point log, division and cumulative product.
- The renames to TIMESTAMP/PRICE/VOLUME and `reset_index` (moex_client.py:87-89): these are cosmetic. The merged rows are already positional.
- The console message (moex_client.py:93), `plot` (moex_client.py:141-157), and `get_securities_list` (moex_client.py:134-139). The last is a one-call pass-through with no logic.
- The wall clock fallback for SYSTIME (moex_client.py:126) is the `now` parameter.
- `pd.to_datetime` parsing: a timestamp cell is either a `Stamp`, or the page fails with BadTimestamp. pandas would turn a null into NaT, and would read a number as an epoch count. Neither is modelled.
- Pages whose column list repeats a name are not modelled. This includes a candle page with both `close` and `CLOSE`: the model reads `close`, while pandas would carry both columns.
- `Client.Upper`: only ASCII letters are upper-cased. Python's Unicode case mapping (for example `ß` → `SS`) is not modelled.
- Fetcher.FetchPages: a server that returns full pages forever makes the source loop forever. The model requires a request (`horizon`) whose answer ends the loop.
- `Normalizer.SortByTime`: pandas sorts with its own algorithm. The model inserts row by row. `StrictlySortedUnique` shows the merged result is the same either way.
- Float arithmetic is not modelled: prices and volumes are exact reals, or an infinity or NaN marker.
