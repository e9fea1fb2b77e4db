# XRP quote service — a Dafny model

This project models the price-lookup core of the XRP dashboard. The core is
`services.py` with the history trimmer of `utils.py`. It has two currency
channels, BRL and USD. Each channel has:

- a module-level cache `{price, timestamp}` with its own lifetime (300 s for
  BRL, 600 s for USD);
- an ordered list of price sources, tried until one yields a price;
- a JSON history file bounded to its last 500 records.

The model has three modules:

- `Storage` (`storage.dfy`) holds the price record and the history files.
  A file is modelled by what a reader sees: missing, not decodable, unreadable
  for another reason, or a list of records. `JsonFile` is the file on disk,
  an object whose contents are updated in place.
- `Utils` (`utils.dfy`) holds Python's `s[-n:]` slice as `KeepLast` and
  `compactar_data_json` as `CompactDataJson`.
- `Services` (`services.dfy`) holds the source-selection functions, the cache
  and history functions, and the class `QuoteService`. That class keeps the
  two caches as fields that its methods update. Its methods run the same
  `for`/`break` loops over the sources as the Python functions.

Abstractions:

- Each source is its outcome, `Raise` or `Value(v)`.
- The clock is the integer parameter `now`.
- The ISO-8601 text of `datetime.now()` is the opaque `stamp` parameter.
- Whether a file write succeeds is the `writeOk` parameter.
- Prices are `real`.

Python truthiness is kept throughout: a price of 0 counts as no price.

Behaviour of the code worth noting:

- A source fails only by raising or by returning 0. A negative price is
  accepted.
- Each channel tries its sources in one fixed order and uses the first
  truthy price. Prices from different sources are never combined.
- Compaction is a plain trailing-N slice of the list as stored.
- When every source fails, `fetch_xrp_usd` returns the value of the last
  source that did not raise. That value is 0.0 if that source returned 0.
  The result is None only when every source raised (`LastValue`,
  `FailedLookupIsFalsy`).
- Only `FileNotFoundError` and `JSONDecodeError` are caught when a history
  is read. Any other read error (`Unreadable`, for example bad permissions or
  a bad text encoding) behaves differently in each function:
  - it escapes from `fetch_xrp_price` (`BrlQuote.Raised`), after the cache
    has already been refreshed;
  - in `fetch_xrp_usd` the per-source `try` catches it, so the remaining
    sources are still tried. Each truthy one overwrites the cache, which
    ends with the last truthy price (`LastSuccess`).

## Model

| member | source | states |
|---|---|---|
| `Storage.Load` | services.py:36-40 | a missing or undecodable history reads as empty, a list reads as itself, and any other read error escapes |
| `Storage.Persist` | services.py:47-51 | after a successful rewrite with `h`, reading the file gives back `h`; a failed write is caught and leaves the file as it was |
| `Utils.KeepLast` | utils.py:7 | `s[-n:]` is a suffix of `s`, in order; for `n > 0` it has `min(len, n)` elements; `n == 0` keeps the whole list (`-0 == 0`); a negative `n` drops the first `-n`; a list already within `n >= 0` is unchanged |
| `Utils.KeepLastIdempotent` | utils.py:7 | trimming to the last `n >= 0` elements twice equals trimming once |
| `Utils.Compacted` | utils.py:3-11 | compaction of a readable list with a successful write leaves a suffix of it, of length `min(len, n)` for `n > 0`; `n == 0` keeps it; a missing, undecodable or unreadable file or a failed write leaves the file as it was |
| `Utils.CompactedIdempotent` | utils.py:3-11 | two compactions equal one whose write succeeds when either does: once a compaction is written, another changes nothing |
| `Utils.CompactDataJson` | utils.py:3-11 | the file afterwards is `Compacted` of the file before; every failure is swallowed and nothing is returned |
| `Services.FirstSuccess` | services.py:19-28 | the selected price is truthy and comes from one of the sources; there is none exactly when no source yields a truthy price |
| `Services.FirstSuccessIsFirst` | services.py:19-28 | if source `i` yields a truthy price and no earlier one does, its price is the one selected; raising or zero sources before it are skipped |
| `Services.FirstSuccessIsEarliest` | services.py:19-28 | a selected price comes from a succeeding source that only failing sources precede |
| `Services.LaterSourcesIgnored` | services.py:20-26 | once a prefix of the sources yields a price, sources after it do not affect the result (the loop breaks) |
| `Services.LastValue` | services.py:69-83 | the USD loop variable after an unsuccessful pass is None exactly when every source raised, otherwise a value some source returned |
| `Services.LastSuccess` | services.py:72-81 | the last truthy price among the sources exists exactly when a first one does, and is returned by one of them |
| `Services.FailedLookupIsFalsy` | services.py:69-83 | when no source succeeds, `fetch_xrp_usd`'s result is falsy: None iff every source raised, otherwise 0 |
| `Services.LookupAndRefresh` | services.py:15-31 | a fresh truthy cache (`now - timestamp < ttl`) is served and kept; otherwise a succeeding source's price is served and cached at `now`; if none succeeds there is no price and the cache is kept |
| `Services.Lookup` | services.py:15-31 | the price a fetch works with is never 0; there is none exactly when the cache is not fresh and no source yields a truthy price |
| `Services.StoreFound` | services.py:24-25 | storing a found price sets the cache to that price stamped at `now`; when nothing was found the cache is kept |
| `Services.Refresh` | services.py:15-26 | a fresh cache is kept; whenever a price is served the cache holds it afterwards; with no price the cache is kept; a changed cache is stamped `now` and is fresh at `now` for a positive lifetime |
| `Services.RefreshedCacheServes` | services.py:15-25 | after a refresh at `now`, a lookup before `now + ttl` serves the cached price and one at or after it consults the sources again |
| `Services.RecordQuote` | services.py:42-45 | the BRL history keeps at most 500 records and ends with the quoted price; a changed price (or empty history) appends exactly the new record after a suffix of the old history; an unchanged price appends nothing and keeps a suffix |
| `Services.AppendUsdRecord` | services.py:136-137 | the USD history always gains the new record last, after a suffix of the old one, with length `min(len + 1, 500)` — no dedup |
| `Services.PercentChange` | services.py:53-57 | the percent change is 0 with fewer than two records or a zero second-to-last price |
| `Services.PercentChangeMeaning` | services.py:53-57 | otherwise percent × previous price == (price − previous price) × 100, the previous price being the second-to-last record's |
| `Services.PercentSign` | services.py:53-57 | with a positive reference price, the percent is positive iff the price rose and zero iff it did not move |
| `Services.PercentAgainstLastRecorded` | services.py:42-57 | when the quoted price differs from the last recorded one, the percent change is measured against that last recorded price |
| `Services.StablePercent` | services.py:36-57 | two quotes of the same price with no other writer in between return the same percent change, whether the second reads what the first wrote or (after a failed write) the same file again |
| `Services.StableHistory` | services.py:42-45 | quoting the same price again after the first quote's history was written leaves that history unchanged (no duplicate record, no further trim) |
| `Services.RepeatedQuoteKeepsHistory` | services.py:42-45 | a history within the bound whose last price equals the quoted price is left as it is |
| `Services.RepeatedQuotePercent` | services.py:42-57 | quoting the last recorded price again over a bounded history gives the same percent change as that history |
| `Services.PercentChangeOfSameTail` | services.py:53-57 | the percent change depends only on the history length and its second-to-last record |
| `Services.PercentIgnoresStamp` | services.py:42-57 | the timestamp given to a new record has no effect on the percent change |
| `Services.QuoteService.constructor` | services.py:7-8 | both caches start as `{price: None, timestamp: 0}` and the two channels use different files |
| `Services.QuoteService.FetchXrpPrice` | services.py:11-59 | the cache becomes `Refresh` of the old one (300 s); with no price the result is `(None, None)` and the history file is untouched; if the history read raises, the error escapes; otherwise the file becomes `RecordQuote` of the read history (if the write succeeds) and the result is the price with the percent change of that history |
| `Services.QuoteService.RecordBrlQuote` | services.py:33-59 | once a price is known: an unreadable history makes the call raise and changes nothing; otherwise the file becomes `RecordQuote` of the read history (missing/undecodable: empty) if the write succeeds, and the result is the price with the percent change of that updated history, even when the write failed |
| `Services.QuoteService.SaveUsdHistory` | services.py:126-143 | an unreadable file makes the call raise and changes nothing; otherwise the file becomes `AppendUsdRecord` of the read history (missing/undecodable: empty) if the write succeeds |
| `Services.QuoteService.FetchXrpUsd` | services.py:62-83 | a fresh cache (600 s) is returned with nothing changed; otherwise, with a readable history, the first success is returned, cached at `now` and appended to the USD history, and with no success the last non-raising value (or None) is returned with nothing changed; with an unreadable history the last non-raising value is returned, the file is unchanged and the cache holds the last success |

## Left out

- The HTTP source adapters `from_binance`, `from_coinpaprika`, `from_coingecko`, `usd_from_coinpaprika`, `usd_from_coingecko` and `usd_from_messari` (services.py:86-123). They are network calls with JSON field extraction. The model keeps only each one's outcome, `Raise` or `Value(v)`.
- `time.time()` and `datetime.now().isoformat()`. The clock is an integer parameter, and timestamps are opaque strings supplied by the caller. Fractional seconds are not modelled.
- JSON encoding, indentation and `ensure_ascii`. A history file is its list of records.
- A file that parses as JSON but is not a list of records carrying a `"price"` (for example a dict). Every writer in the repository writes lists of such records.
- Extra per-record fields, such as the `rsi`, `ema` and `macd` that `dashboard.py` adds to `data.json` records. The core never reads them and moves records whole (append, slice), so a record is modelled as its timestamp and price only.
- A write that fails partway through can leave a truncated file. The model treats a failed write as leaving the file unchanged.
- The error messages printed by the `except` blocks.
- Floating-point rounding. Prices and percentages are exact reals.
- The default `max_registros=500` of `compactar_data_json`. The model passes the bound explicitly.
- `dashboard.py`: the Dash layout and callback, figures, alerts, its own unconditional append to `data.json` followed by `compactar_data_json`, and the XRP-quantity conversion. The model covers only what it calls.
- `indicators.py`: a wrapper over pandas/pandas_ta (RSI, EMA, MACD).
- `gerador_dados.py`: random synthetic data and a CLI.
- `app.py`: Streamlit display.
- Concurrent callers. The source has no locking, and the model treats each call as atomic.
