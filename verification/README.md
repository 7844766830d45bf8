# Stock screener quote pipeline, modelled in Dafny

The stock screener keeps one table of stock rows, one row per ticker. A refresh
cycle walks a fixed list of fifteen symbols in order. For each symbol it asks a
market-data provider for a quote dictionary and the recent daily closes. It
normalises them into a row: current price, previous close, change, percent change,
formatted market capitalisation and volumes, trading ranges, optional financial
ratios, and an up/down flag. When anything in that step raises, it writes a
placeholder row for the symbol instead. The table is emptied before the cycle, so
the new rows replace the old ones. The JSON endpoint lists the rows by percent change,
largest first. It triggers a refresh when the table is empty or when the first listed
row is more than five minutes old.

The model is functional. The provider is a total function from a symbol to
`Result<Quote, string>`. The write time of the `i`-th row of a cycle is a parameter
`clock(i)`. Rows are immutable `Stock` values.

| file | module | what it holds |
|---|---|---|
| `wrappers.dfy` | `Wrappers` | `Option`, `Result`, and `Entry`: a dictionary key that is missing, present as null, or present with a value |
| `rounding.dfy` | `Rounding` | `round(x, 2)` on exact reals, ties to even, with its error bound, monotonicity, sign and idempotence |
| `format.dfy` | `Format` | `format_large_number` and `format_volume` as a tier and a scaled value |
| `models.dfy` | `Models` | the `Stock` row, the column defaults, the placeholder row, the row invariant, unique tickers |
| `normaliser.dfy` | `Normaliser` | the provider payload and the per-ticker normalisation |
| `update.dfy` | `Update` | the ticker list, the per-ticker row, the whole refresh cycle |
| `command.dfy` | `Command` | the management command, which runs the same cycle |
| `listing.dfy` | `Listing` | the listing order and the staleness rule |

The management command (`stock_screener/stocks/management/commands/update_stocks.py`)
is a verbatim copy of the refresh in `stock_screener/stocks/views.py`, apart from its
progress messages. The members below cite the `views.py` lines. The same members model
the command's copy:

- line 29 is the price rule;
- lines 30-34 are the previous-close default and the percent guard;
- lines 37-59 are the two formatters;
- lines 61-83 build the row;
- lines 88-111 write the placeholder.

Those are `views.py` lines 98, 99-103, 106-128, 130-152 and 154-175.

### Behaviour of the code worth knowing

- Normalisation can raise. `info.get(key, default)` falls back only for a missing
  key; a key present with a null value yields `None`. Several null values make the
  step raise:
  - `previousClose`;
  - `currentPrice`, when there is no price history;
  - any of the four range keys.
  These raise a TypeError in the arithmetic or in `round`. A null `shortName`,
  `sector` or `marketState` is written to a column that does not accept null. The
  per-ticker handler catches all of these, and the ticker becomes the placeholder row.
  `Normaliser.Normalise` states exactly when this happens.
- The flag and the change come from unrounded prices, and each column is then
  rounded on its own. The stored change therefore only agrees in sign with the flag
  (`Models.WellFormed`), and it is within three half-cents of the difference of the
  stored prices, not equal to it. The lemmas
  `Normaliser.RisingFlagWithZeroStoredChange` and
  `Normaliser.StoredChangeIsNotStoredDifference` give inputs where the exact forms fail.
- Ties are not broken. The listing orders only by `-price_change_percent`, so tied
  rows may come back in either order (`Listing.TiedRowsEitherOrder`).
- The table is not replaced atomically. The code deletes all rows and then inserts
  them one at a time. The model has no concurrent readers, so it represents the
  cycle by its final table.

`Models.Lookup` is a helper used only to state ticker uniqueness; the code never
looks a row up by ticker.

## Model

| member | source | states |
|---|---|---|
| Rounding.Round2 | stock_screener/stocks/views.py:134-144 | `round(x, 2)` gives a whole number of cents within half a cent of `x` |
| Rounding.Round2Monotone | stock_screener/stocks/views.py:134-144 | rounding never reverses the order of two values |
| Rounding.Round2Sign | stock_screener/stocks/views.py:136-150 | rounding keeps the sign: a rise never rounds to a negative change, and 0 stays 0 |
| Rounding.Round2Idempotent | stock_screener/stocks/views.py:134-144 | rounding a stored value again changes nothing |
| Format.FirstMet | stock_screener/stocks/views.py:109-116 | the formatter's if/elif chain picks the first threshold the value meets; every earlier threshold is missed |
| Format.FormatLargeNumber | stock_screener/stocks/views.py:106-116 | absent gives "N/A". Otherwise exactly one tier is picked: T at or above 1e12, B in [1e9, 1e12), M in [1e6, 1e9), plain below 1e6. The result always carries "$", the scaled value times the tier's unit gives back the input, and for a lettered tier the scaled value is at least 1 (below 1000 for B and M) |
| Format.FormatVolume | stock_screener/stocks/views.py:118-128 | absent gives "N/A". Otherwise B at or above 1e9, M in [1e6, 1e9), K in [1e3, 1e6), plain below 1e3. There is never a "$", and the scaled value gives back the input |
| Format.FormattersAgreeInMidRange | stock_screener/stocks/views.py:106-128 | from a million up to a trillion, both formatters pick the same tier and scale, and differ only in the "$" |
| Models.Defaults | stock_screener/stocks/models.py:4-37 | a row given only ticker and name has sector "N/A", "N/A" displays, every price and range column 0, the four ratios null, rsi 50, flag false and market state REGULAR, and it satisfies the row invariant |
| Models.Placeholder | stock_screener/stocks/views.py:157-175 | the failure row is the default row named after the symbol, with market state UNKNOWN instead of REGULAR: zero prices and ranges, "N/A" displays and sector, absent ratios, rsi 50, flag false. It satisfies the row invariant |
| Models.LookupFindsTheRow | stock_screener/stocks/models.py:5 | with unique tickers, looking a ticker up finds exactly the one row that carries it |
| Normaliser.Move | stock_screener/stocks/views.py:102-103 | previous close plus change gives the current price. The percent change times a non-zero previous close is 100 times the change, and it is 0 when the previous close is 0. The flag is set exactly when the current price exceeds the previous close |
| Normaliser.PriceColumns | stock_screener/stocks/views.py:98-103 | the price columns exist exactly when neither price source is null. The current price is the rounded last close, else the dictionary's price, else 0. A missing previous close gives previous = current, change 0, percent 0 and flag false. A previous close of 0 gives percent 0. The stored change and percent are the unrounded movement of `Normaliser.Move`, each rounded once. The flag compares unrounded prices and agrees in sign with the rounded change |
| Normaliser.Build | stock_screener/stocks/views.py:130-152 | the row's ticker and time. The price columns. Market cap through `format_large_number`, volumes through `format_volume`. Range columns default to 0 when missing and are rounded otherwise. The four ratios pass through, so absent stays absent. Name, sector and market state default to the symbol, "N/A" and REGULAR. rsi is 50 |
| Normaliser.FirstFault | stock_screener/stocks/views.py:98-152 | some step raises exactly when a needed key is present as null |
| Normaliser.Normalise | stock_screener/stocks/views.py:92-152 | normalisation succeeds exactly when no needed key is null. A successful row carries the symbol and the write time, and satisfies the row invariant |
| Normaliser.RisingFlagWithZeroStoredChange | stock_screener/stocks/views.py:136-150 | a rise of a tenth of a cent sets the flag while the stored change is 0.00 |
| Normaliser.StoredChangeIsNotStoredDifference | stock_screener/stocks/views.py:134-136 | a close of 0.375 over a previous close of 0.125 stores prices 0.38 and 0.12 with a change of 0.25 |
| Update.RowFor | stock_screener/stocks/views.py:92-175 | a failed fetch, or a payload that makes normalisation raise, gives the placeholder row. Otherwise the row is the normalised one, for that symbol and that write time |
| Update.Refresh | stock_screener/stocks/views.py:88-175 | one row per symbol, in list order, the `i`-th written at `clock(i)`. Every row satisfies the row invariant. A failed fetch, or a fetched payload that makes normalisation raise, leaves that symbol's placeholder and the cycle goes on; a fetched payload that normalises gives the normalised row |
| Update.TickersDistinct | stock_screener/stocks/views.py:82-86 | the fifteen configured symbols are pairwise different |
| Update.RefreshUnique | stock_screener/stocks/models.py:5 | a cycle over distinct symbols never writes two rows with one ticker |
| Update.RefreshLoop | stock_screener/stocks/views.py:91-175 | appending one row per symbol in list order builds exactly the refreshed table, for any symbol list |
| Update.UpdateStockData | stock_screener/stocks/views.py:79-175 | the loop over the configured list builds exactly the refreshed table: fifteen rows with unique tickers |
| Command.Handle | stock_screener/stocks/management/commands/update_stocks.py:9-115 | the command writes the same table as the endpoint's refresh: fifteen rows, unique tickers, and an UNKNOWN placeholder with a false flag for every failed symbol |
| Listing.Insert | stock_screener/stocks/models.py:44 | placing a row into a listing keeps it ordered by percent change, descending, and adds exactly that row |
| Listing.SortByGain | stock_screener/stocks/models.py:44 | every table has a listing: a permutation of its rows ordered by percent change, descending |
| Listing.TopIsBestGainer | stock_screener/stocks/models.py:44 | the first listed row is a row of the table with the largest percent change |
| Listing.ListingUniqueWithoutTies | stock_screener/stocks/models.py:44 | when no two rows tie on percent change, the listing order is fully determined |
| Listing.TiedRowsEitherOrder | stock_screener/stocks/models.py:44 | rows that tie may be listed in either order |
| Listing.NeedsUpdate | stock_screener/stocks/views.py:20 | a refresh is due when the listing is empty, or when its first row is strictly more than five minutes old |
| Listing.StalenessAfterRefresh | stock_screener/stocks/views.py:20 | after a cycle whose writes fall in [lo, hi], a request more than five minutes after hi refreshes, and one at most five minutes after lo does not, whichever row is listed first |
| Listing.ListingChoiceMattersOnlyInsideWriteWindow | stock_screener/stocks/views.py:20 | two permitted listings of a refreshed table can disagree on staleness only when now minus five minutes falls inside the cycle's write window (lo, hi] |

## Left out

- The provider calls (`yf.Ticker`, `.info`, `.history`) are not modelled as behaviour.
  Each symbol's outcome is an input: a quote dictionary and the closes, or a failure.
- The database is not modelled: persistence, `auto_now` (modelled as the `clock`
  input), and the non-atomic delete followed by inserts. The model has no
  concurrency, so a reader cannot observe a half-written table.
- A symbol repeated in the list would hit the unique ticker column twice. The second
  insert and its placeholder insert would both raise, and the cycle would abort. The
  model does not represent that abort. The configured list has no repeats
  (`Update.TickersDistinct`).
- Column length limits (`max_length`) are not modelled. Whether an over-long value is
  rejected depends on the database backend.
- Floating point is not modelled: prices are exact reals, and `round(x, 2)` is
  rounding of the exact value to the nearest cent, ties to even. NaN, infinities,
  overflow and binary representation error are not represented.
- Digit rendering is not modelled: two decimals for a lettered tier, a comma-grouped
  whole number for the plain tier. A formatted value is its tier, its "$" flag and
  its scaled value.
- The JSON response, the HTML page, URL routing and the timestamp strings are not
  modelled. The row's fields carry the same names as the response keys, in camel case.
- The single-ticker real-time price endpoint and the interactive command-line demo
  are not modelled. They call the provider directly and print.
- The command's progress and error messages and the endpoint's error print are not
  modelled.
- The command's success message is written inside the per-ticker `try`, after the
  insert (update_stocks.py:85-87). If writing it raises, the handler inserts a second
  row for the same ticker, which the unique column rejects, and the command aborts.
  The model treats the messages as not failing; the endpoint's copy has no such path.
