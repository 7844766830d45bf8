/** The stored row for one ticker, with the column defaults of the table and the
    invariants every row written by a refresh keeps. */
module Models {
  import opened Wrappers
  import opened Rounding
  import opened Format

  /** A point in time, in microseconds. */
  type Time = int

  /** The market state written when no quote could be fetched. */
  const Unknown: string := "UNKNOWN"
  /** The default market state. */
  const Regular: string := "REGULAR"
  /** The default sector text. */
  const NotApplicable: string := "N/A"
  /** The fixed relative-strength value every row carries; no indicator is computed. */
  const PlaceholderRsi: real := 50.0

  /** One row of the stock table. The four financial ratios are the only numeric
      columns that may be empty; the display columns hold formatted magnitudes. */
  datatype Stock = Stock(
    ticker: string,
    name: string,
    sector: string,
    currentPrice: real,
    previousClose: real,
    priceChange: real,
    priceChangePercent: real,
    marketCap: Display,
    volume: Display,
    avgVolume: Display,
    dayHigh: real,
    dayLow: real,
    fiftyTwoWeekHigh: real,
    fiftyTwoWeekLow: real,
    peRatio: Option<real>,
    dividendYield: Option<real>,
    beta: Option<real>,
    eps: Option<real>,
    rsi: real,
    isPositive: bool,
    marketState: string,
    lastUpdated: Time)

  /** A row created with only its ticker and name given: every other column takes the
      table's default, and the update time is the moment of writing. */
  function Defaults(ticker: string, name: string, at: Time): (s: Stock)
    ensures WellFormed(s)
    ensures s.ticker == ticker && s.name == name && s.lastUpdated == at
    // text columns default to "N/A" and REGULAR, the flag to false
    ensures s.sector == NotApplicable && s.marketState == Regular && !s.isPositive
    ensures s.marketCap.NotAvailable? && s.volume.NotAvailable? && s.avgVolume.NotAvailable?
    // numeric columns default to 0, except the four ratios, which default to null
    ensures s.currentPrice == 0.0 && s.previousClose == 0.0
    ensures s.priceChange == 0.0 && s.priceChangePercent == 0.0
    ensures s.dayHigh == 0.0 && s.dayLow == 0.0 && s.fiftyTwoWeekHigh == 0.0 && s.fiftyTwoWeekLow == 0.0
    ensures s.peRatio.None? && s.dividendYield.None? && s.beta.None? && s.eps.None?
  {
    Round2Exact(0);
    Stock(ticker, name, NotApplicable,
          0.0, 0.0, 0.0, 0.0,
          NotAvailable, NotAvailable, NotAvailable,
          0.0, 0.0, 0.0, 0.0,
          None, None, None, None,
          PlaceholderRsi, false, Regular, at)
  }

  /** What every row written by a refresh satisfies: prices and ranges are whole
      cents, the market-capitalisation display carries "$" and the volume displays do
      not, the relative-strength value is the placeholder, and the up/down flag agrees
      in sign with the stored (rounded) change. */
  ghost predicate WellFormed(s: Stock)
  {
    && IsCents(s.currentPrice) && IsCents(s.previousClose)
    && IsCents(s.priceChange) && IsCents(s.priceChangePercent)
    && IsCents(s.dayHigh) && IsCents(s.dayLow)
    && IsCents(s.fiftyTwoWeekHigh) && IsCents(s.fiftyTwoWeekLow)
    && (s.marketCap.Shown? ==> s.marketCap.currency)
    && (s.volume.Shown? ==> !s.volume.currency)
    && (s.avgVolume.Shown? ==> !s.avgVolume.currency)
    && s.rsi == PlaceholderRsi
    && (s.isPositive ==> s.priceChange >= 0.0)
    && (s.priceChange > 0.0 ==> s.isPositive)
  }

  /** The row written for a ticker whose quote could not be obtained: it carries the
      symbol as its name, zero prices and ranges, "N/A" displays, empty ratios, a
      falling flag and the UNKNOWN market state. It is the default row in every
      column except the market state. */
  function Placeholder(symbol: string, at: Time): (s: Stock)
    ensures s == Defaults(symbol, symbol, at).(marketState := Unknown)
    ensures WellFormed(s)
  {
    var s := Stock(symbol, symbol, NotApplicable,
                   0.0, 0.0, 0.0, 0.0,
                   NotAvailable, NotAvailable, NotAvailable,
                   0.0, 0.0, 0.0, 0.0,
                   None, None, None, None,
                   PlaceholderRsi, false, Unknown, at);
    assert Cents(0) == 0.0;
    s
  }

  /** No two rows share a ticker: the column is unique. */
  ghost predicate UniqueTickers(rows: seq<Stock>)
  {
    forall i, j :: 0 <= i < j < |rows| ==> rows[i].ticker != rows[j].ticker
  }

  /** The row for `ticker`, if there is one: a helper for stating uniqueness. */
  function Lookup(rows: seq<Stock>, ticker: string): (r: Option<Stock>)
    ensures r.Some? ==> r.value in rows && r.value.ticker == ticker
    ensures r.None? ==> forall i :: 0 <= i < |rows| ==> rows[i].ticker != ticker
  {
    if |rows| == 0 then None
    else if rows[0].ticker == ticker then Some(rows[0])
    else Lookup(rows[1..], ticker)
  }

  /** With unique tickers, the row a lookup finds is the only row for that ticker. */
  lemma {:induction false} LookupFindsTheRow(rows: seq<Stock>, i: nat)
    requires UniqueTickers(rows)
    requires i < |rows|
    ensures Lookup(rows, rows[i].ticker) == Some(rows[i])
  {
    if i > 0 {
      assert rows[0].ticker != rows[i].ticker;
      assert rows[1..][i - 1] == rows[i];
      LookupFindsTheRow(rows[1..], i - 1);
    }
  }
}
