/** One refresh cycle: every configured ticker is fetched in list order and becomes
    either its normalised row or, when the fetch or the normalisation raises, the
    placeholder row. The rows replace the whole table, so nothing of the previous
    contents survives a cycle. */
module Update {
  import opened Wrappers
  import opened Models
  import opened Normaliser

  /** The configured symbols, in the order they are refreshed: ten US technology
      stocks and five National Stock Exchange of India stocks. */
  const Tickers: seq<string> := [
    "AAPL", "GOOGL", "MSFT", "TSLA", "AMZN",
    "NVDA", "META", "NFLX", "AMD", "INTC",
    "RELIANCE.NS", "TCS.NS", "INFY.NS", "HDFCBANK.NS", "ICICIBANK.NS"]

  /** What the market-data provider returns for one symbol: its quote dictionary and
      its recent daily closes, oldest first. */
  datatype Quote = Quote(info: Payload, closes: seq<real>)

  /** The provider, one call per symbol; a failure carries the error text. */
  type Provider = string -> Result<Quote, string>

  /** The moment the `i`-th row of a cycle is written. */
  type Clock = nat -> Time

  /** No symbol occurs twice. */
  ghost predicate Distinct(tickers: seq<string>)
  {
    forall i, j :: 0 <= i < j < |tickers| ==> tickers[i] != tickers[j]
  }

  /** The row written for one symbol: the normalised row when the fetch succeeded and
      normalising raised nothing, the placeholder row otherwise. */
  function RowFor(symbol: string, fetched: Result<Quote, string>, at: Time): (s: Stock)
    ensures s.ticker == symbol && s.lastUpdated == at && WellFormed(s)
    ensures fetched.Failure? ==> s == Placeholder(symbol, at)
    ensures fetched.Success? && !Complete(fetched.value.info, fetched.value.closes) ==>
              s == Placeholder(symbol, at)
    ensures fetched.Success? && Complete(fetched.value.info, fetched.value.closes) ==>
              s == Build(symbol, fetched.value.info, fetched.value.closes, at)
  {
    match fetched
    case Failure(_) => Placeholder(symbol, at)
    case Success(q) =>
      match Normalise(symbol, q.info, q.closes, at)
      case Failure(_) => Placeholder(symbol, at)
      case Success(s) => s
  }

  /** The table after a refresh of `tickers`: one row per symbol, in list order, the
      `i`-th written at `clock(i)`; a failed symbol leaves a placeholder row and does
      not stop the cycle. */
  function Refresh(tickers: seq<string>, provider: Provider, clock: Clock): (rows: seq<Stock>)
    ensures |rows| == |tickers|
    ensures forall i :: 0 <= i < |rows| ==>
              rows[i].ticker == tickers[i] && rows[i].lastUpdated == clock(i) && WellFormed(rows[i])
    ensures forall i :: 0 <= i < |rows| && provider(tickers[i]).Failure? ==>
              rows[i] == Placeholder(tickers[i], clock(i))
    ensures forall i :: 0 <= i < |rows| && provider(tickers[i]).Success? ==>
              var q := provider(tickers[i]).value;
              && (Complete(q.info, q.closes) ==> rows[i] == Build(tickers[i], q.info, q.closes, clock(i)))
              && (!Complete(q.info, q.closes) ==> rows[i] == Placeholder(tickers[i], clock(i)))
  {
    seq(|tickers|, i requires 0 <= i < |tickers| => RowFor(tickers[i], provider(tickers[i]), clock(i)))
  }

  /** Distinct symbols give a table with unique tickers, so the unique column never
      rejects a row of the cycle. */
  lemma RefreshUnique(tickers: seq<string>, provider: Provider, clock: Clock)
    requires Distinct(tickers)
    ensures UniqueTickers(Refresh(tickers, provider, clock))
  {
  }

  /** The configured list has no repeated symbol. */
  lemma TickersDistinct()
    ensures Distinct(Tickers)
  {
  }

  /** The loop of a refresh cycle: one row per symbol, appended in list order. */
  method RefreshLoop(tickers: seq<string>, provider: Provider, clock: Clock) returns (rows: seq<Stock>)
    ensures rows == Refresh(tickers, provider, clock)
  {
    rows := [];
    var i := 0;
    while i < |tickers|
      invariant 0 <= i <= |tickers|
      invariant |rows| == i
      invariant forall j :: 0 <= j < i ==>
                  rows[j] == RowFor(tickers[j], provider(tickers[j]), clock(j))
    {
      var symbol := tickers[i];
      rows := rows + [RowFor(symbol, provider(symbol), clock(i))];
      i := i + 1;
    }
  }

  /** The refresh behind the JSON endpoint: the table is emptied, then the loop writes
      one row per configured symbol, in list order. */
  method UpdateStockData(provider: Provider, clock: Clock) returns (rows: seq<Stock>)
    ensures rows == Refresh(Tickers, provider, clock)
    ensures |rows| == |Tickers| && UniqueTickers(rows)
  {
    rows := RefreshLoop(Tickers, provider, clock);
    TickersDistinct();
    RefreshUnique(Tickers, provider, clock);
  }
}
