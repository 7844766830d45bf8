/** The management command that refreshes the table from the command line. Its loop
    is a copy of the one behind the JSON endpoint, so it writes the same rows; the
    progress messages it prints are not modelled. */
module Command {
  import opened Models
  import opened Update

  /** Runs one refresh cycle over the configured symbols. */
  method Handle(provider: Provider, clock: Clock) returns (rows: seq<Stock>)
    ensures rows == Refresh(Tickers, provider, clock)
    ensures |rows| == |Tickers| && UniqueTickers(rows)
    ensures forall i :: 0 <= i < |rows| && provider(Tickers[i]).Failure? ==>
              rows[i].marketState == Unknown && !rows[i].isPositive && rows[i].name == Tickers[i]
  {
    rows := UpdateStockData(provider, clock);
  }
}
