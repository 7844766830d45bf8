/** The per-ticker normalisation: from the provider's quote dictionary and its recent
    daily closes to a stored row. Every dictionary key may be missing, present with a
    null value, or present with a value; a lookup with a default falls back only for a
    missing key. */
module Normaliser {
  import opened Wrappers
  import opened Rounding
  import opened Format
  import opened Models

  /** The keys of the provider's quote dictionary that the normalisation reads. */
  datatype Payload = Payload(
    shortName: Entry<string>,
    sector: Entry<string>,
    currentPrice: Entry<real>,
    previousClose: Entry<real>,
    marketCap: Entry<real>,
    volume: Entry<real>,
    averageVolume: Entry<real>,
    dayHigh: Entry<real>,
    dayLow: Entry<real>,
    fiftyTwoWeekHigh: Entry<real>,
    fiftyTwoWeekLow: Entry<real>,
    trailingPE: Entry<real>,
    dividendYield: Entry<real>,
    beta: Entry<real>,
    trailingEps: Entry<real>,
    marketState: Entry<string>)

  /** Why normalising a payload raised: arithmetic or rounding on a null value, or a
      null written to a column that does not accept one. */
  datatype Fault = TypeError(expression: string) | IntegrityError(column: string)

  /** The price change derived from a current price and a previous close. */
  datatype Movement = Movement(change: real, percent: real, positive: bool)

  /** The change, the percent change (zero when the previous close is zero, so there is
      no division by zero) and whether the price rose. */
  function Move(current: real, previous: real): (m: Movement)
    ensures previous + m.change == current
    ensures previous != 0.0 ==> m.percent * previous == m.change * 100.0
    ensures previous == 0.0 ==> m.percent == 0.0
    ensures m.positive <==> current > previous
  {
    var change := current - previous;
    var percent := if previous != 0.0 then change / previous * 100.0 else 0.0;
    Movement(change, percent, change > 0.0)
  }

  /** The current price before rounding: the last of the recent closes when there are
      any, otherwise the dictionary's current price, which defaults to 0 when missing
      and is null when present as null. */
  function CurrentPrice(p: Payload, closes: seq<real>): Option<real>
  {
    if |closes| > 0 then Some(closes[|closes| - 1]) else p.currentPrice.Get(Some(0.0))
  }

  /** The previous close before rounding: the dictionary's value, defaulting to the
      current price when missing. */
  function PreviousClose(p: Payload, closes: seq<real>): Option<real>
  {
    p.previousClose.Get(CurrentPrice(p, closes))
  }

  /** The four stored price columns and the up/down flag. */
  datatype Prices = Prices(current: real, previous: real, change: real, percent: real, positive: bool)

  /** The price columns of the row, or none when the change cannot be computed because
      the current price or the previous close is null. */
  function PriceColumns(p: Payload, closes: seq<real>): (r: Option<Prices>)
    ensures r.Some? <==> (|closes| > 0 || !p.currentPrice.Null?) && !p.previousClose.Null?
    ensures r.Some? ==> var c := r.value;
      // the current price: last close, else the dictionary's price, else 0
      && (|closes| > 0 ==> c.current == Round2(closes[|closes| - 1]))
      && (|closes| == 0 && p.currentPrice.Present? ==> c.current == Round2(p.currentPrice.value))
      && (|closes| == 0 && p.currentPrice.Missing? ==> c.current == 0.0)
      // a missing previous close means no movement at all
      && (p.previousClose.Missing? ==>
            c.previous == c.current && c.change == 0.0 && c.percent == 0.0 && !c.positive)
      && (p.previousClose.Present? ==> c.previous == Round2(p.previousClose.value))
      && (p.previousClose == Present(0.0) ==> c.percent == 0.0)
      // the flag compares the unrounded prices, and agrees in sign with the rounded change
      && (c.positive <==> CurrentPrice(p, closes).value > PreviousClose(p, closes).value)
      && (c.positive ==> c.change >= 0.0)
      && (c.change > 0.0 ==> c.positive)
      && IsCents(c.current) && IsCents(c.previous) && IsCents(c.change) && IsCents(c.percent)
      // the stored change is the change rounded, which may differ from the difference
      // of the stored prices by up to three half-cents
      && -(3.0 / 200.0) <= c.change - (c.current - c.previous) <= 3.0 / 200.0
    // the stored change and percent are the unrounded movement, each rounded once
    ensures r.Some? ==>
      var m := Move(CurrentPrice(p, closes).value, PreviousClose(p, closes).value);
      r.value.change == Round2(m.change) && r.value.percent == Round2(m.percent)
  {
    var current := CurrentPrice(p, closes);
    var previous := PreviousClose(p, closes);
    if current.None? || previous.None? then None
    else
      var m := Move(current.value, previous.value);
      Round2Sign(m.change);
      Round2Exact(0);
      Some(Prices(Round2(current.value), Round2(previous.value), Round2(m.change), Round2(m.percent), m.positive))
  }

  /** A trading-range column: rounded, 0 when the key is missing. */
  function Range(e: Entry<real>): (r: Option<real>)
    ensures r.Some? <==> !e.Null?
    ensures r.Some? ==> IsCents(r.value)
  {
    match e.Get(Some(0.0))
    case None => None
    case Some(v) => Some(Round2(v))
  }

  /** No key that the normalisation needs as a value is present as null: the price
      source, the previous close, the four range keys, and the three text keys that
      fill columns which do not accept null. */
  ghost predicate Complete(p: Payload, closes: seq<real>)
  {
    && (|closes| > 0 || !p.currentPrice.Null?)
    && !p.previousClose.Null?
    && !p.dayHigh.Null? && !p.dayLow.Null?
    && !p.fiftyTwoWeekHigh.Null? && !p.fiftyTwoWeekLow.Null?
    && !p.shortName.Null? && !p.sector.Null? && !p.marketState.Null?
  }

  /** The first step of the normalisation that raises, if any: the price change on a
      null price, rounding a null range value, or writing a null text to a column
      that does not accept one. */
  function FirstFault(p: Payload, closes: seq<real>): (f: Option<Fault>)
    ensures f.None? <==> Complete(p, closes)
  {
    if PriceColumns(p, closes).None? then Some(TypeError("price_change"))
    else if p.dayHigh.Null? then Some(TypeError("day_high"))
    else if p.dayLow.Null? then Some(TypeError("day_low"))
    else if p.fiftyTwoWeekHigh.Null? then Some(TypeError("fifty_two_week_high"))
    else if p.fiftyTwoWeekLow.Null? then Some(TypeError("fifty_two_week_low"))
    else if p.shortName.Null? then Some(IntegrityError("name"))
    else if p.sector.Null? then Some(IntegrityError("sector"))
    else if p.marketState.Null? then Some(IntegrityError("market_state"))
    else None
  }

  /** The row built from a payload with no null where a value is needed. */
  function Build(symbol: string, p: Payload, closes: seq<real>, at: Time): (s: Stock)
    requires Complete(p, closes)
    ensures s.ticker == symbol && s.lastUpdated == at && WellFormed(s)
    ensures var c := PriceColumns(p, closes).value;
      && s.currentPrice == c.current && s.previousClose == c.previous
      && s.priceChange == c.change && s.priceChangePercent == c.percent
      && s.isPositive == c.positive
    // displays
    ensures s.marketCap == FormatLargeNumber(p.marketCap.Find())
      && s.volume == FormatVolume(p.volume.Find())
      && s.avgVolume == FormatVolume(p.averageVolume.Find())
      // ranges default to 0
      && (p.dayHigh.Missing? ==> s.dayHigh == 0.0)
      && (p.dayLow.Missing? ==> s.dayLow == 0.0)
      && (p.fiftyTwoWeekHigh.Missing? ==> s.fiftyTwoWeekHigh == 0.0)
      && (p.fiftyTwoWeekLow.Missing? ==> s.fiftyTwoWeekLow == 0.0)
      && (p.dayHigh.Present? ==> s.dayHigh == Round2(p.dayHigh.value))
      && (p.dayLow.Present? ==> s.dayLow == Round2(p.dayLow.value))
      && (p.fiftyTwoWeekHigh.Present? ==> s.fiftyTwoWeekHigh == Round2(p.fiftyTwoWeekHigh.value))
      && (p.fiftyTwoWeekLow.Present? ==> s.fiftyTwoWeekLow == Round2(p.fiftyTwoWeekLow.value))
      // ratios are passed through: absent stays absent
      && s.peRatio == p.trailingPE.Find() && s.dividendYield == p.dividendYield.Find()
      && s.beta == p.beta.Find() && s.eps == p.trailingEps.Find()
    // texts fall back to the symbol, "N/A" and REGULAR when missing
    ensures (p.shortName.Missing? ==> s.name == symbol)
      && (p.shortName.Present? ==> s.name == p.shortName.value)
      && (p.sector.Missing? ==> s.sector == NotApplicable)
      && (p.sector.Present? ==> s.sector == p.sector.value)
      && (p.marketState.Missing? ==> s.marketState == Regular)
      && (p.marketState.Present? ==> s.marketState == p.marketState.value)
      && s.rsi == PlaceholderRsi
  {
    var c := PriceColumns(p, closes).value;
    Round2Exact(0);
    Stock(symbol, p.shortName.Get(Some(symbol)).value,
          p.sector.Get(Some(NotApplicable)).value,
          c.current, c.previous, c.change, c.percent,
          FormatLargeNumber(p.marketCap.Find()),
          FormatVolume(p.volume.Find()),
          FormatVolume(p.averageVolume.Find()),
          Range(p.dayHigh).value, Range(p.dayLow).value,
          Range(p.fiftyTwoWeekHigh).value, Range(p.fiftyTwoWeekLow).value,
          p.trailingPE.Find(), p.dividendYield.Find(),
          p.beta.Find(), p.trailingEps.Find(),
          PlaceholderRsi, c.positive, p.marketState.Get(Some(Regular)).value, at)
  }

  /** Normalises one ticker's payload into the row written at time `at`, or reports
      the first step that raises. */
  function Normalise(symbol: string, p: Payload, closes: seq<real>, at: Time): (r: Result<Stock, Fault>)
    ensures r.Success? <==> Complete(p, closes)
    ensures r.Success? ==> r.value.ticker == symbol && r.value.lastUpdated == at && WellFormed(r.value)
  {
    match FirstFault(p, closes)
    case Some(f) => Failure(f)
    case None => Success(Build(symbol, p, closes, at))
  }

  /** A payload with every key missing. */
  const EmptyPayload: Payload := Payload(Missing, Missing, Missing, Missing, Missing, Missing,
                                         Missing, Missing, Missing, Missing, Missing, Missing,
                                         Missing, Missing, Missing, Missing)

  /** The up/down flag compares unrounded prices: a rise of a tenth of a cent sets the
      flag while the stored change rounds to zero. */
  lemma RisingFlagWithZeroStoredChange()
    ensures var c := PriceColumns(EmptyPayload.(previousClose := Present(100.0)), [100.001]).value;
      c.positive && c.change == 0.0
  {
    var p := EmptyPayload.(previousClose := Present(100.0));
    assert CurrentPrice(p, [100.001]) == Some(100.001);
    assert NearestCents(100.001 - 100.0) == 0;
  }

  /** The stored change is not always the difference of the stored prices: 0.375 over
      0.125 (both exact in binary) stores prices 0.38 and 0.12 but a change of 0.25. */
  lemma StoredChangeIsNotStoredDifference()
    ensures var c := PriceColumns(EmptyPayload.(previousClose := Present(0.125)), [0.375]).value;
      c.current == 0.38 && c.previous == 0.12 && c.change == 0.25
  {
    var p := EmptyPayload.(previousClose := Present(0.125));
    assert CurrentPrice(p, [0.375]) == Some(0.375);
    assert NearestCents(0.375) == 38;
    assert NearestCents(0.125) == 12;
    assert NearestCents(0.375 - 0.125) == 25;
  }
}
