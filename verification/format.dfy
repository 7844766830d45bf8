/** The two magnitude formatters applied to market capitalisation and to trading
    volume. A formatted value is modelled as the tier it falls into plus the value
    scaled down to that tier; turning the scaled value into decimal digits (two
    decimals for a lettered tier, a comma-grouped whole number for the plain tier) is
    rendering and is not modelled. */
module Format {
  import opened Wrappers

  /** The magnitude tiers, printed with the suffix T, B, M, K, or none for plain units. */
  datatype Tier = Trillions | Billions | Millions | Thousands | Units

  const Thousand: real := 1000.0
  const Million: real := 1000000.0
  const Billion: real := 1000000000.0
  const Trillion: real := 1000000000000.0

  /** The amount one unit of the tier stands for. */
  function Divisor(t: Tier): (d: real)
    ensures d >= 1.0
  {
    match t
    case Trillions => Trillion
    case Billions => Billion
    case Millions => Million
    case Thousands => Thousand
    case Units => 1.0
  }

  /** A display string: "N/A", or an optional "$", a scaled value and a tier suffix. */
  datatype Display = NotAvailable | Shown(currency: bool, tier: Tier, scaled: real) {

    /** The characters printed before the digits. */
    function Prefix(): (s: string)
      ensures s == "$" <==> Shown? && currency
      ensures s == "" <==> !(Shown? && currency)
    {
      if Shown? && currency then "$" else ""
    }
  }

  /** The thresholds a formatter tries, largest first. */
  const LargeNumberLadder: seq<Tier> := [Trillions, Billions, Millions]
  const VolumeLadder: seq<Tier> := [Billions, Millions, Thousands]

  /** The position of the first threshold of the ladder that `v` meets, or the
      length of the ladder when it meets none: the chain of `if v >= ... elif v >= ...
      else` in the formatters. */
  function FirstMet(ladder: seq<Tier>, v: real): (i: nat)
    ensures i <= |ladder|
    ensures i < |ladder| ==> v >= Divisor(ladder[i])
    ensures forall j :: 0 <= j < i ==> v < Divisor(ladder[j])
    decreases |ladder|
  {
    if |ladder| == 0 then 0
    else if v >= Divisor(ladder[0]) then 0
    else
      var i := FirstMet(ladder[1..], v);
      assert forall j :: 1 <= j < |ladder| ==> ladder[j] == ladder[1..][j - 1];
      i + 1
  }

  /** The tier of the first threshold met, or the plain tier. */
  function PickTier(ladder: seq<Tier>, v: real): Tier
  {
    var i := FirstMet(ladder, v);
    if i < |ladder| then ladder[i] else Units
  }

  /** `v` expressed in units of tier `t`. */
  function Scale(v: real, t: Tier): (s: real)
    ensures s * Divisor(t) == v
  {
    var unit := Divisor(t);
    assert (v / unit) * unit == v;
    v / unit
  }

  /** Formats `value` against a ladder; `currency` says whether a "$" is printed. */
  function Format(currency: bool, ladder: seq<Tier>, value: Option<real>): (d: Display)
    ensures d.NotAvailable? <==> value.None?
    ensures d.Shown? ==> d.currency == currency && d.tier == PickTier(ladder, value.value)
    ensures d.Shown? ==> d.scaled * Divisor(d.tier) == value.value
  {
    match value
    case None => NotAvailable
    case Some(v) =>
      var t := PickTier(ladder, v);
      Shown(currency, t, Scale(v, t))
  }

  /** `format_large_number`: "N/A" for an absent value, otherwise a "$" amount in
      trillions, billions or millions by the first threshold met, or the plain amount
      below a million. */
  function FormatLargeNumber(value: Option<real>): (d: Display)
    ensures d.NotAvailable? <==> value.None?
    ensures d.Shown? ==> d.currency && d.Prefix() == "$"
    ensures d.Shown? ==> d.scaled * Divisor(d.tier) == value.value
    ensures d.Shown? ==> d.tier != Thousands
    ensures d.Shown? ==> (d.tier == Trillions <==> value.value >= Trillion)
    ensures d.Shown? ==> (d.tier == Billions <==> Billion <= value.value < Trillion)
    ensures d.Shown? ==> (d.tier == Millions <==> Million <= value.value < Billion)
    ensures d.Shown? ==> (d.tier == Units <==> value.value < Million)
    ensures d.Shown? && d.tier != Units ==> 1.0 <= d.scaled
    ensures d.Shown? && d.tier != Units && d.tier != Trillions ==> d.scaled < Thousand
  {
    match value
    case None => Format(true, LargeNumberLadder, value)
    case Some(v) =>
      var t := PickTier(LargeNumberLadder, v);
      LargeNumberTier(v);
      ScaledRange(v, t);
      Format(true, LargeNumberLadder, value)
  }

  /** `format_volume`: "N/A" for an absent value, otherwise an amount without "$" in
      billions, millions or thousands by the first threshold met, or the plain amount
      below a thousand. */
  function FormatVolume(value: Option<real>): (d: Display)
    ensures d.NotAvailable? <==> value.None?
    ensures d.Shown? ==> !d.currency && d.Prefix() == ""
    ensures d.Shown? ==> d.scaled * Divisor(d.tier) == value.value
    ensures d.Shown? ==> d.tier != Trillions
    ensures d.Shown? ==> (d.tier == Billions <==> value.value >= Billion)
    ensures d.Shown? ==> (d.tier == Millions <==> Million <= value.value < Billion)
    ensures d.Shown? ==> (d.tier == Thousands <==> Thousand <= value.value < Million)
    ensures d.Shown? ==> (d.tier == Units <==> value.value < Thousand)
    ensures d.Shown? && d.tier != Units ==> 1.0 <= d.scaled
    ensures d.Shown? && d.tier != Units && d.tier != Billions ==> d.scaled < Thousand
  {
    match value
    case None => Format(false, VolumeLadder, value)
    case Some(v) =>
      var t := PickTier(VolumeLadder, v);
      VolumeTier(v);
      ScaledRange(v, t);
      Format(false, VolumeLadder, value)
  }

  /** On the market-capitalisation ladder the first threshold met is the tier whose
      interval holds the value. */
  lemma LargeNumberTier(v: real)
    ensures var t := PickTier(LargeNumberLadder, v);
      && (t == Trillions <==> v >= Trillion)
      && (t == Billions <==> Billion <= v < Trillion)
      && (t == Millions <==> Million <= v < Billion)
      && (t == Units <==> v < Million)
  {
    var ladder := LargeNumberLadder;
    var i := FirstMet(ladder, v);
    assert ladder[0] == Trillions && ladder[1] == Billions && ladder[2] == Millions;
    if i >= 1 { assert v < Divisor(ladder[0]); }
    if i >= 2 { assert v < Divisor(ladder[1]); }
    if i >= 3 { assert v < Divisor(ladder[2]); }
  }

  /** On the volume ladder the first threshold met is the tier whose interval holds
      the value. */
  lemma VolumeTier(v: real)
    ensures var t := PickTier(VolumeLadder, v);
      && (t == Billions <==> v >= Billion)
      && (t == Millions <==> Million <= v < Billion)
      && (t == Thousands <==> Thousand <= v < Million)
      && (t == Units <==> v < Thousand)
  {
    var ladder := VolumeLadder;
    var i := FirstMet(ladder, v);
    assert ladder[0] == Billions && ladder[1] == Millions && ladder[2] == Thousands;
    if i >= 1 { assert v < Divisor(ladder[0]); }
    if i >= 2 { assert v < Divisor(ladder[1]); }
    if i >= 3 { assert v < Divisor(ladder[2]); }
  }

  /** A value at or above a lettered tier's threshold and below the next one scales to
      at least 1 and below 1000. */
  lemma ScaledRange(v: real, t: Tier)
    ensures t != Units && v >= Divisor(t) ==> Scale(v, t) >= 1.0
    ensures t != Units && t != Trillions && v < Thousand * Divisor(t) ==> Scale(v, t) < Thousand
  {
  }

  /** The two formatters agree on every value from a million up to (not including) a
      trillion, up to the "$": both print it in billions or millions, scaled alike. */
  lemma FormattersAgreeInMidRange(v: real)
    requires Million <= v < Trillion
    ensures FormatLargeNumber(Some(v)).tier == FormatVolume(Some(v)).tier
    ensures FormatLargeNumber(Some(v)).scaled == FormatVolume(Some(v)).scaled
    ensures FormatLargeNumber(Some(v)).currency != FormatVolume(Some(v)).currency
  {
  }
}
