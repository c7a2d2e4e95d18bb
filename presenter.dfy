/**
 * The two presentation rules that carry logic: the rounded temperature label
 * and the three-tier background chosen by temperature. The DOM writes, the
 * gradient strings and the animations are not modelled.
 */
module Presenter {
  import opened Cache
  import Decimal

  /** The background tier `changeBackground` picks. */
  datatype Background = Hot | Mild | Cool

  /** JavaScript's `Math.round`: to the nearest integer, halves toward +infinity. */
  function Round(x: real): (n: int)
    ensures n as real - 0.5 <= x < n as real + 0.5
  {
    (x + 0.5).Floor
  }

  /** The nearest integer is unique, so `Round` is the only such rounding. */
  lemma RoundIsNearest(x: real, m: int)
    requires m as real - 0.5 <= x < m as real + 0.5
    ensures Round(x) == m
  {
  }

  /** Rounding preserves order. */
  lemma RoundMonotone(x: real, y: real)
    requires x <= y
    ensures Round(x) <= Round(y)
  {
  }

  /** The degree sign followed by C. */
  const CelsiusSuffix: string := "\U{00B0}C"

  /** The text of the `.temp` element: the rounded temperature, then "°C". */
  function TempLabel(temp: real): (s: string)
    ensures |s| > |CelsiusSuffix|
    ensures s[|s| - |CelsiusSuffix|..] == CelsiusSuffix
    ensures Decimal.IsCanonicalInt(s[..|s| - |CelsiusSuffix|])
  {
    Decimal.IntToString(Round(temp)) + CelsiusSuffix
  }

  /** The label is faithful: the number in front of the suffix is the rounded
      temperature. */
  lemma TempLabelDenotesRounded(temp: real)
    ensures var s := TempLabel(temp);
            Decimal.IntValue(s[..|s| - |CelsiusSuffix|]) == Round(temp)
  {
    var s := TempLabel(temp);
    assert s[..|s| - |CelsiusSuffix|] == Decimal.IntToString(Round(temp));
    Decimal.IntRoundTrip(Round(temp));
  }

  /** Concrete labels: 21.6 shows "22°C", 21.4 shows "21°C", 25 shows "25°C",
      a half rounds up (21.5 shows "22°C", -2.5 shows "-2°C") and a small
      negative temperature shows "0°C", as JavaScript prints negative zero. */
  lemma TempLabelExamples()
    ensures TempLabel(21.6) == "22\U{00B0}C"
    ensures TempLabel(21.4) == "21\U{00B0}C"
    ensures TempLabel(25.0) == "25\U{00B0}C"
    ensures TempLabel(21.5) == "22\U{00B0}C"
    ensures TempLabel(-2.5) == "-2\U{00B0}C"
    ensures TempLabel(-0.4) == "0\U{00B0}C"
  {
  }

  /** The tier of `changeBackground`: 30 and above is hot, from 20 below 30 is
      mild, below 20 is cool. */
  function Tier(temp: real): (b: Background)
    ensures b == Hot <==> temp >= 30.0
    ensures b == Mild <==> 20.0 <= temp < 30.0
    ensures b == Cool <==> temp < 20.0
  {
    if temp >= 30.0 then Hot else if temp >= 20.0 then Mild else Cool
  }

  /** The warmth order of the tiers. */
  function Warmth(b: Background): nat {
    match b
    case Cool => 0
    case Mild => 1
    case Hot => 2
  }

  /** A warmer temperature never gets a cooler background. */
  lemma TierMonotone(x: real, y: real)
    requires x <= y
    ensures Warmth(Tier(x)) <= Warmth(Tier(y))
  {
  }

  /** The boundaries belong to the warmer tier. */
  lemma TierExamples()
    ensures Tier(30.0) == Hot && Tier(29.9) == Mild
    ensures Tier(20.0) == Mild && Tier(19.9) == Cool
    ensures Tier(32.0) == Hot && Tier(25.0) == Mild
  {
  }

  /** What `displayWeather` writes, restricted to the fields modelled here.
      Wind speed is a fractional number whose text is not modelled, nor is the
      locale-dependent "Last updated" stamp. */
  datatype View = View(
    city: string,
    temperature: string,
    description: string,
    humidity: string,
    pressure: string,
    background: Background)

  /** The view of one response. */
  function Render(d: Response): View {
    View(d.name, TempLabel(d.temp), d.description,
         Decimal.IntToString(d.humidity) + "%",
         Decimal.IntToString(d.pressure) + " hPa",
         Tier(d.temp))
  }

  /** The view shows the city and the first condition as received, the rounded
      temperature with its unit, the humidity before "%" and the pressure
      before " hPa" as numbers that read back exactly, and the tier of the
      unrounded temperature. */
  lemma RenderFaithful(d: Response)
    ensures var v := Render(d);
      && v.city == d.name && v.description == d.description
      && v.background == Tier(d.temp)
      && v.temperature == TempLabel(d.temp)
      && Decimal.IntValue(v.temperature[..|v.temperature| - |CelsiusSuffix|]) == Round(d.temp)
      && |v.humidity| >= 2 && v.humidity[|v.humidity| - 1] == '%'
      && Decimal.IsCanonicalInt(v.humidity[..|v.humidity| - 1])
      && Decimal.IntValue(v.humidity[..|v.humidity| - 1]) == d.humidity
      && |v.pressure| >= 5 && v.pressure[|v.pressure| - 4..] == " hPa"
      && Decimal.IsCanonicalInt(v.pressure[..|v.pressure| - 4])
      && Decimal.IntValue(v.pressure[..|v.pressure| - 4]) == d.pressure
  {
    var v := Render(d);
    TempLabelDenotesRounded(d.temp);
    Decimal.IntRoundTrip(d.humidity);
    Decimal.IntRoundTrip(d.pressure);
    assert v.humidity[..|v.humidity| - 1] == Decimal.IntToString(d.humidity);
    assert v.pressure[..|v.pressure| - 4] == Decimal.IntToString(d.pressure);
  }
}
