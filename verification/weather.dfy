/** Unit conversion, the preference score and the per-city aggregation of
    the continent search (script.js `cToF`, `scoreWeather` and the body of
    the per-city callback). Temperatures and rain are exact reals. */
module Weather {
  import opened Wrappers
  import opened Seqs

  /** `cToF(c)`: degrees Celsius to degrees Fahrenheit. */
  function CToF(c: real): (f: real)
    ensures c == 0.0 ==> f == 32.0
    ensures c == 100.0 ==> f == 212.0
  {
    c * 9.0 / 5.0 + 32.0
  }

  /** The inverse conversion, used only to state that `CToF` loses nothing. */
  function FToC(f: real): real
  {
    (f - 32.0) * 5.0 / 9.0
  }

  lemma CToFRoundTrip(c: real, f: real)
    ensures FToC(CToF(c)) == c
    ensures CToF(FToC(f)) == f
  {
  }

  lemma CToFStrictlyIncreasing(a: real, b: real)
    ensures a < b <==> CToF(a) < CToF(b)
  {
  }

  /** Converting a midpoint is the midpoint of the conversions. */
  lemma CToFMidpoint(a: real, b: real)
    ensures CToF((a + b) / 2.0) == (CToF(a) + CToF(b)) / 2.0
  {
  }

  /** The user's wishes. An empty temperature field is `None`. */
  datatype Preference = Preference(minTempF: Option<real>, maxTempF: Option<real>, excludeRain: bool)

  /** The temperature condition as the source applies it: it constrains only
      when both bounds are given, and then inclusively at both ends. */
  predicate TempAccepted(pref: Preference, avgTempF: real)
  {
    pref.minTempF.Some? && pref.maxTempF.Some? ==>
      pref.minTempF.value <= avgTempF <= pref.maxTempF.value
  }

  /** The rain condition: only a completely dry period passes when rain is
      excluded. */
  predicate RainAccepted(pref: Preference, totalRain: real)
  {
    pref.excludeRain ==> totalRain == 0.0
  }

  /** `scoreWeather`: one point per condition met. */
  function ScoreWeather(pref: Preference, avgTempF: real, totalRain: real): (score: int)
    ensures 0 <= score <= 2
    ensures score == 2 <==> TempAccepted(pref, avgTempF) && RainAccepted(pref, totalRain)
    ensures score == 0 <==> !TempAccepted(pref, avgTempF) && !RainAccepted(pref, totalRain)
  {
    var tempPoint :=
      if pref.minTempF.Some? && pref.maxTempF.Some? then
        (if avgTempF >= pref.minTempF.value && avgTempF <= pref.maxTempF.value then 1 else 0)
      else 1;
    var rainPoint :=
      if pref.excludeRain then (if totalRain == 0.0 then 1 else 0) else 1;
    tempPoint + rainPoint
  }

  /** With no temperature bounds and rain allowed every city scores 2. */
  lemma NoPreferencesScoreTwo(avgTempF: real, totalRain: real)
    ensures ScoreWeather(Preference(None, None, false), avgTempF, totalRain) == 2
  {
  }

  /** A single temperature bound is ignored: the score does not depend on the
      temperature at all unless both bounds are set. */
  lemma SingleBoundIgnored(pref: Preference, t1: real, t2: real, totalRain: real)
    requires pref.minTempF.None? || pref.maxTempF.None?
    ensures ScoreWeather(pref, t1, totalRain) == ScoreWeather(pref, t2, totalRain)
    ensures ScoreWeather(pref, t1, totalRain) >= 1
  {
  }

  /** With rain allowed the rain term always contributes, and with both bounds
      set the score is 2 exactly when the temperature lies in the closed
      interval and 1 otherwise. */
  lemma BothBoundsInclusive(lo: real, hi: real, avgTempF: real, totalRain: real)
    ensures ScoreWeather(Preference(Some(lo), Some(hi), false), avgTempF, totalRain)
         == if lo <= avgTempF <= hi then 2 else 1
  {
  }

  /** With no temperature bounds and rain excluded the score is 2 exactly for
      a dry period and 1 otherwise. */
  lemma RainExcludedNeedsDry(avgTempF: real, totalRain: real)
    ensures ScoreWeather(Preference(None, None, true), avgTempF, totalRain)
         == if totalRain == 0.0 then 2 else 1
  {
  }

  /** A forecast response's daily arrays, in degrees Celsius and millimetres. */
  datatype DailySeries = DailySeries(maxC: seq<real>, minC: seq<real>, rainMm: seq<real>)

  /** The loop runs over the length of the maximum series and reads the other
      two at the same indices, so they must be at least as long; an empty
      series would divide by zero. */
  predicate WellFormed(d: DailySeries)
  {
    |d.maxC| > 0 && |d.minC| >= |d.maxC| && |d.rainMm| >= |d.maxC|
  }

  /** Summary of one city's period, before the score is added. */
  datatype Summary = Summary(avgMaxF: real, avgMinF: real, avgTempF: real, totalRain: real)

  /** What the per-city aggregation computes: the means of the first `len`
      maximum and minimum temperatures in Fahrenheit, their midpoint, and the
      plain rain total over the same days. */
  function Summarize(d: DailySeries): (s: Summary)
    requires WellFormed(d)
    ensures s.avgMaxF == CToF(Mean(d.maxC))
    ensures s.avgMinF == CToF(Mean(d.minC[..|d.maxC|]))
    ensures s.totalRain == Sum(d.rainMm[..|d.maxC|])
    ensures s.avgTempF == CToF((Mean(d.maxC) + Mean(d.minC[..|d.maxC|])) / 2.0)
    ensures s.avgMinF <= s.avgMaxF ==> s.avgMinF <= s.avgTempF <= s.avgMaxF
    ensures s.avgMaxF <= s.avgMinF ==> s.avgMaxF <= s.avgTempF <= s.avgMinF
  {
    var n := |d.maxC|;
    var avgMaxF := CToF(Sum(d.maxC) / n as real);
    var avgMinF := CToF(Sum(d.minC[..n]) / n as real);
    CToFMidpoint(Mean(d.maxC), Mean(d.minC[..n]));
    Summary(avgMaxF, avgMinF, (avgMaxF + avgMinF) / 2.0, Sum(d.rainMm[..n]))
  }

  /** Daily values that all lie in a band give a summary in the converted band. */
  lemma SummaryWithinBand(d: DailySeries, lo: real, hi: real)
    requires WellFormed(d)
    requires forall i :: 0 <= i < |d.maxC| ==> lo <= d.maxC[i] <= hi && lo <= d.minC[i] <= hi
    ensures CToF(lo) <= Summarize(d).avgMaxF <= CToF(hi)
    ensures CToF(lo) <= Summarize(d).avgMinF <= CToF(hi)
    ensures CToF(lo) <= Summarize(d).avgTempF <= CToF(hi)
  {
    var n := |d.maxC|;
    MeanBetween(d.maxC, lo, hi);
    MeanBetween(d.minC[..n], lo, hi);
    CToFStrictlyIncreasing(lo, Mean(d.maxC));
    CToFStrictlyIncreasing(Mean(d.maxC), hi);
    CToFStrictlyIncreasing(lo, Mean(d.minC[..n]));
    CToFStrictlyIncreasing(Mean(d.minC[..n]), hi);
  }

  /** The per-city loop of the continent search: running sums over the
      indices of the maximum series, then means, conversion and midpoint. */
  method AggregateDaily(d: DailySeries) returns (s: Summary)
    requires WellFormed(d)
    ensures s == Summarize(d)
  {
    var sumMax, sumMin, sumRain := 0.0, 0.0, 0.0;
    var len := |d.maxC|;
    var i := 0;
    while i < len
      invariant 0 <= i <= len
      invariant sumMax == Sum(d.maxC[..i])
      invariant sumMin == Sum(d.minC[..i])
      invariant sumRain == Sum(d.rainMm[..i])
    {
      assert d.maxC[..i + 1][..i] == d.maxC[..i];
      assert d.minC[..i + 1][..i] == d.minC[..i];
      assert d.rainMm[..i + 1][..i] == d.rainMm[..i];
      sumMax := sumMax + d.maxC[i];
      sumMin := sumMin + d.minC[i];
      sumRain := sumRain + d.rainMm[i];
      i := i + 1;
    }
    assert d.maxC[..len] == d.maxC;
    var avgMaxF := CToF(sumMax / len as real);
    var avgMinF := CToF(sumMin / len as real);
    s := Summary(avgMaxF, avgMinF, (avgMaxF + avgMinF) / 2.0, sumRain);
  }

  /** A city's entry in the continent ranking. */
  datatype CityResult = CityResult(name: string, avgMaxF: real, avgMinF: real, totalRain: real, score: int)

  /** The per-city callback once the response has daily data: summarise and
      score. */
  function EvaluateCity(name: string, d: DailySeries, pref: Preference): (c: CityResult)
    requires WellFormed(d)
    ensures 0 <= c.score <= 2
    ensures c.name == name && c.totalRain == Sum(d.rainMm[..|d.maxC|])
    ensures c.avgMaxF == CToF(Mean(d.maxC)) && c.avgMinF == CToF(Mean(d.minC[..|d.maxC|]))
    ensures c.score == ScoreWeather(pref, Summarize(d).avgTempF, c.totalRain)
    ensures c.score == 2 <==> TempAccepted(pref, Summarize(d).avgTempF) && RainAccepted(pref, c.totalRain)
  {
    var s := Summarize(d);
    CityResult(name, s.avgMaxF, s.avgMinF, s.totalRain, ScoreWeather(pref, s.avgTempF, s.totalRain))
  }
}
