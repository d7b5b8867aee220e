/** The free-text planner (js/planner.js): pick the cities that match the
    query or the continent, evaluate them one after another, keep those warm
    and dry enough, and show the five warmest. The forecast request is the
    parameter `fetch`, `None` where the request, the JSON decoding or a
    property access on the response throws. Temperatures arrive in degrees
    Fahrenheit, as the request asks for them. */
module Planner {
  import opened Wrappers
  import opened Seqs
  import opened StableSort
  import opened Text

  datatype City = City(name: string, lat: real, lon: real, continent: string)

  /** The daily maximum temperatures and precipitation of one response. */
  datatype Forecast = Forecast(tempsF: seq<real>, rainMm: seq<real>)

  /** A kept destination: its mean daily maximum and its rain total. */
  datatype Place = Place(name: string, avgTemp: real, rainTotal: real)

  datatype PlanError = InvalidDateRange | NoMatches

  /** Rain total (mm) at or above which a city is dropped when rain is excluded. */
  const RainLimit: real := 5.0

  /** The text box after `.trim().toLowerCase()`. */
  function NormalizeQuery(raw: string): (q: string)
    ensures |q| <= |raw|
    ensures forall i :: 0 <= i < |q| ==> !('A' <= q[i] <= 'Z')
    ensures q == [] <==> forall i :: 0 <= i < |raw| ==> IsJsSpace(raw[i])
  {
    TrimEmptyIffBlank(raw);
    ToLower(Trim(raw))
  }

  /** The filter applied to each city: a non-empty query matches
      case-insensitively anywhere in the name; otherwise an empty continent
      selects everything and a chosen one selects its own cities. */
  predicate Selected(c: City, query: string, continent: string)
    ensures query != "" && Selected(c, query, continent) ==> |query| <= |c.name|
    ensures query != "" && query == ToLower(c.name) ==> Selected(c, query, continent)
    ensures query == "" && continent == "" ==> Selected(c, query, continent)
  {
    if query != "" then Includes(ToLower(c.name), query)
    else continent == "" || c.continent == continent
  }

  function MatchCities(cities: seq<City>, query: string, continent: string): (r: seq<City>)
    ensures |r| <= |cities|
    ensures query != "" ==>
      forall c :: c in r <==> c in cities && Includes(ToLower(c.name), query)
    ensures query == "" && continent == "" ==> r == cities
    ensures query == "" && continent != "" ==>
      forall c :: c in r <==> c in cities && c.continent == continent
  {
    if |cities| == 0 then []
    else
      var rest := MatchCities(cities[1..], query, continent);
      assert forall c :: c in cities <==> c == cities[0] || c in cities[1..];
      (if Selected(cities[0], query, continent) then [cities[0]] else []) + rest
  }

  /** Filtering keeps the input order: it distributes over concatenation. */
  lemma {:induction false} MatchCitiesAppend(a: seq<City>, b: seq<City>, query: string, continent: string)
    ensures MatchCities(a + b, query, continent) == MatchCities(a, query, continent) + MatchCities(b, query, continent)
    decreases |a|
  {
    if |a| == 0 {
      assert a + b == b;
    } else {
      var head := if Selected(a[0], query, continent) then [a[0]] else [];
      assert (a + b)[0] == a[0];
      assert (a + b)[1..] == a[1..] + b;
      MatchCitiesAppend(a[1..], b, query, continent);
      calc {
        MatchCities(a + b, query, continent);
        head + MatchCities(a[1..] + b, query, continent);
        head + (MatchCities(a[1..], query, continent) + MatchCities(b, query, continent));
        (head + MatchCities(a[1..], query, continent)) + MatchCities(b, query, continent);
      }
    }
  }

  /** The inclusion rule. An empty temperature array gives a NaN mean, and no
      comparison with NaN holds, so such a city is never kept. A kept city
      reached the preferred temperature on at least one day, and one that
      reached it every day (and is dry enough, if asked) is kept. */
  predicate Included(f: Forecast, preferredTempF: int, excludeRain: bool)
    ensures Included(f, preferredTempF, excludeRain) ==>
      exists i :: 0 <= i < |f.tempsF| && f.tempsF[i] >= preferredTempF as real
    ensures (|f.tempsF| > 0 && (forall i :: 0 <= i < |f.tempsF| ==> f.tempsF[i] >= preferredTempF as real)
             && (!excludeRain || Sum(f.rainMm) < RainLimit)) ==> Included(f, preferredTempF, excludeRain)
  {
    if |f.tempsF| == 0 then false
    else
      MeanAtLeast(f.tempsF, preferredTempF as real);
      Mean(f.tempsF) >= preferredTempF as real && (!excludeRain || Sum(f.rainMm) < RainLimit)
  }

  /** When rain is not excluded the rain figures never affect inclusion. */
  lemma RainIrrelevantUnlessExcluded(temps: seq<real>, rain1: seq<real>, rain2: seq<real>, preferredTempF: int)
    ensures Included(Forecast(temps, rain1), preferredTempF, false)
        <==> Included(Forecast(temps, rain2), preferredTempF, false)
  {
  }

  /** One iteration of the loop: the place pushed for `c`, if any. */
  function Evaluate(c: City, fetch: City -> Option<Forecast>, preferredTempF: int, excludeRain: bool): (r: Option<Place>)
    ensures r.Some? <==> fetch(c).Some? && Included(fetch(c).value, preferredTempF, excludeRain)
    ensures r.Some? ==> (r.value.name == c.name
                         && r.value.avgTemp == Mean(fetch(c).value.tempsF)
                         && r.value.rainTotal == Sum(fetch(c).value.rainMm))
    ensures r.Some? ==> (r.value.avgTemp >= preferredTempF as real
                         && (excludeRain ==> r.value.rainTotal < RainLimit))
  {
    match fetch(c)
    case None => None
    case Some(f) =>
      if Included(f, preferredTempF, excludeRain)
      then Some(Place(c.name, Mean(f.tempsF), Sum(f.rainMm)))
      else None
  }

  /** `p` is the place some city of `cities` yields. */
  predicate PlaceOf(cities: seq<City>, fetch: City -> Option<Forecast>, preferredTempF: int, excludeRain: bool, p: Place)
  {
    exists c :: c in cities && Evaluate(c, fetch, preferredTempF, excludeRain) == Some(p)
  }

  /** What the loop accumulates over `cities`, in order. */
  function KeptPlaces(cities: seq<City>, fetch: City -> Option<Forecast>, preferredTempF: int, excludeRain: bool): (kept: seq<Place>)
    ensures |kept| <= |cities|
    ensures forall p :: p in kept ==>
      p.avgTemp >= preferredTempF as real && (excludeRain ==> p.rainTotal < RainLimit)
    ensures forall p :: p in kept ==> PlaceOf(cities, fetch, preferredTempF, excludeRain, p)
    ensures forall c :: c in cities && Evaluate(c, fetch, preferredTempF, excludeRain).Some? ==>
      Evaluate(c, fetch, preferredTempF, excludeRain).value in kept
    decreases |cities|
  {
    if |cities| == 0 then []
    else
      var n := |cities| - 1;
      var rest := KeptPlaces(cities[..n], fetch, preferredTempF, excludeRain);
      assert forall c :: c in cities <==> c in cities[..n] || c == cities[n] by {
        assert cities == cities[..n] + [cities[n]];
      }
      match Evaluate(cities[n], fetch, preferredTempF, excludeRain)
      case None => rest
      case Some(p) => rest + [p]
  }

  /** Cities are evaluated independently: the places kept for a list are
      those kept for its first part followed by those kept for the rest. */
  lemma {:induction false} KeptPlacesAppend(a: seq<City>, b: seq<City>, fetch: City -> Option<Forecast>, preferredTempF: int, excludeRain: bool)
    ensures KeptPlaces(a + b, fetch, preferredTempF, excludeRain)
         == KeptPlaces(a, fetch, preferredTempF, excludeRain) + KeptPlaces(b, fetch, preferredTempF, excludeRain)
    decreases |b|
  {
    if |b| == 0 {
      assert a + b == a;
    } else {
      var n := |b| - 1;
      assert (a + b)[..|a + b| - 1] == a + b[..n];
      assert (a + b)[|a + b| - 1] == b[n];
      KeptPlacesAppend(a, b[..n], fetch, preferredTempF, excludeRain);
    }
  }

  /** A city whose request throws is skipped and the loop carries on: the
      result is the one for the list without that city. */
  lemma {:induction false} FailedCitySkipped(a: seq<City>, c: City, b: seq<City>, fetch: City -> Option<Forecast>, preferredTempF: int, excludeRain: bool)
    requires fetch(c).None?
    ensures KeptPlaces(a + [c] + b, fetch, preferredTempF, excludeRain)
         == KeptPlaces(a + b, fetch, preferredTempF, excludeRain)
  {
    KeptPlacesAppend(a + [c], b, fetch, preferredTempF, excludeRain);
    KeptPlacesAppend(a, [c], fetch, preferredTempF, excludeRain);
    KeptPlacesAppend(a, b, fetch, preferredTempF, excludeRain);
    assert [c][..0] == [];
  }

  /** The `for ... of` loop with its `try`/`catch`. */
  method EvaluateCities(cities: seq<City>, fetch: City -> Option<Forecast>, preferredTempF: int, excludeRain: bool)
    returns (kept: seq<Place>)
    ensures kept == KeptPlaces(cities, fetch, preferredTempF, excludeRain)
  {
    kept := [];
    var i := 0;
    while i < |cities|
      invariant 0 <= i <= |cities|
      invariant kept == KeptPlaces(cities[..i], fetch, preferredTempF, excludeRain)
    {
      assert cities[..i + 1][..i] == cities[..i];
      var outcome := fetch(cities[i]);
      if outcome.Some? {
        var f := outcome.value;
        if Included(f, preferredTempF, excludeRain) {
          kept := kept + [Place(cities[i].name, Mean(f.tempsF), Sum(f.rainMm))];
        }
      }
      i := i + 1;
    }
    assert cities[..i] == cities;
  }

  function AvgTempKey(p: Place): real
  {
    p.avgTemp
  }

  /** `resultsArr.sort((a, b) => b.avgTemp - a.avgTemp).slice(0, 5)`. */
  function TopPlaces(kept: seq<Place>): (top: seq<Place>)
    ensures |top| == Min(TopCount, |kept|)
    ensures forall i, j :: 0 <= i < j < |top| ==> top[i].avgTemp >= top[j].avgTemp
    ensures multiset(top) <= multiset(kept)
    ensures forall p, i :: p in kept && 0 <= i < |top| && p.avgTemp > top[i].avgTemp ==> p in top
  {
    var top := TopN(kept, AvgTempKey, TopCount);
    assert forall i, j :: 0 <= i < j < |top| ==> AvgTempKey(top[i]) >= AvgTempKey(top[j]);
    top
  }

  lemma {:induction false} TopPlacesFromKept(kept: seq<Place>)
    ensures forall p :: p in TopPlaces(kept) ==> p in kept
  {
    forall p | p in TopPlaces(kept) ensures p in kept {
      assert p in multiset(TopPlaces(kept));
    }
  }

  /** The places the loop keeps for the typed query and the chosen continent. */
  function KeptFor(rawQuery: string, continent: string, cities: seq<City>,
                   fetch: City -> Option<Forecast>, preferredTempF: int, excludeRain: bool): seq<Place>
  {
    KeptPlaces(MatchCities(cities, NormalizeQuery(rawQuery), continent), fetch, preferredTempF, excludeRain)
  }

  /** No city of `cities` yields a place warmer than a shown one without
      that place being shown. */
  predicate ShowsAllWarmer(cities: seq<City>, fetch: City -> Option<Forecast>, preferredTempF: int, excludeRain: bool,
                           top: seq<Place>)
  {
    forall c, i :: c in cities && 0 <= i < |top| && Evaluate(c, fetch, preferredTempF, excludeRain).Some?
                   && Evaluate(c, fetch, preferredTempF, excludeRain).value.avgTemp > top[i].avgTemp
                   ==> Evaluate(c, fetch, preferredTempF, excludeRain).value in top
  }

  /** The shown places, stated against the cities they come from. */
  lemma TopPlacesOfCities(cities: seq<City>, fetch: City -> Option<Forecast>, preferredTempF: int, excludeRain: bool)
    ensures var top := TopPlaces(KeptPlaces(cities, fetch, preferredTempF, excludeRain));
            (forall p :: p in top ==> PlaceOf(cities, fetch, preferredTempF, excludeRain, p))
            && ShowsAllWarmer(cities, fetch, preferredTempF, excludeRain, top)
  {
    var kept := KeptPlaces(cities, fetch, preferredTempF, excludeRain);
    TopPlacesFromKept(kept);
  }

  /** The submit handler. A start or end that is not a valid date (`None`)
      stops before any city is looked at; otherwise the matched cities are
      evaluated, and either nothing is kept or the five warmest are shown. */
  function Plan(start: Option<int>, end: Option<int>, rawQuery: string, continent: string, cities: seq<City>,
                fetch: City -> Option<Forecast>, preferredTempF: int, excludeRain: bool): (r: Result<seq<Place>, PlanError>)
    ensures r == Failure(InvalidDateRange) <==> start.None? || end.None?
    ensures start.Some? && end.Some? ==>
      (r == Failure(NoMatches) <==> KeptFor(rawQuery, continent, cities, fetch, preferredTempF, excludeRain) == [])
    ensures r.Success? ==> (r.value == TopPlaces(KeptFor(rawQuery, continent, cities, fetch, preferredTempF, excludeRain))
                            && |r.value| == Min(TopCount, |KeptFor(rawQuery, continent, cities, fetch, preferredTempF, excludeRain)|))
    ensures r.Success? ==> 1 <= |r.value| <= TopCount
    ensures r.Success? ==> forall i, j :: 0 <= i < j < |r.value| ==> r.value[i].avgTemp >= r.value[j].avgTemp
    ensures r.Success? ==> forall p :: p in r.value ==>
      p.avgTemp >= preferredTempF as real && (excludeRain ==> p.rainTotal < RainLimit)
    ensures r.Success? ==> forall p :: p in r.value ==>
      PlaceOf(MatchCities(cities, NormalizeQuery(rawQuery), continent), fetch, preferredTempF, excludeRain, p)
    ensures r.Success? ==>
      ShowsAllWarmer(MatchCities(cities, NormalizeQuery(rawQuery), continent), fetch, preferredTempF, excludeRain, r.value)
  {
    if start.None? || end.None? then Failure(InvalidDateRange)
    else
      var matched := MatchCities(cities, NormalizeQuery(rawQuery), continent);
      var kept := KeptPlaces(matched, fetch, preferredTempF, excludeRain);
      if kept == [] then Failure(NoMatches)
      else
        TopPlacesOfCities(matched, fetch, preferredTempF, excludeRain);
        Success(TopPlaces(kept))
  }

  /** An invalid date decides the outcome before any request: the answer does
      not depend on what the forecast service would return. */
  lemma InvalidDateFetchesNothing(start: Option<int>, end: Option<int>, rawQuery: string, continent: string,
                                  cities: seq<City>, fetch1: City -> Option<Forecast>, fetch2: City -> Option<Forecast>,
                                  preferredTempF: int, excludeRain: bool)
    requires start.None? || end.None?
    ensures Plan(start, end, rawQuery, continent, cities, fetch1, preferredTempF, excludeRain)
         == Plan(start, end, rawQuery, continent, cities, fetch2, preferredTempF, excludeRain)
         == Failure(InvalidDateRange)
  {
  }
}
