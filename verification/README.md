# Trip planner destination ranking — a Dafny model

This project models the decision logic of a small travel-planning front end.
The front end asks a weather forecast service about candidate destinations,
scores them against the user's temperature and rain preferences, and shows
the best five. Two pages share that idea:

- `script.js` handles two searches. One is for a single typed location, which
  may be a literal `lat,lon` pair. The other covers every city of a chosen
  continent. Both first check the trip dates. The continent search requests
  all cities at once, drops malformed responses, scores each city 0–2 and
  ranks by score.
- `js/planner.js` picks cities whose name contains the typed text, or that
  lie on the chosen continent. It evaluates them one at a time, skipping any
  that fail. It keeps a city when the mean daily maximum is warm enough and,
  if asked, the rain total is dry enough. It shows the five warmest.

Modules, one per concept:

| module | file | what it holds |
|---|---|---|
| `Wrappers` | wrappers.dfy | `Option` (a value that may be `null`, or a call that may throw) and `Result` |
| `Seqs` | seqs.dfy | left-to-right `Sum`, `Mean`, `Take` (= `slice(0, n)`) |
| `StableSort` | stable_sort.dfy | stable descending insertion sort by a key, tie groups (`KeyClass`), `TopN` |
| `Text` | text.dfy | `trim`, `split` on one character, `join`, ASCII lower-casing, `includes` |
| `Coords` | coords.dfy | `parseCoords` |
| `TripDates` | trip_dates.dfy | `dateDiffInDays` and the ordered date checks |
| `Weather` | weather.dfy | `cToF`, `scoreWeather`, the per-city aggregation loop of the continent search |
| `Continent` | continent.dfy | the continent search: batch outcome, null filter, score ranking, top five |
| `Planner` | planner.dfy | js/planner.js: city matching, the failure-skipping loop, inclusion rule, top five |

Conventions:

- Timestamps are integer milliseconds. `now` is a parameter.
- Temperatures and rain amounts are exact `real`s.
- `parseFloat` is a parameter `string -> Option<real>`; `None` means NaN.
- Forecast requests are parameters or values. A planner request is a function
  `City -> Option<Forecast>`, where `None` means the request, the decoding or
  a property access threw. A continent request is a `FetchOutcome`:
  `Rejected`, `Malformed` (no daily maximum series), or `Daily(...)`.

In these places the model follows the code, whose behaviour may surprise a
reader:

- The "start in the past" check compares with the current instant, not the
  current date (script.js:97-101).
- In the continent search, one rejected request rejects `Promise.all`, so the
  whole search fails (script.js:200, 222). It does not just drop that city.
  Only a response without daily data becomes `null` and is dropped
  (script.js:171).
- A single temperature bound is ignored. The temperature point is given
  unless both bounds are set (script.js:62-66).
- An empty forecast series is not rejected by the code; it produces NaN. The
  model requires non-empty series instead (see Left out).

## Model

| member | source | states |
|---|---|---|
| Coords.ParseCoords | script.js:25-33 | coordinates come back only when the input has exactly one comma |
| Coords.ParseCoordsOfPair | script.js:25-33 | for `a,b` with comma-free halves, the result is the two parsed numbers when both trimmed halves parse, and null otherwise |
| Coords.OneCommaIsPair | script.js:26-27 | every input with exactly one comma splits into two comma-free halves that rebuild it |
| Seqs.Sum | script.js:176-181 | the left-to-right running total of the loop and of `reduce((a, b) => a + b, 0)` (no contract of its own; see the next rows) |
| Seqs.SumCons | js/planner.js:53-54 | the total of a non-empty series is its first value plus the total of the rest |
| Seqs.Mean | script.js:182-183 | the mean of a non-empty series is the value whose count-fold multiple is the total |
| Seqs.MeanBetween | script.js:182-183 | the mean of values that all lie in [lo, hi] lies in [lo, hi] |
| Seqs.MeanAtLeast | js/planner.js:53-56 | a mean of at least x needs some value of at least x; values all of at least x give a mean of at least x |
| Seqs.Take | script.js:209 | `slice(0, n)` keeps the first min(n, length) entries, in order |
| Text.Includes | js/planner.js:37 | `includes` finds the needle at some offset: a found needle is no longer than the text; the empty needle and the text itself are always found |
| Text.Trim | script.js:26 | `trim` keeps a run with no white space at either end and only white space around it in the input |
| Text.TrimEmptyIffBlank | js/planner.js:26 | trimming gives the empty string exactly when the input is all white space |
| Text.TrimIdempotent | js/planner.js:26 | trimming twice equals trimming once |
| Text.Split | script.js:26 | `split(",")` gives one more part than there are commas, and no part contains a comma |
| Text.JoinSplit | script.js:26 | joining the parts of a split gives back the input |
| Text.SplitJoin | script.js:26 | splitting a join of separator-free parts gives back the parts |
| Text.ToLower | js/planner.js:26 | lower-casing keeps the length, leaves no upper-case ASCII letter, and changes only upper-case letters |
| TripDates.CeilDiv | script.js:53 | `Math.ceil(a / b)` is the least q with a <= q*b |
| TripDates.DateDiffInDays | script.js:51-54 | the day count is the least whole number of days covering the millisecond difference |
| TripDates.TripLengthLimit | script.js:110-111 | the inclusive length exceeds 16 days exactly when the end is more than 15 × 86,400,000 ms after the start |
| TripDates.ValidateTrip | script.js:92-114 | checks run in order and the first failure wins: a missing date, then start before now, then end before start, then a span over 16 days; it accepts exactly when now <= start <= end and end - start <= 15 days, returning the pair unchanged |
| TripDates.AcceptedRangeIsSound | script.js:92-114 | an accepted range has now <= start <= end and `dateDiffInDays + 1 <= 16` |
| TripDates.StartOfDay | script.js:98 | the UTC midnight that `new Date("YYYY-MM-DD")` gives is a whole-day timestamp at or before the instant, less than a day before it |
| TripDates.TodayRejectedAsWritten | script.js:97-104 | as written, a trip starting on the current day is refused as "in the past" at any moment after midnight |
| TripDates.ValidateTripByDay | script.js:97-104 | corrected check: accepts exactly when the start is not before the current day, end >= start and the span is at most 16 days |
| TripDates.TodayAcceptedByDay | script.js:97-104 | under the corrected check a trip starting today is accepted, and one starting yesterday is still refused |
| Weather.CToF | script.js:56-58 | 0 °C is 32 °F and 100 °C is 212 °F |
| Weather.CToFRoundTrip | script.js:56-58 | the conversion has an exact inverse, in both directions |
| Weather.CToFStrictlyIncreasing | script.js:56-58 | the conversion is strictly increasing |
| Weather.CToFMidpoint | script.js:186-188 | converting the midpoint equals taking the midpoint of the conversions |
| Weather.ScoreWeather | script.js:60-73 | the score is 0, 1 or 2; it is 2 exactly when both conditions hold and 0 exactly when neither does. The temperature condition constrains only with both bounds, inclusively. The rain condition needs a zero total only when rain is excluded |
| Weather.NoPreferencesScoreTwo | script.js:60-73 | with no bounds and rain allowed, every city scores 2 |
| Weather.SingleBoundIgnored | script.js:62-66 | with either bound missing, the score does not depend on the temperature, and the temperature point is always given |
| Weather.BothBoundsInclusive | script.js:62-63 | with both bounds and rain allowed, the score is 2 exactly when min <= avgTempF <= max, and 1 otherwise |
| Weather.RainExcludedNeedsDry | script.js:67-71 | with no bounds and rain excluded, the score is 2 exactly when the rain total is 0, and 1 otherwise |
| Weather.Summarize | script.js:176-188 | the maximum and minimum averages are the converted means of the first `len` daily maxima and minima, the rain total is the plain sum over the same days, and the average temperature is the converted midpoint of the two Celsius means, lying between the two averages |
| Weather.SummaryWithinBand | script.js:176-188 | if every daily value lies in [lo, hi] °C, all three Fahrenheit averages lie in [cToF(lo), cToF(hi)] |
| Weather.AggregateDaily | script.js:173-188 | the running-sum loop over the maximum series' indices computes exactly the summary |
| Weather.EvaluateCity | script.js:173-197 | a city's entry has its own name, the converted mean maximum and minimum, the plain rain total over the loop's days, and the score `scoreWeather` gives the summary's average temperature and that total (0..2, and 2 exactly when both preference conditions hold) |
| Continent.CityOutcome | script.js:171-197 | the callback returns null exactly for a response without daily data |
| Continent.BatchResults | script.js:167-200 | the awaited array has one entry per city of the batch |
| Continent.BatchResultsAt | script.js:167-200 | entry i of the awaited array is the callback's value for city i |
| Continent.ValidResults | script.js:201 | the null filter never lengthens the array (its contents are stated by the next rows) |
| Continent.BatchResultsAppend | script.js:167-200 | the awaited results of a batch are the results of its parts, in order |
| Continent.ValidResultsMembers | script.js:201 | removing nulls keeps exactly the non-null values; nothing is left exactly when every entry is null |
| Continent.ValidResultsAppend | script.js:201 | the null filter keeps order: it distributes over concatenation |
| Continent.ValidResultsOfBatch | script.js:171-201 | every surviving entry is the scored summary of a city with daily data; none survive exactly when every response was malformed |
| Continent.RankByScore | script.js:208-209 | at most 5 entries, as many as possible, in non-increasing score order, drawn from the valid results. No valid result with a higher score than a kept one is left out. Each score's tie group keeps an initial part of its input order |
| Continent.RankedBatch | script.js:200-209 | every ranked entry is the scored summary of a city with daily data, and no such city scoring above a shown entry is left out |
| Continent.RankBatch | script.js:200-209 | with no rejected request, the answer is "no data" exactly when every response was malformed; otherwise the score ranking of the non-null results: min(5, their number) entries in non-increasing score order, each from a city with daily data, and no city with daily data scoring above a shown one left out |
| Continent.SearchContinent | script.js:159-224 | no cities gives NoCities; any rejected request gives FetchFailed for the whole batch; all malformed gives NoWeatherData; otherwise the score ranking of the non-null results: min(5, their number) entries in non-increasing score order, each scored from a city of the batch, with no city scoring above a shown one left out |
| Continent.MalformedCityDropped | script.js:171-201 | a malformed response only removes its own city: the search over the other cities gives the same answer |
| StableSort.SortDesc | script.js:208 | the sort yields a non-increasing permutation of its input |
| StableSort.SortDescStable | script.js:208 | the sort is stable: each tie group keeps its input order |
| StableSort.InsertKeyClass | script.js:208 | inserting an element puts it at the front of its own tie group and leaves the others alone |
| StableSort.TopN | script.js:208-209 | sort-then-slice is sorted, drawn from the input, of length min(n, size). It never skips an element keyed higher than a kept one, and keeps an initial part of every tie group |
| Planner.NormalizeQuery | js/planner.js:26 | the query has no upper-case ASCII letters, and is empty exactly when the typed text is all white space |
| Planner.Selected | js/planner.js:36-38 | a non-empty query selects only names at least as long as it, and always selects a city whose lower-cased name it equals; an empty query with no continent selects every city |
| Planner.MatchCities | js/planner.js:36-38 | a non-empty query selects exactly the cities whose lower-cased name contains it. An empty query with no continent selects every city, in order. An empty query with a continent selects exactly that continent's cities |
| Planner.MatchCitiesAppend | js/planner.js:36-38 | the city filter keeps the input order: it distributes over concatenation |
| Planner.Included | js/planner.js:53-56 | a kept city reached the preferred temperature on at least one day; a city that reached it on every day, and is dry enough when rain is excluded, is kept |
| Planner.RainIrrelevantUnlessExcluded | js/planner.js:56 | without rain exclusion, the rain figures never change whether a city is kept |
| Planner.Evaluate | js/planner.js:45-67 | a city yields a place exactly when its request succeeds and the inclusion rule holds. The place has the city's name, the mean of its daily maxima and the sum of its rain values; that mean is at least the preferred temperature and, when rain is excluded, that total is under 5 |
| Planner.KeptPlaces | js/planner.js:42-68 | every kept place meets the inclusion rule and comes from one of the cities; every city that yields a place has it kept |
| Planner.KeptPlacesAppend | js/planner.js:42-68 | cities are evaluated independently: the result for a list is the result for its first part followed by the result for the rest |
| Planner.FailedCitySkipped | js/planner.js:45-67 | a city whose request throws is skipped, and the cities after it are still evaluated |
| Planner.EvaluateCities | js/planner.js:40-68 | the sequential loop with its try/catch computes exactly the kept places |
| Planner.TopPlaces | js/planner.js:77-78 | at most 5 places, as many as possible, in non-increasing average temperature, drawn from the kept ones; no kept place warmer than a shown one is left out |
| Planner.TopPlacesOfCities | js/planner.js:42-78 | every shown place comes from one of the cities, and no city yields a place warmer than a shown one without it being shown |
| Planner.Plan | js/planner.js:20-78 | an invalid start or end date gives the date error, exactly. With valid dates, "no matches" comes exactly when the loop keeps nothing; otherwise the five warmest kept places are shown (min(5, kept) of them, in non-increasing temperature order). Each shown place meets the inclusion rule and comes from a matched city, and no matched city warmer than a shown one is left out |
| Planner.InvalidDateFetchesNothing | js/planner.js:31-34 | with an invalid date the answer is the date error, whatever the forecast service would return |

## Left out

- DOM reads and writes, HTML rendering, the slider listener and the charts (script.js:75-90, 150-155, 211-221; js/planner.js:1-8, 79-102): user interface only.
- The geocoding branch of `getCoordinates` (script.js:35-49) and every `fetch` to the forecast service: external I/O. Their outcomes are parameters.
- The single-location search (script.js:119-158) beyond `parseCoords` and `scoreWeather`. It rounds the Fahrenheit averages and the rain total to strings with `toFixed(1)` before scoring. So `"0.0" == 0` counts a total that rounds to zero as dry, and the midpoint is taken of rounded values. Decimal rounding is not modelled.
- `Promise.all` concurrency (script.js:167-200): the batch is the ordered sequence of per-city outcomes. That order is the order of the results array.
- The continent search's city table lookup (script.js:161-165): the batch is given directly, and an empty batch stands for an unknown or empty continent.
- Static city tables (script.js:1-23, js/planner.js:10-18): plain data.
- `saveTrip` (js/planner.js:106-118), api/save-trip.js and api/saved-trips.js: thin wrappers over the record store client.
- `null` entries in the forecast arrays (a day the service has no value for): every daily value is modelled as a number. In the source `sum += null` and `reduce((a, b) => a + b, 0)` add 0 for such an entry while the mean still divides by the full length (script.js:178-183, js/planner.js:53-54); `seq<real>` cannot express a missing entry.
- IEEE floating point: exact reals instead. NaN appears only where the model states it. That covers the planner's empty temperature array, which never passes the inclusion rule, and `parseFloat` failures (`None`).
- Weather.AggregateDaily: requires a non-empty maximum series and minimum and rain series at least as long. In the source an empty series, or a shorter one, produces NaN averages. A response whose minimum or rain array is missing throws inside the callback; that is a `Rejected` outcome.
- Weather.EvaluateCity: keeps the entry's average maximum, average minimum and rain total as exact reals. The source stores all three as `toFixed(1)` strings (script.js:193-195). The score is taken from the unrounded `avgTempF` and `totalRain` before any rounding (script.js:190), so the ranking is unaffected.
- Weather.ScoreWeather: compares the rain total with 0 as an exact real. The source's string comparison on the single-location path is not modelled.
- Planner.TopPlaces: sorts by the exact mean. The source sorts by the `toFixed(1)` strings (js/planner.js:59, 77), so two means that round to the same tenth count as equal there and keep their input order.
- TripDates.ValidateTrip: takes dates as integer timestamps, with an empty field as `None`. Parsing date strings is not modelled. A non-empty string that `new Date` cannot parse gives NaN there, which passes every comparison.
- Text.ToLower: lower-cases the ASCII letters only; `toLowerCase` covers all of Unicode.
- Coords.ParseCoords: `parseFloat` is left abstract. It accepts a leading numeric prefix and ignores trailing text, which is not modelled.
- The temperature preference inputs (script.js:86-87): `parseFloat` of a non-empty field is taken to give a number. A NaN bound is not modelled.

## Findings

| source | as written | input that shows it | evidently intended | confidence | as-written member | corrected member |
|---|---|---|---|---|---|---|
| script.js:97-104 | `startDate < today`, where `today = new Date()` is the current instant and `startDate = new Date("YYYY-MM-DD")` is midnight UTC of the chosen day | start = end = today's date, submitted at any moment after midnight UTC (for example 10:00) | a trip may start on the current day, so "in the past" means before the current day's start | medium, not executed | TripDates.TodayRejectedAsWritten | TripDates.ValidateTripByDay |
