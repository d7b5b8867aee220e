/** The continent search of the submit handler (script.js, continent branch):
    one forecast request per city of the chosen continent, all awaited
    together, malformed responses dropped, the rest ranked by score and cut
    to five. The concurrent requests are modelled as the ordered sequence of
    their outcomes. */
module Continent {
  import opened Wrappers
  import opened Seqs
  import opened StableSort
  import opened Weather

  /** How one city's request ended: the fetch or the JSON decoding rejected,
      the response lacked the daily maximum temperatures, or it carried them. */
  datatype FetchOutcome = Rejected | Malformed | Daily(series: DailySeries)

  datatype CityFetch = CityFetch(name: string, outcome: FetchOutcome)

  datatype SearchError = NoCities | FetchFailed | NoWeatherData


  /** Daily data the aggregation loop can read without running off an array. */
  predicate Servable(f: CityFetch)
  {
    f.outcome.Daily? ==> WellFormed(f.outcome.series)
  }

  /** Every request of the batch came back, and with readable data. */
  predicate Resolved(batch: seq<CityFetch>)
  {
    forall i :: 0 <= i < |batch| ==> Servable(batch[i]) && !batch[i].outcome.Rejected?
  }

  lemma ResolvedAppend(a: seq<CityFetch>, b: seq<CityFetch>)
    ensures Resolved(a + b) <==> Resolved(a) && Resolved(b)
  {
    if Resolved(a + b) {
      assert forall i :: 0 <= i < |a| ==> a[i] == (a + b)[i];
      assert forall i :: 0 <= i < |b| ==> b[i] == (a + b)[|a| + i];
    }
  }

  predicate AnyRejected(batch: seq<CityFetch>)
  {
    exists i :: 0 <= i < |batch| && batch[i].outcome.Rejected?
  }

  /** The per-city callback's value: `null` for a malformed response, the
      scored summary otherwise. */
  function CityOutcome(f: CityFetch, pref: Preference): (r: Option<CityResult>)
    requires Servable(f) && !f.outcome.Rejected?
    ensures r.None? <==> f.outcome.Malformed?
  {
    match f.outcome
    case Malformed => None
    case Daily(d) => Some(EvaluateCity(f.name, d, pref))
  }

  /** The array `Promise.all` resolves to when no request rejected. */
  function BatchResults(batch: seq<CityFetch>, pref: Preference): (rs: seq<Option<CityResult>>)
    requires Resolved(batch)
    ensures |rs| == |batch|
  {
    if |batch| == 0 then []
    else [CityOutcome(batch[0], pref)] + BatchResults(batch[1..], pref)
  }

  lemma {:induction false} BatchResultsAt(batch: seq<CityFetch>, pref: Preference, i: int)
    requires Resolved(batch)
    requires 0 <= i < |batch|
    ensures BatchResults(batch, pref)[i] == CityOutcome(batch[i], pref)
    decreases i
  {
    if i > 0 {
      BatchResultsAt(batch[1..], pref, i - 1);
    }
  }

  /** `results.filter(r => r !== null)`. */
  function ValidResults(rs: seq<Option<CityResult>>): (v: seq<CityResult>)
    ensures |v| <= |rs|
  {
    if |rs| == 0 then []
    else (if rs[0].Some? then [rs[0].value] else []) + ValidResults(rs[1..])
  }

  /** Exactly the non-`null` values survive; none survive exactly when every
      entry is `null`. */
  lemma {:induction false} ValidResultsMembers(rs: seq<Option<CityResult>>)
    ensures forall c :: c in ValidResults(rs) <==> Some(c) in rs
    ensures ValidResults(rs) == [] <==> forall i :: 0 <= i < |rs| ==> rs[i].None?
    decreases |rs|
  {
    if |rs| > 0 {
      ValidResultsMembers(rs[1..]);
      assert forall o :: o in rs <==> o == rs[0] || o in rs[1..];
      if ValidResults(rs) == [] {
        assert rs[0].None? && ValidResults(rs[1..]) == [];
        assert forall i :: 1 <= i < |rs| ==> rs[i] == rs[1..][i - 1];
      }
    }
  }

  lemma {:induction false} ValidResultsAppend(a: seq<Option<CityResult>>, b: seq<Option<CityResult>>)
    ensures ValidResults(a + b) == ValidResults(a) + ValidResults(b)
    decreases |a|
  {
    if |a| == 0 {
      assert a + b == b;
    } else {
      var head := if a[0].Some? then [a[0].value] else [];
      assert (a + b)[0] == a[0];
      assert (a + b)[1..] == a[1..] + b;
      ValidResultsAppend(a[1..], b);
      calc {
        ValidResults(a + b);
        head + ValidResults(a[1..] + b);
        head + (ValidResults(a[1..]) + ValidResults(b));
        (head + ValidResults(a[1..])) + ValidResults(b);
        ValidResults(a) + ValidResults(b);
      }
    }
  }

  /** `c` is the scored summary of some city of the batch whose response
      carried daily data. */
  predicate ScoredFrom(batch: seq<CityFetch>, pref: Preference, c: CityResult)
  {
    exists i :: 0 <= i < |batch| && batch[i].outcome.Daily? && WellFormed(batch[i].outcome.series)
                && c == EvaluateCity(batch[i].name, batch[i].outcome.series, pref)
  }

  /** Every surviving entry is the scored summary of a city whose response
      carried daily data; none survive exactly when every response was
      malformed. */
  lemma ValidResultsOfBatch(batch: seq<CityFetch>, pref: Preference)
    requires Resolved(batch)
    ensures forall c :: c in ValidResults(BatchResults(batch, pref)) ==> ScoredFrom(batch, pref, c)
    ensures ValidResults(BatchResults(batch, pref)) == [] <==>
      forall i :: 0 <= i < |batch| ==> batch[i].outcome.Malformed?
  {
    var rs := BatchResults(batch, pref);
    ValidResultsMembers(rs);
    forall c | c in ValidResults(rs)
      ensures ScoredFrom(batch, pref, c)
    {
      var i :| 0 <= i < |rs| && rs[i] == Some(c);
      BatchResultsAt(batch, pref, i);
    }
  }

  function ScoreKey(c: CityResult): real
  {
    c.score as real
  }

  /** `validResults.sort((a, b) => b.score - a.score).slice(0, 5)`. */
  function RankByScore(valid: seq<CityResult>): (top: seq<CityResult>)
    ensures |top| == Min(TopCount, |valid|)
    ensures forall i, j :: 0 <= i < j < |top| ==> top[i].score >= top[j].score
    ensures multiset(top) <= multiset(valid)
    ensures forall c, i :: c in valid && 0 <= i < |top| && c.score > top[i].score ==> c in top
    ensures forall k :: KeyClass(top, ScoreKey, k) <= KeyClass(valid, ScoreKey, k)
  {
    var top := TopN(valid, ScoreKey, TopCount);
    assert forall i, j :: 0 <= i < j < |top| ==> ScoreKey(top[i]) >= ScoreKey(top[j]);
    top
  }

  /** No city whose response carried daily data scores higher than a shown
      entry without being shown itself. */
  predicate ShowsAllAbove(batch: seq<CityFetch>, pref: Preference, top: seq<CityResult>)
  {
    forall i, k :: 0 <= i < |batch| && batch[i].outcome.Daily? && WellFormed(batch[i].outcome.series)
                   && 0 <= k < |top|
                   && EvaluateCity(batch[i].name, batch[i].outcome.series, pref).score > top[k].score
                   ==> EvaluateCity(batch[i].name, batch[i].outcome.series, pref) in top
  }

  /** What the ranking of a resolved batch shows, stated against the batch. */
  lemma RankedBatch(batch: seq<CityFetch>, pref: Preference)
    requires Resolved(batch)
    requires ValidResults(BatchResults(batch, pref)) != []
    ensures var top := RankByScore(ValidResults(BatchResults(batch, pref)));
            (forall c :: c in top ==> ScoredFrom(batch, pref, c)) && ShowsAllAbove(batch, pref, top)
  {
    var rs := BatchResults(batch, pref);
    var valid := ValidResults(rs);
    var top := RankByScore(valid);
    ValidResultsOfBatch(batch, pref);
    SubMultisetMembers(top, valid);
    ValidResultsMembers(rs);
    forall i, k | 0 <= i < |batch| && batch[i].outcome.Daily? && WellFormed(batch[i].outcome.series)
                  && 0 <= k < |top|
                  && EvaluateCity(batch[i].name, batch[i].outcome.series, pref).score > top[k].score
      ensures EvaluateCity(batch[i].name, batch[i].outcome.series, pref) in top
    {
      BatchResultsAt(batch, pref, i);
      assert rs[i] == Some(EvaluateCity(batch[i].name, batch[i].outcome.series, pref));
    }
  }

  /** The awaited batch when no request rejected: drop the `null`s, report
      `NoWeatherData` if nothing is left, otherwise rank. */
  function RankBatch(batch: seq<CityFetch>, pref: Preference): (r: Result<seq<CityResult>, SearchError>)
    requires Resolved(batch)
    ensures r.Failure? ==> r.error == NoWeatherData
    ensures r.Failure? <==> forall i :: 0 <= i < |batch| ==> batch[i].outcome.Malformed?
    ensures r.Success? ==> r.value == RankByScore(ValidResults(BatchResults(batch, pref)))
    ensures r.Success? ==> |r.value| == Min(TopCount, |ValidResults(BatchResults(batch, pref))|)
    ensures r.Success? ==> forall i, j :: 0 <= i < j < |r.value| ==> r.value[i].score >= r.value[j].score
    ensures r.Success? ==> forall c :: c in r.value ==> ScoredFrom(batch, pref, c)
    ensures r.Success? ==> ShowsAllAbove(batch, pref, r.value)
  {
    var valid := ValidResults(BatchResults(batch, pref));
    ValidResultsOfBatch(batch, pref);
    if valid == [] then Failure(NoWeatherData)
    else
      RankedBatch(batch, pref);
      Success(RankByScore(valid))
  }

  /** The continent branch after date validation. An unknown or empty
      continent gives `NoCities`; one rejected request rejects `Promise.all`
      and with it the whole batch; a batch of only malformed responses gives
      `NoWeatherData`; otherwise the five best-scoring cities, or all of them
      when fewer carried data. */
  function SearchContinent(batch: seq<CityFetch>, pref: Preference): (r: Result<seq<CityResult>, SearchError>)
    requires forall i :: 0 <= i < |batch| ==> Servable(batch[i])
    ensures r == Failure(NoCities) <==> |batch| == 0
    ensures r == Failure(FetchFailed) <==> |batch| > 0 && AnyRejected(batch)
    ensures r == Failure(NoWeatherData) <==>
      |batch| > 0 && forall i :: 0 <= i < |batch| ==> batch[i].outcome.Malformed?
    ensures r.Success? ==> (Resolved(batch)
                            && r.value == RankByScore(ValidResults(BatchResults(batch, pref)))
                            && |r.value| == Min(TopCount, |ValidResults(BatchResults(batch, pref))|))
    ensures r.Success? ==> 1 <= |r.value| <= TopCount
    ensures r.Success? ==> forall i, j :: 0 <= i < j < |r.value| ==> r.value[i].score >= r.value[j].score
    ensures r.Success? ==> forall c :: c in r.value ==> ScoredFrom(batch, pref, c)
    ensures r.Success? ==> ShowsAllAbove(batch, pref, r.value)
  {
    if |batch| == 0 then Failure(NoCities)
    else if AnyRejected(batch) then Failure(FetchFailed)
    else
      assert Resolved(batch);
      RankBatch(batch, pref)
  }

  lemma SubMultisetMembers<T>(a: seq<T>, b: seq<T>)
    requires multiset(a) <= multiset(b)
    ensures forall x :: x in a ==> x in b
  {
    forall x | x in a ensures x in b {
      assert x in multiset(a);
    }
  }

  lemma {:induction false} BatchResultsAppend(a: seq<CityFetch>, b: seq<CityFetch>, pref: Preference)
    requires Resolved(a)
    requires Resolved(b)
    ensures BatchResults(a + b, pref) == BatchResults(a, pref) + BatchResults(b, pref)
    decreases |a|
  {
    if |a| == 0 {
      assert a + b == b;
    } else {
      assert (a + b)[1..] == a[1..] + b;
      BatchResultsAppend(a[1..], b, pref);
    }
  }

  lemma AnyRejectedAppend(a: seq<CityFetch>, b: seq<CityFetch>)
    ensures AnyRejected(a + b) <==> AnyRejected(a) || AnyRejected(b)
  {
    if AnyRejected(a + b) {
      var i :| 0 <= i < |a + b| && (a + b)[i].outcome.Rejected?;
      if i >= |a| {
        assert b[i - |a|] == (a + b)[i];
      }
    }
    if AnyRejected(a) {
      var i :| 0 <= i < |a| && a[i].outcome.Rejected?;
      assert (a + b)[i] == a[i];
    }
    if AnyRejected(b) {
      var i :| 0 <= i < |b| && b[i].outcome.Rejected?;
      assert (a + b)[|a| + i] == b[i];
    }
  }

  lemma ServableAppend(a: seq<CityFetch>, b: seq<CityFetch>)
    requires forall i :: 0 <= i < |a| ==> Servable(a[i])
    requires forall i :: 0 <= i < |b| ==> Servable(b[i])
    ensures forall i :: 0 <= i < |a + b| ==> Servable((a + b)[i])
  {
  }

  /** The ranking sees the batch only through its non-`null` results. */
  lemma RankBatchSeesValidResults(x: seq<CityFetch>, y: seq<CityFetch>, pref: Preference)
    requires Resolved(x)
    requires Resolved(y)
    requires ValidResults(BatchResults(x, pref)) == ValidResults(BatchResults(y, pref))
    ensures RankBatch(x, pref) == RankBatch(y, pref)
  {
  }

  lemma ValidResultsSkipMalformed(a: seq<CityFetch>, m: CityFetch, b: seq<CityFetch>, pref: Preference)
    requires Resolved(a)
    requires Resolved(b)
    requires m.outcome.Malformed?
    ensures Resolved(a + [m] + b) && Resolved(a + b)
    ensures ValidResults(BatchResults(a + [m] + b, pref)) == ValidResults(BatchResults(a + b, pref))
  {
    ResolvedAppend(a, [m]);
    ResolvedAppend(a + [m], b);
    ResolvedAppend(a, b);
    BatchResultsAppend(a, [m], pref);
    BatchResultsAppend(a + [m], b, pref);
    BatchResultsAppend(a, b, pref);
    var ra := BatchResults(a, pref);
    var rb := BatchResults(b, pref);
    assert BatchResults([m], pref) == [None];
    ValidResultsAppend(ra + [None], rb);
    ValidResultsAppend(ra, [None]);
    ValidResultsAppend(ra, rb);
    assert ValidResults([None]) == [];
  }

  /** A malformed response only removes its own city: the search over the
      other cities gives the same answer. */
  lemma {:induction false} MalformedCityDropped(a: seq<CityFetch>, m: CityFetch, b: seq<CityFetch>, pref: Preference)
    requires forall i :: 0 <= i < |a| ==> Servable(a[i])
    requires forall i :: 0 <= i < |b| ==> Servable(b[i])
    requires m.outcome.Malformed?
    requires |a + b| > 0
    ensures SearchContinent(a + [m] + b, pref) == SearchContinent(a + b, pref)
  {
    ServableAppend(a, [m]);
    ServableAppend(a + [m], b);
    ServableAppend(a, b);
    AnyRejectedAppend(a, [m]);
    AnyRejectedAppend(a + [m], b);
    AnyRejectedAppend(a, b);
    assert !AnyRejected([m]);
    if !AnyRejected(a) && !AnyRejected(b) {
      ValidResultsSkipMalformed(a, m, b, pref);
      RankBatchSeesValidResults(a + [m] + b, a + b, pref);
    }
  }
}
