/** The trip-date checks that run before any forecast is requested
    (script.js `dateDiffInDays` and the submit handler's validation block).
    Dates are integer millisecond timestamps; `now` is the instant of
    submission (`new Date()`), passed in because the model has no clock. */
module TripDates {
  import opened Wrappers

  /** 1000 * 60 * 60 * 24 */
  const MsPerDay: int := 86400000
  /** Longest trip the forecast provider serves, in days. */
  const MaxTripDays: int := 16

  datatype DateError = MissingDate | StartInPast | EndBeforeStart | RangeTooLong

  datatype TripRange = TripRange(start: int, end: int)

  /** `Math.ceil(a / b)` for a positive divisor. */
  function CeilDiv(a: int, b: int): (q: int)
    requires b > 0
    ensures (q - 1) * b < a <= q * b
  {
    -((-a) / b)
  }

  /** Whole days from `d1` to `d2`, a partial day counting as one. */
  function DateDiffInDays(d1: int, d2: int): (days: int)
    ensures (days - 1) * MsPerDay < d2 - d1 <= days * MsPerDay
  {
    CeilDiv(d2 - d1, MsPerDay)
  }

  /** The inclusive trip length exceeds 16 days exactly when the end lies more
      than 15 whole days after the start. */
  lemma TripLengthLimit(start: int, end: int)
    ensures DateDiffInDays(start, end) + 1 > MaxTripDays <==> end - start > (MaxTripDays - 1) * MsPerDay
  {
    var q := DateDiffInDays(start, end);
    if q >= MaxTripDays {
      assert (q - 1) * MsPerDay >= (MaxTripDays - 1) * MsPerDay;
    } else {
      assert q * MsPerDay <= (MaxTripDays - 1) * MsPerDay;
    }
  }

  /** The validation block, with `today` the current instant. An empty date
      field is `None`. The checks run in order and the first failure wins. */
  function ValidateTrip(start: Option<int>, end: Option<int>, now: int): (r: Result<TripRange, DateError>)
    ensures r == Failure(MissingDate) <==> start.None? || end.None?
    ensures start.Some? && end.Some? ==>
      (r == Failure(StartInPast) <==> start.value < now)
    ensures start.Some? && end.Some? ==>
      (r == Failure(EndBeforeStart) <==> now <= start.value && end.value < start.value)
    ensures start.Some? && end.Some? ==>
      (r == Failure(RangeTooLong) <==>
         now <= start.value <= end.value && end.value - start.value > (MaxTripDays - 1) * MsPerDay)
    ensures r.Success? <==>
      start.Some? && end.Some? && now <= start.value <= end.value
      && end.value - start.value <= (MaxTripDays - 1) * MsPerDay
    ensures r.Success? ==> r.value == TripRange(start.value, end.value)
  {
    if start.None? || end.None? then Failure(MissingDate)
    else if start.value < now then Failure(StartInPast)
    else if end.value < start.value then Failure(EndBeforeStart)
    else
      TripLengthLimit(start.value, end.value);
      if DateDiffInDays(start.value, end.value) + 1 > MaxTripDays then Failure(RangeTooLong)
      else Success(TripRange(start.value, end.value))
  }

  /** An accepted range starts no earlier than now, ends no earlier than it
      starts, and spans at most 16 calendar-day slots. */
  lemma AcceptedRangeIsSound(start: Option<int>, end: Option<int>, now: int)
    requires ValidateTrip(start, end, now).Success?
    ensures var t := ValidateTrip(start, end, now).value;
            now <= t.start <= t.end && DateDiffInDays(t.start, t.end) + 1 <= MaxTripDays
  {
    TripLengthLimit(start.value, end.value);
  }

  /** `new Date("YYYY-MM-DD")` is midnight UTC of that day. */
  function StartOfDay(t: int): (d: int)
    ensures d <= t < d + MsPerDay
    ensures d % MsPerDay == 0
  {
    t - t % MsPerDay
  }

  /** As written, a trip that starts on the current (UTC) day is refused as
      starting in the past whenever the form is submitted after midnight. */
  lemma TodayRejectedAsWritten(now: int)
    requires now % MsPerDay != 0
    ensures ValidateTrip(Some(StartOfDay(now)), Some(StartOfDay(now)), now) == Failure(StartInPast)
  {
  }

  /** The check as evidently intended: "in the past" means before the
      current calendar day, so `today` is the start of the current day. */
  function ValidateTripByDay(start: Option<int>, end: Option<int>, now: int): (r: Result<TripRange, DateError>)
    ensures r.Success? <==>
      start.Some? && end.Some? && StartOfDay(now) <= start.value <= end.value
      && end.value - start.value <= (MaxTripDays - 1) * MsPerDay
    ensures r == Failure(StartInPast) <==> start.Some? && end.Some? && start.value < StartOfDay(now)
  {
    ValidateTrip(start, end, StartOfDay(now))
  }

  /** Under the corrected check a one-day trip on the current day is accepted
      at every instant of that day, and a start on the previous day is still
      refused. */
  lemma TodayAcceptedByDay(now: int)
    ensures ValidateTripByDay(Some(StartOfDay(now)), Some(StartOfDay(now)), now).Success?
    ensures ValidateTripByDay(Some(StartOfDay(now) - MsPerDay), Some(StartOfDay(now)), now)
         == Failure(StartInPast)
  {
  }
}
