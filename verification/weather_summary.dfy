/** The weather stage of itinerary generation: one call of the weather
    service per trip day, each day's hourly readings reduced to a mean
    temperature, a total precipitation and a condition. If any day's call
    fails, every day gets the same fallback summary. Readings are in tenths
    of a degree and tenths of a millimetre, as in `OpenMeteo`. */
module Weather {
  import opened Wrappers
  import opened Text
  import opened Dates
  import OpenMeteo

  datatype Condition = Sunny | Rainy | Mild {
    function Name(): string {
      match this
      case Sunny => "Sunny"
      case Rainy => "Rainy"
      case Mild => "Mild"
    }
  }

  /** One element of `weatherSummaries`. `avgTemperature` is in tenths and
      is `None` for the `NaN` mean of a day without readings. */
  datatype DaySummary = DaySummary(
    dayNumber: int,
    date: string,
    avgTemperature: Option<int>,
    precipitation: int,
    condition: Condition)

  /** The sum of the temperatures of a day's readings, in tenths. */
  function TemperatureSum(obs: seq<OpenMeteo.Observation>): int {
    if |obs| == 0 then 0 else TemperatureSum(obs[..|obs| - 1]) + obs[|obs| - 1].temperature
  }

  /** The sum of the precipitation of a day's readings, in tenths. */
  function PrecipitationSum(obs: seq<OpenMeteo.Observation>): int {
    if |obs| == 0 then 0 else PrecipitationSum(obs[..|obs| - 1]) + obs[|obs| - 1].precipitation
  }

  /** `Math.round(mean * 10)` for the mean `sum / (10 * n)` of `n` readings
      summing to `sum` tenths: the whole number of tenths nearest the mean,
      halves rounded up. */
  function RoundedMean(sum: int, n: int): (r: int)
    requires n > 0
    ensures -n < 2 * (r * n - sum) <= n
  {
    (2 * sum + n) / (2 * n)
  }

  /** The rounding is determined by its error bound: no other number of
      tenths is that close to the mean. */
  lemma RoundedMeanUnique(sum: int, n: int, r: int)
    requires n > 0
    requires -n < 2 * (r * n - sum) <= n
    ensures r == RoundedMean(sum, n)
  {
    var q := RoundedMean(sum, n);
    var d := r - q;
    assert r * n - q * n == d * n;
    assert -n < d * n < n;
    if d >= 1 {
      AtLeastOnce(d, n);
    } else if d <= -1 {
      AtLeastOnce(-d, n);
    }
  }

  lemma AtLeastOnce(d: int, n: int)
    requires d >= 1 && n > 0
    ensures d * n >= n
  {
    assert d * n == (d - 1) * n + n;
    assert (d - 1) * n >= 0;
  }

  /** `totalPrecip > 0 ? 'Rainy' : avgTemp > 25 ? 'Sunny' : 'Mild'`, where
      the mean is not rounded and the `NaN` mean of no readings is not
      above 25. */
  function Classify(tempSum: int, count: int, precipSum: int): (c: Condition)
    requires count >= 0
    ensures c == Rainy <==> precipSum > 0
    ensures c == Sunny <==> precipSum <= 0 && count > 0 && tempSum > 250 * count
  {
    if precipSum > 0 then Rainy
    else if count > 0 && tempSum > 250 * count then Sunny
    else Mild
  }

  /** The summary of day `dayNumber` from that day's weather report. */
  function Summarize(dayNumber: int, date: string, obs: seq<OpenMeteo.Observation>): (s: DaySummary)
    ensures s.dayNumber == dayNumber && s.date == date
    ensures s.avgTemperature.None? <==> |obs| == 0
    ensures s.avgTemperature.Some? ==>
      -|obs| < 2 * (s.avgTemperature.value * |obs| - TemperatureSum(obs)) <= |obs|
    ensures s.precipitation == PrecipitationSum(obs)
    ensures s.condition == Classify(TemperatureSum(obs), |obs|, PrecipitationSum(obs))
  {
    var t := TemperatureSum(obs);
    var p := PrecipitationSum(obs);
    DaySummary(dayNumber, date,
      if |obs| == 0 then None else Some(RoundedMean(t, |obs|)),
      p, Classify(t, |obs|, p))
  }

  /** The summary every day gets when the weather service fails: 25 degrees,
      no rain, mild. */
  function Fallback(dayNumber: int, date: string): DaySummary {
    DaySummary(dayNumber, date, Some(250), 0, Mild)
  }

  /** The dates of a trip of `days` days starting on day `start`, as the
      loop renders them: `YYYY-MM-DD` of `start + i` for day `i`. */
  function TripDates(start: int, days: nat): (ds: seq<string>)
    ensures |ds| == days
    ensures forall i :: 0 <= i < days ==> ds[i] == IsoDate(start + i)
  {
    seq(days, i => IsoDate(start + i))
  }

  /** The weather service answers for the date. */
  predicate Fetched(destination: string, date: string, svc: OpenMeteo.Services) {
    OpenMeteo.GetWeather(destination, date, svc).Success?
  }

  /** The summary of trip day `k` (0-based) from its weather report. */
  function SummaryOfDay(destination: string, dates: seq<string>, k: nat, svc: OpenMeteo.Services): DaySummary
    requires k < |dates| && Fetched(destination, dates[k], svc)
  {
    Summarize(k + 1, dates[k], OpenMeteo.GetWeather(destination, dates[k], svc).value.hourly)
  }

  /** The loop of the weather stage from day `i` on: `None` as soon as one
      call of the weather service fails. */
  function SummariesFrom(destination: string, dates: seq<string>, i: nat, svc: OpenMeteo.Services): (r: Option<seq<DaySummary>>)
    requires i <= |dates|
    ensures r.Some? ==> |r.value| == |dates| - i
    ensures r.Some? <==> forall k :: i <= k < |dates| ==> Fetched(destination, dates[k], svc)
    ensures r.Some? ==> forall k :: i <= k < |dates| ==>
      Fetched(destination, dates[k], svc) && r.value[k - i] == SummaryOfDay(destination, dates, k, svc)
    decreases |dates| - i
  {
    if i == |dates| then Some([])
    else if !Fetched(destination, dates[i], svc) then None
    else
      match SummariesFrom(destination, dates, i + 1, svc)
      case None => None
      case Some(rest) =>
        PrependSummary(destination, dates, i, svc, rest);
        Some([SummaryOfDay(destination, dates, i, svc)] + rest)
  }

  /** Day `i`'s summary in front of the summaries of the later days. */
  lemma PrependSummary(destination: string, dates: seq<string>, i: nat, svc: OpenMeteo.Services, rest: seq<DaySummary>)
    requires i < |dates| && Fetched(destination, dates[i], svc)
    requires |rest| == |dates| - i - 1
    requires forall k :: i + 1 <= k < |dates| ==>
      Fetched(destination, dates[k], svc) && rest[k - i - 1] == SummaryOfDay(destination, dates, k, svc)
    ensures var r := [SummaryOfDay(destination, dates, i, svc)] + rest;
      && |r| == |dates| - i
      && forall k :: i <= k < |dates| ==>
        Fetched(destination, dates[k], svc) && r[k - i] == SummaryOfDay(destination, dates, k, svc)
  {
    var r := [SummaryOfDay(destination, dates, i, svc)] + rest;
    forall k | i <= k < |dates|
      ensures Fetched(destination, dates[k], svc) && r[k - i] == SummaryOfDay(destination, dates, k, svc)
    {
      if k > i {
        assert r[k - i] == rest[k - i - 1];
      }
    }
  }

  /** `Array.from({ length: days }, ...)` of the fallback summaries. */
  function FallbackSummaries(dates: seq<string>): (r: seq<DaySummary>)
    ensures |r| == |dates|
    ensures forall k :: 0 <= k < |dates| ==> r[k] == Fallback(k + 1, dates[k])
  {
    seq(|dates|, k requires 0 <= k < |dates| => Fallback(k + 1, dates[k]))
  }

  /** `weatherSummaries` for the trip days `dates`. */
  function ResolveWeather(destination: string, dates: seq<string>, svc: OpenMeteo.Services): (r: seq<DaySummary>)
    ensures |r| == |dates|
    ensures forall k :: 0 <= k < |dates| ==> r[k].dayNumber == k + 1 && r[k].date == dates[k]
  {
    match SummariesFrom(destination, dates, 0, svc)
    case Some(summaries) => summaries
    case None => FallbackSummaries(dates)
  }

  /** The weather stage is all or nothing: every day is summarized from its
      own report when every call succeeds, and every day is the fallback as
      soon as one call fails. */
  lemma AllOrNothing(destination: string, dates: seq<string>, svc: OpenMeteo.Services)
    ensures var r := ResolveWeather(destination, dates, svc);
      if forall k :: 0 <= k < |dates| ==> Fetched(destination, dates[k], svc) then
        forall k :: 0 <= k < |dates| ==> Fetched(destination, dates[k], svc) && r[k] == SummaryOfDay(destination, dates, k, svc)
      else
        r == FallbackSummaries(dates)
  {
  }

  /** A day can be classed sunny while its rounded mean shows exactly 25
      degrees: the condition uses the unrounded mean. */
  lemma SunnyAtRoundedTwentyFive()
    ensures var obs := [OpenMeteo.Observation("2025-04-26T00:00", "00:00", 250, 0),
                        OpenMeteo.Observation("2025-04-26T01:00", "01:00", 250, 0),
                        OpenMeteo.Observation("2025-04-26T02:00", "02:00", 251, 0)];
      var s := Summarize(1, "2025-04-26", obs);
      s.avgTemperature == Some(250) && s.condition == Sunny
  {
    var obs := [OpenMeteo.Observation("2025-04-26T00:00", "00:00", 250, 0),
                OpenMeteo.Observation("2025-04-26T01:00", "01:00", 250, 0),
                OpenMeteo.Observation("2025-04-26T02:00", "02:00", 251, 0)];
    var o2 := obs[..2];
    var o1 := o2[..1];
    assert o1[..0] == [];
    assert TemperatureSum(o1) == 250 && PrecipitationSum(o1) == 0;
    assert TemperatureSum(o2) == 500 && PrecipitationSum(o2) == 0;
    assert TemperatureSum(obs) == 751 && PrecipitationSum(obs) == 0;
  }
}
