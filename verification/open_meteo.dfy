/** `openMeteoService.getWeather(location, date)`: geocode a place name with
    Nominatim, then fetch one day of hourly temperature and precipitation
    from Open-Meteo, from the forecast endpoint for dates on or after the
    fixed reference day 2025-04-25 and from the archive endpoint for
    earlier dates.
    Temperatures (degrees Celsius) and precipitation (millimetres) are held
    in tenths, the resolution Open-Meteo reports them in. */
module OpenMeteo {
  import opened Wrappers
  import opened Text
  import opened Dates
  import opened Http

  /** The first Nominatim search result. */
  datatype Place = Place(lat: string, lon: string, displayName: string)

  datatype Endpoint = Forecast | Archive {
    function Url(): string {
      match this
      case Forecast => "https://api.open-meteo.com/v1/forecast"
      case Archive => "https://archive-api.open-meteo.com/v1/archive"
    }
  }

  /** The query parameters of one Open-Meteo request. */
  datatype WeatherQuery = WeatherQuery(
    endpoint: Endpoint,
    latitude: string,
    longitude: string,
    startDate: string,
    endDate: string,
    hourly: string)

  /** The `hourly` object of an Open-Meteo response: parallel arrays, where
      `None` is a JSON `null` reading. */
  datatype Hourly = Hourly(time: seq<string>, temperature: seq<Option<int>>, precipitation: seq<Option<int>>)

  /** The two remote services, as functions from request to reply. */
  datatype Services = Services(
    geocode: string -> Reply<seq<Place>>,
    weather: WeatherQuery -> Reply<Hourly>)

  /** One hour of the report; `hour` is the `HH:MM` part of the time stamp. */
  datatype Observation = Observation(time: string, hour: string, temperature: int, precipitation: int)

  /** The object `getWeather` resolves to. */
  datatype Report = Report(location: string, country: string, date: string, hourly: seq<Observation>)

  const ErrorPrefix := "Failed to fetch weather data: "
  const NoGeocode := "Could not geocode location"
  const HourlyFields := "temperature_2m,precipitation"

  /** The weather request for one day at a geocoded place: a single-day
      window, from the forecast endpoint exactly when the date parses to a
      day on or after the reference day (an invalid date compares false). */
  function QueryFor(place: Place, date: string): (q: WeatherQuery)
    ensures q.startDate == date && q.endDate == date
    ensures q.latitude == place.lat && q.longitude == place.lon
    ensures q.hourly == HourlyFields
    ensures q.endpoint == Forecast <==> ParseIsoDate(date).Some? && ParseIsoDate(date).value >= ReferenceToday
  {
    var isFuture := match ParseIsoDate(date) case Some(d) => d >= ReferenceToday case None => false;
    WeatherQuery(if isFuture then Forecast else Archive, place.lat, place.lon, date, date, HourlyFields)
  }

  /** The TypeError V8 raises for `x.toString()` on a missing or null entry. */
  function ReadingError(r: Option<Option<int>>): string {
    if r.None? then "Cannot read properties of undefined (reading 'toString')"
    else "Cannot read properties of null (reading 'toString')"
  }

  /** Entry `i` of a parallel array, `None` when the array is too short. */
  function At(xs: seq<Option<int>>, i: nat): Option<Option<int>> {
    if i < |xs| then Some(xs[i]) else None
  }

  predicate HasReading(xs: seq<Option<int>>, i: nat) {
    i < |xs| && xs[i].Some?
  }

  /** A local time stamp `YYYY-MM-DDTHH:MM` with a date the engine accepts
      and a time of day from 00:00 to 23:59. */
  predicate IsTimeStamp(t: string) {
    && |t| == 16
    && ParseIsoDate(t[..10]).Some?
    && t[10] == 'T' && t[13] == ':'
    && AllDigits(t[11..13]) && AllDigits(t[14..])
    && DigitsValue(t[11..13]) <= 23 && DigitsValue(t[14..]) <= 59
  }

  /** `new Date(time).toISOString().split('T')[1].slice(0, 5)`, with the
      server clock on UTC. */
  function HourOf(t: string): (r: Result<string, string>)
    ensures r.Success? <==> IsTimeStamp(t)
    ensures r.Success? ==> |r.value| == 5 && r.value == t[11..]
  {
    if IsTimeStamp(t) then Success(t[11..]) else Failure("Invalid time value")
  }

  /** Hour `k` has a valid time stamp and both a temperature and a
      precipitation reading. */
  predicate Complete(h: Hourly, k: nat) {
    k < |h.time| && IsTimeStamp(h.time[k]) && HasReading(h.temperature, k) && HasReading(h.precipitation, k)
  }

  /** The observation of hour `k`. */
  function ObservationAt(h: Hourly, k: nat): Observation
    requires Complete(h, k)
  {
    Observation(h.time[k], h.time[k][11..], h.temperature[k].value, h.precipitation[k].value)
  }

  /** `hourlyData.time.map((time, i) => ...)` from index `i` on: one
      observation per time stamp, failing at the first hour whose time stamp
      is invalid or whose temperature or precipitation is missing or null,
      with the error of the first field of that hour that fails. */
  function ZipFrom(h: Hourly, i: nat): (r: Result<seq<Observation>, string>)
    requires i <= |h.time|
    ensures r.Success? <==> forall k :: i <= k < |h.time| ==> Complete(h, k)
    ensures r.Success? ==> |r.value| == |h.time| - i
    ensures r.Success? ==> forall k :: i <= k < |h.time| ==> Complete(h, k) && r.value[k - i] == ObservationAt(h, k)
    decreases |h.time| - i
  {
    if i == |h.time| then Success([])
    else if !IsTimeStamp(h.time[i]) then
      assert !Complete(h, i);
      Failure(HourOf(h.time[i]).error)
    else if !HasReading(h.temperature, i) then
      assert !Complete(h, i);
      Failure(ReadingError(At(h.temperature, i)))
    else if !HasReading(h.precipitation, i) then
      assert !Complete(h, i);
      Failure(ReadingError(At(h.precipitation, i)))
    else
      match ZipFrom(h, i + 1)
      case Failure(e) => Failure(e)
      case Success(rest) =>
        Success([ObservationAt(h, i)] + rest)
  }

  /** `display_name.split(', ').pop() || 'Unknown'`. */
  function Country(displayName: string): string {
    var last := LastPart(displayName, ", ");
    if last == "" then "Unknown" else last
  }

  /** The body of `getWeather` inside its `try`. */
  function FetchWeather(location: string, date: string, svc: Services): Result<Report, string> {
    var (_, places) :- Settle(svc.geocode(location));
    if |places| == 0 then Failure(NoGeocode)
    else
      var place := places[0];
      var (status, hourly) :- Settle(svc.weather(QueryFor(place, date)));
      if status != 200 then Failure("Weather API Error: " + IntText(status))
      else
        var observations :- ZipFrom(hourly, 0);
        Success(Report(location, Country(place.displayName), date, observations))
  }

  /** `openMeteoService.getWeather`: every failure is rethrown with the same
      prefix; a success reports the requested location and date and one
      observation per time stamp of the requested day. */
  function GetWeather(location: string, date: string, svc: Services): (r: Result<Report, string>)
    ensures r.Failure? ==> |r.error| >= |ErrorPrefix| && r.error[..|ErrorPrefix|] == ErrorPrefix
    ensures r.Success? ==> r.value.location == location && r.value.date == date
    ensures r.Success? ==> r.value.country != ""
  {
    match FetchWeather(location, date, svc)
    case Success(report) => Success(report)
    case Failure(e) => Failure(ErrorPrefix + e)
  }

  /** A geocoder that finds nothing makes `getWeather` fail with
      'Could not geocode location', whatever the weather service does. */
  lemma NoPlaceNoWeather(location: string, date: string, svc: Services)
    requires svc.geocode(location).Response? && 200 <= svc.geocode(location).status < 300
    requires svc.geocode(location).body == []
    ensures GetWeather(location, date, svc) == Failure(ErrorPrefix + NoGeocode)
  {
  }

  /** A successful report holds exactly the readings of the single-day
      request for the first geocoding result, hour by hour. */
  lemma ReportReadings(location: string, date: string, svc: Services)
    requires GetWeather(location, date, svc).Success?
    ensures var g := svc.geocode(location);
      && g.Response? && 200 <= g.status < 300 && |g.body| > 0
      && var q := QueryFor(g.body[0], date);
      && svc.weather(q) == Response(200, svc.weather(q).body)
      && var h := svc.weather(q).body;
      && var obs := GetWeather(location, date, svc).value.hourly;
      && |obs| == |h.time|
      && (forall k :: 0 <= k < |h.time| ==> Complete(h, k) && obs[k] == ObservationAt(h, k))
  {
  }

  /** A date on or after the reference day is fetched from the forecast
      endpoint, an earlier one from the archive. */
  lemma EndpointByDate(place: Place, day: int)
    requires 0 <= CivilFromDays(day).year <= 9999
    ensures QueryFor(place, IsoDate(day)).endpoint == (if day >= ReferenceToday then Forecast else Archive)
  {
    IsoDateRoundTrip(day);
  }

  /** A report names the country of the first geocoding result. */
  lemma ReportCountry(location: string, date: string, svc: Services)
    requires GetWeather(location, date, svc).Success?
    ensures var g := svc.geocode(location);
      && g.Response? && |g.body| > 0
      && GetWeather(location, date, svc).value.country == Country(g.body[0].displayName)
  {
  }

  /** A geocoder that answers with a place, a weather service that answers
      200 for it and a complete set of hours make `getWeather` succeed with
      those hours. */
  lemma CompleteDayIsReported(location: string, date: string, svc: Services)
    requires svc.geocode(location).Response? && 200 <= svc.geocode(location).status < 300
    requires |svc.geocode(location).body| > 0
    requires var q := QueryFor(svc.geocode(location).body[0], date);
      svc.weather(q).Response? && svc.weather(q).status == 200
    requires var h := svc.weather(QueryFor(svc.geocode(location).body[0], date)).body;
      forall k :: 0 <= k < |h.time| ==> Complete(h, k)
    ensures var place := svc.geocode(location).body[0];
      var h := svc.weather(QueryFor(place, date)).body;
      GetWeather(location, date, svc) == Success(Report(location, Country(place.displayName), date, ZipFrom(h, 0).value))
  {
  }

  /** The country is the text after the last ", " of the display name, or
      the whole name when it holds none, and 'Unknown' when that text is
      empty; it never contains ", ". */
  lemma CountryIsLastComponent(displayName: string)
    ensures var l := LastPart(displayName, ", ");
      && Country(displayName) == (if l == "" then "Unknown" else l)
      && !Contains(l, ", ")
      && |l| <= |displayName| && l == displayName[|displayName| - |l|..]
      && (Contains(displayName, ", ") ==>
            |l| + 2 <= |displayName| && MatchAt(displayName, ", ", |displayName| - |l| - 2))
      && (!Contains(displayName, ", ") ==> l == displayName)
  {
    LastPartIsLastComponent(displayName, ", ");
  }
}
