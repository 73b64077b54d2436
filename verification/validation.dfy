/** The request checks `generateItinerary` makes before it calls any
    external service, in the order it makes them, and the number of trip
    days it derives from a request that passes them. */
module Validation {
  import opened Wrappers
  import opened Text
  import opened Values
  import opened Dates

  /** `req.body` of a generation request; a field the client left out is
      `Undefined`. */
  datatype RequestBody = RequestBody(
    destination: Value,
    startDate: Value,
    endDate: Value,
    preferences: Value,
    tripType: Value,
    numberOfPeople: Value)

  datatype TripType = Budget | Luxury {
    function Name(): string {
      match this
      case Budget => "budget"
      case Luxury => "luxury"
    }

    /** `type.charAt(0).toUpperCase() + type.slice(1)`. */
    function Title(): string {
      match this
      case Budget => "Budget"
      case Luxury => "Luxury"
    }
  }

  /** A request that passed every check, with its dates as day numbers. */
  datatype ValidRequest = ValidRequest(
    destination: Value,
    startText: string,
    endText: string,
    startDay: int,
    endDay: int,
    preferences: seq<Value>,
    tripType: TripType,
    people: int)

  /** Why the checks stop. Every case but `Unconvertible` is a 400 refusal
      with its message; `Unconvertible` is the TypeError `String()` throws
      for a date field it cannot convert, which the outer catch answers
      with 500. */
  datatype ValidationError =
    | MissingFields
    | Unconvertible
    | InvalidDate
    | EndNotAfterStart
    | BadPreferences
    | BadType
    | BadPeople
    | BeyondHorizon
  {
    function Message(): string {
      match this
      case MissingFields => "Missing required fields: destination, startDate, endDate, or preferences"
      case Unconvertible => ConversionError
      case InvalidDate => "Invalid date format. Use YYYY-MM-DD"
      case EndNotAfterStart => "End date must be after start date"
      case BadPreferences => "Preferences must be a non-empty array"
      case BadType => "Type must be \"budget\" or \"luxury\""
      case BadPeople => "Number of people must be a positive integer"
      case BeyondHorizon => "Weather forecast unavailable for dates beyond " + IsoDate(MaxForecastDay)
    }
  }

  /** The last day Open-Meteo forecasts, sixteen days after the reference day. */
  const MaxForecastDay: int := ReferenceToday + 16

  /** `type = 'budget'`: the default applies only to an absent field. */
  function TypeOrDefault(v: Value): Value {
    if v.Undefined? then Str("budget") else v
  }

  /** `numberOfPeople = 1`. */
  function PeopleOrDefault(v: Value): Value {
    if v.Undefined? then Num(1.0) else v
  }

  /** `isValidDate(v)`: the regular expression sees `String(v)`, and so does
      the `Date` constructor once the pattern has matched. */
  function DateOf(v: Value): Option<int> {
    ParseIsoDate(ToText(v))
  }

  /** `!isValidDate(startDate) || !isValidDate(endDate)` throws: the start
      date cannot be converted, or it is a valid date and the end date
      cannot be converted. An invalid start date stops the check before the
      end date is looked at. */
  predicate DateCheckThrows(body: RequestBody) {
    !Printable(body.startDate) || (DateOf(body.startDate).Some? && !Printable(body.endDate))
  }

  function ParseType(v: Value): Option<TripType> {
    if v == Str("budget") then Some(Budget)
    else if v == Str("luxury") then Some(Luxury)
    else None
  }

  /** `Number.isInteger(v) && v >= 1`. */
  predicate IsPositiveInteger(v: Value) {
    IsInteger(v) && v.n >= 1.0
  }

  /** The checks of the controller, first failing check first. */
  function Validate(body: RequestBody): (r: Result<ValidRequest, ValidationError>)
    ensures r.Success? ==>
      && Truthy(body.destination) && r.value.destination == body.destination
      && DateOf(body.startDate) == Some(r.value.startDay) && r.value.startText == ToText(body.startDate)
      && DateOf(body.endDate) == Some(r.value.endDay) && r.value.endText == ToText(body.endDate)
      && Printable(body.startDate) && Printable(body.endDate)
      && r.value.startDay < r.value.endDay <= MaxForecastDay
      && body.preferences == Arr(r.value.preferences) && |r.value.preferences| > 0
      && TypeOrDefault(body.tripType) == Str(r.value.tripType.Name())
      && PeopleOrDefault(body.numberOfPeople) == Num(r.value.people as real) && r.value.people >= 1
    ensures r == Failure(MissingFields) <==>
      !Truthy(body.destination) || !Truthy(body.startDate) || !Truthy(body.endDate) || !Truthy(body.preferences)
  {
    if !Truthy(body.destination) || !Truthy(body.startDate) || !Truthy(body.endDate) || !Truthy(body.preferences) then
      Failure(MissingFields)
    else if DateCheckThrows(body) then Failure(Unconvertible)
    else if DateOf(body.startDate).None? || DateOf(body.endDate).None? then Failure(InvalidDate)
    else CheckDated(body, DateOf(body.startDate).value, DateOf(body.endDate).value)
  }

  /** The checks that follow the date parsing, given the two parsed days. */
  function CheckDated(body: RequestBody, start: int, end: int): Result<ValidRequest, ValidationError> {
    if end <= start then Failure(EndNotAfterStart)
    else if !body.preferences.Arr? || |body.preferences.items| == 0 then Failure(BadPreferences)
    else if ParseType(TypeOrDefault(body.tripType)).None? then Failure(BadType)
    else if !IsPositiveInteger(PeopleOrDefault(body.numberOfPeople)) then Failure(BadPeople)
    else if start > MaxForecastDay || end > MaxForecastDay then Failure(BeyondHorizon)
    else
      var people := PeopleOrDefault(body.numberOfPeople).n.Floor;
      Success(ValidRequest(body.destination, ToText(body.startDate), ToText(body.endDate),
        start, end, body.preferences.items, ParseType(TypeOrDefault(body.tripType)).value, people))
  }

  /** `Math.ceil((end - start) / 86400000) + 1`: both ends are counted. */
  function DayCount(v: ValidRequest): (n: nat)
    requires v.startDay < v.endDay
    ensures n == v.endDay - v.startDay + 1
    ensures n >= 2
  {
    v.endDay - v.startDay + 1
  }

  /** The request checks hold, stated independently of their order. */
  predicate Acceptable(body: RequestBody) {
    && Truthy(body.destination) && Truthy(body.startDate) && Truthy(body.endDate) && Truthy(body.preferences)
    && Printable(body.startDate) && Printable(body.endDate)
    && DateOf(body.startDate).Some? && DateOf(body.endDate).Some?
    && DateOf(body.startDate).value < DateOf(body.endDate).value <= MaxForecastDay
    && body.preferences.Arr? && |body.preferences.items| > 0
    && TypeOrDefault(body.tripType) in {Str("budget"), Str("luxury")}
    && IsPositiveInteger(PeopleOrDefault(body.numberOfPeople))
  }

  /** The controller's checks in the order it makes them. */
  const CheckOrder: seq<ValidationError> :=
    [MissingFields, Unconvertible, InvalidDate, EndNotAfterStart, BadPreferences, BadType, BadPeople, BeyondHorizon]

  /** Check `e` on its own fails for the request. The two date comparisons
      only fail on dates that parse, which the date check ensures before
      they are made. */
  predicate Fails(body: RequestBody, e: ValidationError) {
    match e
    case MissingFields =>
      !Truthy(body.destination) || !Truthy(body.startDate) || !Truthy(body.endDate) || !Truthy(body.preferences)
    case Unconvertible => DateCheckThrows(body)
    case InvalidDate => DateOf(body.startDate).None? || DateOf(body.endDate).None?
    case EndNotAfterStart =>
      DateOf(body.startDate).Some? && DateOf(body.endDate).Some?
      && DateOf(body.endDate).value <= DateOf(body.startDate).value
    case BadPreferences => !body.preferences.Arr? || |body.preferences.items| == 0
    case BadType => ParseType(TypeOrDefault(body.tripType)).None?
    case BadPeople => !IsPositiveInteger(PeopleOrDefault(body.numberOfPeople))
    case BeyondHorizon =>
      DateOf(body.startDate).Some? && DateOf(body.endDate).Some?
      && (DateOf(body.startDate).value > MaxForecastDay || DateOf(body.endDate).value > MaxForecastDay)
  }

  /** The first `n` checks all pass. */
  predicate PassesFirst(body: RequestBody, n: nat)
    requires n <= |CheckOrder|
  {
    n == 0 || (PassesFirst(body, n - 1) && !Fails(body, CheckOrder[n - 1]))
  }

  /** The request is refused with the error of check `i` exactly when that
      check fails and every earlier one passes. */
  lemma FirstFailureReported(body: RequestBody, i: nat)
    requires i < |CheckOrder|
    ensures Validate(body) == Failure(CheckOrder[i]) <==> Fails(body, CheckOrder[i]) && PassesFirst(body, i)
  {
    if i == 0 {
      assert CheckOrder[i] == MissingFields;
      ReportsMissingFields(body);
    } else if i == 1 {
      assert CheckOrder[i] == Unconvertible;
      ReportsUnconvertible(body);
    } else if i == 2 {
      assert CheckOrder[i] == InvalidDate;
      ReportsInvalidDate(body);
    } else if i == 3 {
      assert CheckOrder[i] == EndNotAfterStart;
      ReportsEndNotAfterStart(body);
    } else if i == 4 {
      assert CheckOrder[i] == BadPreferences;
      ReportsBadPreferences(body);
    } else if i == 5 {
      assert CheckOrder[i] == BadType;
      ReportsBadType(body);
    } else if i == 6 {
      assert CheckOrder[i] == BadPeople;
      ReportsBadPeople(body);
    } else {
      assert CheckOrder[i] == BeyondHorizon;
      ReportsBeyondHorizon(body);
    }
  }

  lemma ReportsMissingFields(body: RequestBody)
    ensures Validate(body) == Failure(MissingFields) <==> Fails(body, MissingFields) && PassesFirst(body, 0)
  {
    PassesInOrder(body);
  }

  lemma ReportsUnconvertible(body: RequestBody)
    ensures Validate(body) == Failure(Unconvertible) <==> Fails(body, Unconvertible) && PassesFirst(body, 1)
  {
    PassesInOrder(body);
  }

  lemma ReportsInvalidDate(body: RequestBody)
    ensures Validate(body) == Failure(InvalidDate) <==> Fails(body, InvalidDate) && PassesFirst(body, 2)
  {
    PassesInOrder(body);
  }

  lemma ReportsEndNotAfterStart(body: RequestBody)
    ensures Validate(body) == Failure(EndNotAfterStart) <==> Fails(body, EndNotAfterStart) && PassesFirst(body, 3)
  {
    PassesInOrder(body);
    DatesFirst(body);
  }

  lemma ReportsBadPreferences(body: RequestBody)
    ensures Validate(body) == Failure(BadPreferences) <==> Fails(body, BadPreferences) && PassesFirst(body, 4)
  {
    PassesInOrder(body);
    DatesFirst(body);
  }

  lemma ReportsBadType(body: RequestBody)
    ensures Validate(body) == Failure(BadType) <==> Fails(body, BadType) && PassesFirst(body, 5)
  {
    BadTypeAfterOthers(body);
    if Fails(body, BadType) && PassesFirst(body, 5) {
      PassedChecks(body, 5);
      DatesFirst(body);
    }
  }

  lemma BadTypeAfterOthers(body: RequestBody)
    ensures Validate(body) == Failure(BadType) ==> Fails(body, BadType) && PassesFirst(body, 5)
  {
    PassesInOrder(body);
    DatesFirst(body);
  }

  lemma ReportsBadPeople(body: RequestBody)
    ensures Validate(body) == Failure(BadPeople) <==> Fails(body, BadPeople) && PassesFirst(body, 6)
  {
    BadPeopleAfterOthers(body);
    OthersBeforeBadPeople(body);
  }

  lemma BadPeopleAfterOthers(body: RequestBody)
    ensures Validate(body) == Failure(BadPeople) ==> Fails(body, BadPeople) && PassesFirst(body, 6)
  {
    PassesInOrder(body);
    DatesFirst(body);
  }

  lemma OthersBeforeBadPeople(body: RequestBody)
    ensures Fails(body, BadPeople) && PassesFirst(body, 6) ==> Validate(body) == Failure(BadPeople)
  {
    if Fails(body, BadPeople) && PassesFirst(body, 6) {
      PassedChecks(body, 6);
      DatesFirst(body);
    }
  }

  lemma ReportsBeyondHorizon(body: RequestBody)
    ensures Validate(body) == Failure(BeyondHorizon) <==> Fails(body, BeyondHorizon) && PassesFirst(body, 7)
  {
    BeyondHorizonAfterOthers(body);
    OthersBeforeBeyondHorizon(body);
  }

  lemma BeyondHorizonAfterOthers(body: RequestBody)
    ensures Validate(body) == Failure(BeyondHorizon) ==> Fails(body, BeyondHorizon) && PassesFirst(body, 7)
  {
    PassesInOrder(body);
    DatesFirst(body);
  }

  lemma OthersBeforeBeyondHorizon(body: RequestBody)
    ensures Fails(body, BeyondHorizon) && PassesFirst(body, 7) ==> Validate(body) == Failure(BeyondHorizon)
  {
    if Fails(body, BeyondHorizon) && PassesFirst(body, 7) {
      PassedChecks(body, 7);
      DatesFirst(body);
    }
  }

  /** Passing the first `n` checks, three or more, spelled out check by check. */
  lemma PassedChecks(body: RequestBody, n: nat)
    requires 3 <= n <= 7 && PassesFirst(body, n)
    ensures PassesFirst(body, 3)
    ensures n > 3 ==> !Fails(body, EndNotAfterStart)
    ensures n > 4 ==> !Fails(body, BadPreferences)
    ensures n > 5 ==> !Fails(body, BadType)
    ensures n > 6 ==> !Fails(body, BadPeople)
  {
    PassesInOrder(body);
  }

  /** A request that fails one of the first three checks is refused by it;
      one that passes them is judged by the remaining checks on its days. */
  lemma DatesFirst(body: RequestBody)
    ensures !PassesFirst(body, 3) ==>
      Validate(body) == Failure(MissingFields) || Validate(body) == Failure(Unconvertible)
      || Validate(body) == Failure(InvalidDate)
    ensures PassesFirst(body, 3) ==>
      Validate(body) == CheckDated(body, DateOf(body.startDate).value, DateOf(body.endDate).value)
  {
    PassesInOrder(body);
  }

  /** The request is accepted exactly when no check fails. */
  lemma AcceptedIffAllPass(body: RequestBody)
    ensures Validate(body).Success? <==> PassesFirst(body, |CheckOrder|)
  {
    PassesInOrder(body);
  }

  /** `PassesFirst` spelled out check by check. */
  lemma PassesInOrder(body: RequestBody)
    ensures PassesFirst(body, 0)
    ensures PassesFirst(body, 1) == !Fails(body, MissingFields)
    ensures PassesFirst(body, 2) == (PassesFirst(body, 1) && !Fails(body, Unconvertible))
    ensures PassesFirst(body, 3) == (PassesFirst(body, 2) && !Fails(body, InvalidDate))
    ensures PassesFirst(body, 4) == (PassesFirst(body, 3) && !Fails(body, EndNotAfterStart))
    ensures PassesFirst(body, 5) == (PassesFirst(body, 4) && !Fails(body, BadPreferences))
    ensures PassesFirst(body, 6) == (PassesFirst(body, 5) && !Fails(body, BadType))
    ensures PassesFirst(body, 7) == (PassesFirst(body, 6) && !Fails(body, BadPeople))
    ensures PassesFirst(body, 8) == (PassesFirst(body, 7) && !Fails(body, BeyondHorizon))
  {
    assert CheckOrder[0] == MissingFields && CheckOrder[1] == Unconvertible && CheckOrder[2] == InvalidDate;
    assert CheckOrder[3] == EndNotAfterStart && CheckOrder[4] == BadPreferences && CheckOrder[5] == BadType;
    assert CheckOrder[6] == BadPeople && CheckOrder[7] == BeyondHorizon;
    PassesStep(body, 1);
    PassesStep(body, 2);
    PassesStep(body, 3);
    PassesStep(body, 4);
    PassesStep(body, 5);
    PassesStep(body, 6);
    PassesStep(body, 7);
    PassesStep(body, 8);
  }

  lemma PassesStep(body: RequestBody, n: nat)
    requires 0 < n <= |CheckOrder|
    ensures PassesFirst(body, n) == (PassesFirst(body, n - 1) && !Fails(body, CheckOrder[n - 1]))
  {
  }

  /** A request is accepted exactly when every check holds. */
  lemma AcceptedIffAcceptable(body: RequestBody)
    ensures Validate(body).Success? <==> Acceptable(body)
  {
  }

  /** The horizon check rejects a request that passed the earlier checks
      exactly when its end date lies after the last forecast day. The start
      date never decides it, since it precedes the end date. */
  lemma HorizonRejectsLateEnd(body: RequestBody)
    requires Validate(body).Success? || Validate(body) == Failure(BeyondHorizon)
    ensures Validate(body) == Failure(BeyondHorizon) <==> DateOf(body.endDate).value > MaxForecastDay
  {
  }

  /** There is no lower bound: a trip entirely before the reference day is
      accepted when it passes the other checks. */
  lemma PastTripsAccepted(body: RequestBody)
    requires Acceptable(body)
    requires DateOf(body.endDate).value < ReferenceToday
    ensures Validate(body).Success?
  {
  }

  /** The horizon message names 2025-05-11. */
  lemma HorizonMessage()
    ensures BeyondHorizon.Message() == "Weather forecast unavailable for dates beyond " + "2025-05-11"
  {
    HorizonDate();
  }

  /** A missing destination is reported before anything else is examined. */
  lemma MissingFieldsFirst(body: RequestBody)
    requires body.destination == Undefined
    ensures Validate(body) == Failure(MissingFields)
  {
  }

  /** A request whose fields pass every check is accepted with exactly
      those fields. */
  lemma AcceptedAs(body: RequestBody, v: ValidRequest)
    requires Truthy(body.destination) && Truthy(body.startDate) && Truthy(body.endDate)
    requires Printable(body.startDate) && Printable(body.endDate)
    requires v.destination == body.destination
    requires v.startText == ToText(body.startDate) && v.endText == ToText(body.endDate)
    requires DateOf(body.startDate) == Some(v.startDay) && DateOf(body.endDate) == Some(v.endDay)
    requires v.startDay < v.endDay <= MaxForecastDay
    requires body.preferences == Arr(v.preferences) && |v.preferences| > 0
    requires ParseType(TypeOrDefault(body.tripType)) == Some(v.tripType)
    requires IsPositiveInteger(PeopleOrDefault(body.numberOfPeople))
    requires PeopleOrDefault(body.numberOfPeople).n == v.people as real
    ensures Validate(body) == Success(v)
  {
  }

  /** A request whose dates parse and are in order but reach past the last
      forecast day, and whose other fields pass, is refused by the horizon
      check. */
  lemma RefusedBeyondHorizon(body: RequestBody, start: int, end: int)
    requires Truthy(body.destination) && Truthy(body.startDate) && Truthy(body.endDate)
    requires Printable(body.startDate) && Printable(body.endDate)
    requires DateOf(body.startDate) == Some(start) && DateOf(body.endDate) == Some(end)
    requires start < end && MaxForecastDay < end
    requires body.preferences.Arr? && |body.preferences.items| > 0
    requires ParseType(TypeOrDefault(body.tripType)).Some?
    requires IsPositiveInteger(PeopleOrDefault(body.numberOfPeople))
    ensures Validate(body) == Failure(BeyondHorizon)
  {
  }

  /** A three-day trip to Paris from 2025-04-26 to 2025-04-28 for two, with
      the type left at its default, is a valid budget request. */
  lemma ParisRequest(body: RequestBody)
    requires body == RequestBody(Str("Paris"), Str("2025-04-26"), Str("2025-04-28"),
                                 Arr([Str("museums")]), Undefined, Num(2.0))
    ensures var r := Validate(body);
      && r.Success?
      && r.value.tripType == Budget && r.value.people == 2
      && DayCount(r.value) == 3
  {
    ParisStart(body);
    ParisEnd(body);
    PeopleCount(body.numberOfPeople, 2);
    TypeNamed(body.tripType, Budget);
    AcceptedAs(body, ValidRequest(body.destination, body.startDate.s, body.endDate.s, 20204, 20206,
                                  body.preferences.items, Budget, 2));
  }

  lemma ParisStart(body: RequestBody)
    requires body == RequestBody(Str("Paris"), Str("2025-04-26"), Str("2025-04-28"),
                                 Arr([Str("museums")]), Undefined, Num(2.0))
    ensures Truthy(body.startDate) && DateOf(body.startDate) == Some(20204)
  {
    ScenarioDay(body.startDate.s, 20204);
    DateShown(body.startDate, 20204);
  }

  lemma ParisEnd(body: RequestBody)
    requires body == RequestBody(Str("Paris"), Str("2025-04-26"), Str("2025-04-28"),
                                 Arr([Str("museums")]), Undefined, Num(2.0))
    ensures Truthy(body.endDate) && DateOf(body.endDate) == Some(20206)
  {
    ScenarioDay(body.endDate.s, 20206);
    DateShown(body.endDate, 20206);
  }

  /** A trip ending 2025-05-20 lies beyond the forecast horizon. */
  lemma LateRequest(body: RequestBody)
    requires body == RequestBody(Str("Paris"), Str("2025-05-15"), Str("2025-05-20"),
                                 Arr([Str("food")]), Str("luxury"), Undefined)
    ensures Validate(body) == Failure(BeyondHorizon)
  {
    LateStart(body);
    LateEnd(body);
    PeopleCount(body.numberOfPeople, 1);
    TypeNamed(body.tripType, Luxury);
    RefusedBeyondHorizon(body, 20223, 20228);
  }

  lemma LateStart(body: RequestBody)
    requires body == RequestBody(Str("Paris"), Str("2025-05-15"), Str("2025-05-20"),
                                 Arr([Str("food")]), Str("luxury"), Undefined)
    ensures Truthy(body.startDate) && DateOf(body.startDate) == Some(20223)
  {
    ScenarioDay(body.startDate.s, 20223);
    DateShown(body.startDate, 20223);
  }

  lemma LateEnd(body: RequestBody)
    requires body == RequestBody(Str("Paris"), Str("2025-05-15"), Str("2025-05-20"),
                                 Arr([Str("food")]), Str("luxury"), Undefined)
    ensures Truthy(body.endDate) && DateOf(body.endDate) == Some(20228)
  {
    ScenarioDay(body.endDate.s, 20228);
    DateShown(body.endDate, 20228);
  }

  /** The dates of the two requests above, spelled out. */
  lemma ScenarioDay(s: string, day: int)
    requires (s == "2025-04-26" && day == 20204) || (s == "2025-04-28" && day == 20206)
          || (s == "2025-05-15" && day == 20223) || (s == "2025-05-20" && day == 20228)
    ensures ShowsDay(s, day)
  {
    if s == "2025-04-26" {
      ParisStartText(s, day);
    } else if s == "2025-04-28" {
      ParisEndText(s, day);
    } else if s == "2025-05-15" {
      LateStartText(s, day);
    } else {
      LateEndText(s, day);
    }
  }

  lemma ParisStartText(s: string, day: int)
    requires s == "2025-04-26" && day == 20204
    ensures ShowsDay(s, day)
  {
  }

  lemma ParisEndText(s: string, day: int)
    requires s == "2025-04-28" && day == 20206
    ensures ShowsDay(s, day)
  {
  }

  lemma LateStartText(s: string, day: int)
    requires s == "2025-05-15" && day == 20223
    ensures ShowsDay(s, day)
  {
  }

  lemma LateEndText(s: string, day: int)
    requires s == "2025-05-20" && day == 20228
    ensures ShowsDay(s, day)
  {
  }

  /** A whole number of people, given or by default, passes the check. */
  lemma PeopleCount(v: Value, n: int)
    requires (v == Undefined && n == 1) || (v == Num(n as real) && n >= 1)
    ensures IsPositiveInteger(PeopleOrDefault(v)) && PeopleOrDefault(v).n == n as real
  {
    assert (n as real).Floor == n;
  }

  /** A type given by its name, or left out, passes the check. */
  lemma TypeNamed(v: Value, t: TripType)
    requires (v == Undefined && t == Budget) || v == Str(t.Name())
    ensures ParseType(TypeOrDefault(v)) == Some(t)
  {
  }

  /** A date field that spells a day is present and parses to that day. */
  lemma DateShown(v: Value, day: int)
    requires v.Str? && ShowsDay(v.s, day)
    ensures Truthy(v) && DateOf(v) == Some(day)
  {
    ParseShownDay(v.s, day);
  }
}
