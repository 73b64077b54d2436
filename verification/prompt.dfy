/** The text `generateItinerary` sends to the language model: a fixed
    template, indented six spaces, into which the request, the trip length,
    the hotel names and one line per day of weather are substituted. */
module Prompt {
  import opened Wrappers
  import opened Text
  import opened Values
  import opened Dates
  import opened Validation
  import opened Weather

  const Indent := "      "

  /** `${w.avgTemperature}`: a number of tenths, or `NaN` for a day without
      readings. */
  function TemperatureText(t: Option<int>): string {
    match t
    case None => "NaN"
    case Some(x) => TenthsText(x)
  }

  /** The weather line of one day. */
  function WeatherLine(w: DaySummary): string {
    "Day " + IntText(w.dayNumber) + " (" + w.date + "): Avg Temp " + TemperatureText(w.avgTemperature)
      + "\U{00B0}C, " + w.condition.Name() + ", Precipitation " + TenthsText(w.precipitation) + "mm"
  }

  function WeatherLines(ws: seq<DaySummary>): (ls: seq<string>)
    ensures |ls| == |ws|
    ensures forall k :: 0 <= k < |ws| ==> ls[k] == WeatherLine(ws[k])
  {
    seq(|ws|, k requires 0 <= k < |ws| => WeatherLine(ws[k]))
  }

  /** `weatherSummaries.map(...).join('\n')`. */
  function WeatherBlock(ws: seq<DaySummary>): string {
    Join(WeatherLines(ws), "\n")
  }

  const HotelsLead := "Suggested hotels (use these for accommodation suggestions): "

  /** The accommodation field of the response structure. */
  function AccommodationChoice(hotels: string): string {
    "\"name\": \"One of: " + hotels + "\""
  }

  function CostLine(hint: string): string {
    "adjust costs appropriately (" + hint + ")"
  }

  /** The cost hint of the requirements list. */
  function CostHint(t: TripType): string {
    if t == Luxury then "high-end experiences" else "affordable options"
  }

  /** The texts substituted into the template. */
  datatype Fields = Fields(
    kind: string,
    destination: string,
    days: string,
    startDate: string,
    endDate: string,
    people: string,
    preferences: string,
    hotels: string,
    weather: string,
    hint: string)

  /** Each substitution as the template literal renders it. */
  function FieldsOf(req: ValidRequest, days: nat, hotels: seq<Value>, weather: seq<DaySummary>): (f: Fields)
    ensures f.hotels == JoinValues(hotels, ", ") && f.weather == WeatherBlock(weather)
    ensures f.hint == CostHint(req.tripType) && f.kind == req.tripType.Name()
    ensures f.preferences == JoinValues(req.preferences, ", ")
  {
    Fields(req.tripType.Name(), ToText(req.destination), NatText(days), IsoDate(req.startDay), IsoDate(req.endDay),
      IntText(req.people), JoinValues(req.preferences, ", "), JoinValues(hotels, ", "), WeatherBlock(weather),
      CostHint(req.tripType))
  }

  /** The lines of the template, before they are joined with newlines. The
      first line is empty (the template opens with a line break) and the
      last holds the four spaces before the closing backtick. */
  function Template(f: Fields): (ls: seq<string>)
    ensures |ls| == 64
    ensures forall k :: 0 <= k < 64 ==> ls[k] == Line(f, k)
  {
    seq(64, k requires 0 <= k < 64 => Line(f, k))
  }

  /** Line `k` of the template. */
  function Line(f: Fields, k: nat): string
    requires k < 64
  {
    match k
    case 0 => ""
    case 1 =>
      (Indent + "Create a detailed " + f.kind + " travel itinerary for " + f.destination)
      + (" for " + f.days + " days from " + f.startDate + " to " + f.endDate + " for ")
      + (f.people + " people.")
    case 2 => Indent
    case 3 => Indent + "Traveler preferences: " + f.preferences
    case 4 => Indent
    case 5 => Indent + (HotelsLead + f.hotels)
    case 6 => Indent
    case 7 => Indent + "Weather forecast:"
    case 8 => Indent + f.weather
    case 9 => Indent
    case 10 => Indent + "Format the response as a valid JSON object following EXACTLY this structure:"
    case 11 => Indent + "{"
    case 12 => Indent + "  \"days\": ["
    case 13 => Indent + "    {"
    case 14 => Indent + "      \"dayNumber\": 1,"
    case 15 => Indent + "      \"weather\": {"
    case 16 => Indent + "        \"avgTemperature\": 25,"
    case 17 => Indent + "        \"precipitation\": 0,"
    case 18 => Indent + "        \"condition\": \"Sunny\""
    case 19 => Indent + "      },"
    case 20 => Indent + "      \"activities\": ["
    case 21 => Indent + "        {"
    case 22 => Indent + "          \"time\": \"09:00\","
    case 23 => Indent + "          \"description\": \"Activity description\","
    case 24 => Indent + "          \"cost\": 10,"
    case 25 => Indent + "          \"costPerPerson\": 10,"
    case 26 => Indent + "          \"location\": \"Location name\""
    case 27 => Indent + "        }"
    case 28 => Indent + "      ],"
    case 29 => Indent + "      \"accommodation\": {"
    case 30 => (Indent + "        ") + (AccommodationChoice(f.hotels) + ",")
    case 31 => Indent + "        \"cost\": 50,"
    case 32 => Indent + "        \"costPerPerson\": 50,"
    case 33 => Indent + "        \"address\": \"Accommodation address\""
    case 34 => Indent + "      },"
    case 35 => Indent + "      \"totalDailyCost\": 100,"
    case 36 => Indent + "      \"totalDailyCostPerPerson\": 100"
    case 37 => Indent + "    }"
    case 38 => Indent + "  ],"
    case 39 => Indent + "  \"totalCost\": 500,"
    case 40 => Indent + "  \"totalCostPerPerson\": 500,"
    case 41 => Indent + "  \"transportationOptions\": ["
    case 42 => Indent + "    {"
    case 43 => Indent + "      \"type\": \"Transportation type\","
    case 44 => Indent + "      \"cost\": 20,"
    case 45 => Indent + "      \"costPerPerson\": 20,"
    case 46 => Indent + "      \"duration\": \"Duration info\""
    case 47 => Indent + "    }"
    case 48 => Indent + "  ],"
    case 49 => Indent + "  \"summary\": \"Brief summary of the " + f.days + "-day trip to " + f.destination + " for " + f.people + " people, highlighting key experiences and attractions.\""
    case 50 => Indent + "}"
    case 51 => Indent
    case 52 => Indent + "Requirements:"
    case 53 => (Indent + "- For " + f.kind + " type, ") + CostLine(f.hint)
    case 54 => Indent + "- Include 4-6 activities per day with varied morning, afternoon, and evening options"
    case 55 => Indent + "- Adjust activities based on weather: prefer indoor activities (museums, dining) for rainy days, outdoor activities (beaches, hikes) for sunny/mild days"
    case 56 => Indent + "- All costs should be in USD as numbers without $ symbol"
    case 57 => Indent + "- Calculate both total costs for the group (" + f.people + " people) and per person costs"
    case 58 => Indent + "- Be specific with activity descriptions and locations"
    case 59 => Indent + "- Use the provided hotel names for accommodation suggestions"
    case 60 => Indent + "- Include a concise trip summary highlighting key experiences"
    case 61 => Indent + "- Only return the JSON with no additional text"
    case 62 => Indent + "- Ensure the JSON is valid and properly formatted"
    case _ => "    "
  }

  /** The prompt. */
  function Compose(req: ValidRequest, days: nat, hotels: seq<Value>, weather: seq<DaySummary>): string {
    Join(Template(FieldsOf(req, days, hotels, weather)), "\n")
  }

  /** The template holds line `k`. */
  lemma HasLine(f: Fields, k: nat, text: string)
    requires k < 64 && Contains(Line(f, k), text)
    ensures Contains(Join(Template(f), "\n"), text)
  {
    JoinContains(Template(f), "\n", k);
    ContainsTrans(Join(Template(f), "\n"), Line(f, k), text);
  }

  /** The prompt offers the hotel names twice: in the hotel line and as the
      accommodation choice of the response structure. */
  lemma PromptOffersHotels(req: ValidRequest, days: nat, hotels: seq<Value>, weather: seq<DaySummary>)
    ensures Contains(Compose(req, days, hotels, weather), HotelsLead + JoinValues(hotels, ", "))
    ensures Contains(Compose(req, days, hotels, weather), AccommodationChoice(JoinValues(hotels, ", ")))
  {
    var f := FieldsOf(req, days, hotels, weather);
    TemplateOffersHotels(f);
  }

  lemma TemplateOffersHotels(f: Fields)
    ensures Contains(Join(Template(f), "\n"), HotelsLead + f.hotels)
    ensures Contains(Join(Template(f), "\n"), AccommodationChoice(f.hotels))
  {
    ContainsRight(Indent, HotelsLead + f.hotels);
    HasLine(f, 5, HotelsLead + f.hotels);
    var a := AccommodationChoice(f.hotels);
    ContainsLeft(a, ",");
    ContainsRight(Indent + "        ", a + ",");
    ContainsTrans(Line(f, 30), a + ",", a);
    HasLine(f, 30, a);
  }

  /** The prompt lists the traveler's preferences, joined by ", ". */
  lemma PromptListsPreferences(req: ValidRequest, days: nat, hotels: seq<Value>, weather: seq<DaySummary>)
    ensures Contains(Compose(req, days, hotels, weather), "Traveler preferences: " + JoinValues(req.preferences, ", "))
  {
    TemplateListsPreferences(FieldsOf(req, days, hotels, weather));
  }

  lemma TemplateListsPreferences(f: Fields)
    ensures Contains(Join(Template(f), "\n"), "Traveler preferences: " + f.preferences)
  {
    ContainsRight(Indent, "Traveler preferences: " + f.preferences);
    assert Line(f, 3) == Indent + ("Traveler preferences: " + f.preferences);
    HasLine(f, 3, "Traveler preferences: " + f.preferences);
  }

  /** Every day's weather line appears in the prompt. */
  lemma PromptListsEveryDay(req: ValidRequest, days: nat, hotels: seq<Value>, weather: seq<DaySummary>, k: nat)
    requires k < |weather|
    ensures Contains(Compose(req, days, hotels, weather), WeatherLine(weather[k]))
  {
    var f := FieldsOf(req, days, hotels, weather);
    JoinContains(WeatherLines(weather), "\n", k);
    TemplateHasWeather(f);
    ContainsTrans(Join(Template(f), "\n"), f.weather, WeatherLine(weather[k]));
  }

  lemma TemplateHasWeather(f: Fields)
    ensures Contains(Join(Template(f), "\n"), f.weather)
  {
    ContainsRight(Indent, f.weather);
    HasLine(f, 8, f.weather);
  }

  /** The cost hint follows the trip type. */
  lemma PromptCostHint(req: ValidRequest, days: nat, hotels: seq<Value>, weather: seq<DaySummary>)
    ensures req.tripType == Luxury ==> Contains(Compose(req, days, hotels, weather), CostLine("high-end experiences"))
    ensures req.tripType == Budget ==> Contains(Compose(req, days, hotels, weather), CostLine("affordable options"))
  {
    TemplateCostHint(FieldsOf(req, days, hotels, weather));
  }

  lemma TemplateCostHint(f: Fields)
    ensures Contains(Join(Template(f), "\n"), CostLine(f.hint))
  {
    ContainsRight(Indent + "- For " + f.kind + " type, ", CostLine(f.hint));
    HasLine(f, 53, CostLine(f.hint));
  }

  /** The opening sentence states the trip length and both dates as the
      engine prints them. */
  lemma PromptStatesTrip(req: ValidRequest, days: nat, hotels: seq<Value>, weather: seq<DaySummary>)
    ensures Contains(Compose(req, days, hotels, weather),
                     " for " + NatText(days) + " days from " + IsoDate(req.startDay) + " to " + IsoDate(req.endDay) + " for ")
  {
    TemplateStatesTrip(FieldsOf(req, days, hotels, weather));
  }

  lemma TemplateStatesTrip(f: Fields)
    ensures Contains(Join(Template(f), "\n"), " for " + f.days + " days from " + f.startDate + " to " + f.endDate + " for ")
  {
    var t := " for " + f.days + " days from " + f.startDate + " to " + f.endDate + " for ";
    ContainsMiddle(Indent + "Create a detailed " + f.kind + " travel itinerary for " + f.destination, t, f.people + " people.");
    HasLine(f, 1, t);
  }

  lemma NoNewlineInNumeral(s: string)
    requires forall k :: 0 <= k < |s| ==> IsNumeralChar(s[k])
    ensures '\n' !in s
  {
  }

  lemma TenthsOneLine(t: int)
    ensures '\n' !in TenthsText(t)
  {
    NoNewlineInNumeral(TenthsText(t));
  }

  lemma TemperatureOneLine(t: Option<int>)
    ensures '\n' !in TemperatureText(t)
  {
    if t.Some? {
      TenthsOneLine(t.value);
    }
  }

  lemma NoNewlineJoined(a: string, b: string)
    requires '\n' !in a && '\n' !in b
    ensures '\n' !in a + b
  {
  }

  /** A weather line is a single line when its date is. */
  lemma WeatherLineIsOneLine(w: DaySummary)
    requires '\n' !in w.date
    ensures '\n' !in WeatherLine(w)
  {
    var day := IntText(w.dayNumber);
    var temp := TemperatureText(w.avgTemperature);
    var rain := TenthsText(w.precipitation);
    NoNewlineInNumeral(day);
    TemperatureOneLine(w.avgTemperature);
    TenthsOneLine(w.precipitation);
    var s := "Day " + day;
    NoNewlineJoined("Day ", day);
    NoNewlineJoined(s, " (");
    s := s + " (";
    NoNewlineJoined(s, w.date);
    s := s + w.date;
    NoNewlineJoined(s, "): Avg Temp ");
    s := s + "): Avg Temp ";
    NoNewlineJoined(s, temp);
    s := s + temp;
    NoNewlineJoined(s, "\U{00B0}C, ");
    s := s + "\U{00B0}C, ";
    NoNewlineJoined(s, w.condition.Name());
    s := s + w.condition.Name();
    NoNewlineJoined(s, ", Precipitation ");
    s := s + ", Precipitation ";
    NoNewlineJoined(s, rain);
    s := s + rain;
    NoNewlineJoined(s, "mm");
    assert s + "mm" == WeatherLine(w);
  }

  /** Splitting the weather block at line breaks recovers the day lines,
      one per day in day order. */
  lemma WeatherBlockRoundTrip(ws: seq<DaySummary>)
    requires |ws| > 0
    requires forall k :: 0 <= k < |ws| ==> '\n' !in ws[k].date
    ensures Split(WeatherBlock(ws), "\n") == WeatherLines(ws)
  {
    forall k | 0 <= k < |ws|
      ensures "\n"[0] !in WeatherLines(ws)[k]
    {
      WeatherLineIsOneLine(ws[k]);
    }
    SplitJoin(WeatherLines(ws), "\n");
  }
}
