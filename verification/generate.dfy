/** `generateItinerary`: validate the request, gather hotel names and
    weather, compose the prompt, ask the language model, clean and parse its
    reply, and wrap the parsed itinerary in the response envelope. The
    language model and `JSON.parse` are parameters. */
module Generate {
  import opened Wrappers
  import opened Text
  import opened Values
  import opened Dates
  import opened Validation
  import Hotels
  import OpenMeteo
  import Weather
  import Prompt
  import Fences

  /** The external collaborators of the controller. */
  datatype Services = Services(
    hotels: Hotels.Services,
    weather: OpenMeteo.Services,
    model: string -> Result<string, string>,
    parse: string -> Result<Value, string>)

  /** `itineraryData.itinerary`. */
  datatype Envelope = Envelope(tripType: TripType, numberOfPeople: int, content: Value)

  /** The response the controller sends. */
  datatype Outcome =
    | BadRequest(reason: ValidationError)
    | ServerError(message: string, error: string)
    | Generated(message: string, itinerary: Envelope)
  {
    function Status(): int {
      match this
      case BadRequest(_) => 400
      case ServerError(_, _) => 500
      case Generated(_, _) => 200
    }
  }

  const GenerationFailed := "Failed to generate itinerary"
  const FormatFailed := "Failed to generate valid itinerary format"

  /** The hotel names offered for a validated request. */
  function HotelsFor(req: ValidRequest, svc: Services): seq<Value> {
    Hotels.ResolveHotels(ToText(req.destination), req.startText, req.endText, svc.hotels)
  }

  /** The weather summaries for a validated request. */
  function WeatherFor(req: ValidRequest, svc: Services): seq<Weather.DaySummary>
    requires req.startDay < req.endDay
  {
    Weather.ResolveWeather(ToText(req.destination), Weather.TripDates(req.startDay, DayCount(req)), svc.weather)
  }

  /** The prompt for a validated request. */
  function PromptFor(req: ValidRequest, svc: Services): string
    requires req.startDay < req.endDay
  {
    Prompt.Compose(req, DayCount(req), HotelsFor(req, svc), WeatherFor(req, svc))
  }

  /** Composing the prompt converts the destination, the preferences and the
      hotel names to text; the conversion throws for any value that is not
      `Printable`, and the outer catch answers 500. */
  predicate PromptConverts(req: ValidRequest, svc: Services) {
    Printable(req.destination) && Printable(Arr(req.preferences)) && Printable(Arr(HotelsFor(req, svc)))
  }

  /** The success message, with the type's first letter in upper case. */
  function SuccessMessage(req: ValidRequest): string {
    req.tripType.Title() + " itinerary generated successfully for " + ToText(req.destination)
      + " (" + IntText(req.people) + " people)"
  }

  /** The controller's answer to a request that passed validation. */
  function Answer(req: ValidRequest, prompt: string, svc: Services): (o: Outcome)
    ensures !o.BadRequest?
    ensures o.Generated? ==> o.itinerary.tripType == req.tripType && o.itinerary.numberOfPeople == req.people
    ensures o.ServerError? ==> o.message == GenerationFailed || o.message == FormatFailed
    ensures svc.model(prompt).Failure? ==> o == ServerError(GenerationFailed, svc.model(prompt).error)
    ensures svc.model(prompt).Success? && svc.parse(Fences.StripFences(svc.model(prompt).value)).Failure? ==>
      o == ServerError(FormatFailed, svc.parse(Fences.StripFences(svc.model(prompt).value)).error)
    ensures svc.model(prompt).Success? && svc.parse(Fences.StripFences(svc.model(prompt).value)).Success? ==>
      o == Generated(SuccessMessage(req),
        Envelope(req.tripType, req.people, svc.parse(Fences.StripFences(svc.model(prompt).value)).value))
  {
    match svc.model(prompt)
    case Failure(e) => ServerError(GenerationFailed, e)
    case Success(text) =>
      match svc.parse(Fences.StripFences(text))
      case Failure(e) => ServerError(FormatFailed, e)
      case Success(content) =>
        Generated(SuccessMessage(req), Envelope(req.tripType, req.people, content))
  }

  function GenerateItinerary(body: RequestBody, svc: Services): (o: Outcome)
    ensures o.BadRequest? <==> Validate(body).Failure? && Validate(body).error != Unconvertible
    ensures o.BadRequest? ==> o.reason == Validate(body).error
    ensures Validate(body) == Failure(Unconvertible) ==> o == ServerError(GenerationFailed, ConversionError)
    ensures Validate(body).Success? && !PromptConverts(Validate(body).value, svc) ==>
      o == ServerError(GenerationFailed, ConversionError)
    ensures o.Generated? ==>
      && Validate(body).Success? && PromptConverts(Validate(body).value, svc)
      && o.itinerary.tripType == Validate(body).value.tripType
      && o.itinerary.numberOfPeople == Validate(body).value.people
      && o.itinerary.numberOfPeople >= 1
    ensures o.ServerError? ==> o.message == GenerationFailed || o.message == FormatFailed
  {
    match Validate(body)
    case Failure(Unconvertible) => ServerError(GenerationFailed, ConversionError)
    case Failure(e) => BadRequest(e)
    case Success(req) =>
      if PromptConverts(req, svc) then Answer(req, PromptFor(req, svc), svc)
      else ServerError(GenerationFailed, ConversionError)
  }

  /** A request that fails validation is answered without consulting any
      external service: the answer is the same whatever the services do. A
      refusal is a 400 with its reason; a date that cannot be converted is
      a 500. */
  lemma RejectedBeforeAnyCall(body: RequestBody, svc: Services, svc': Services)
    requires Validate(body).Failure?
    ensures GenerateItinerary(body, svc) == GenerateItinerary(body, svc')
    ensures var e := Validate(body).error;
      GenerateItinerary(body, svc)
      == if e == Unconvertible then ServerError(GenerationFailed, ConversionError) else BadRequest(e)
  {
  }

  /** A destination object with its own `toString` key passes the checks but
      makes the prompt's interpolation throw: the answer is a 500. */
  lemma ObjectDestinationFails(body: RequestBody, svc: Services)
    requires Validate(body).Success?
    requires body.destination == Obj([("toString", Str("x"))])
    ensures GenerateItinerary(body, svc) == ServerError(GenerationFailed, ConversionError)
  {
    assert !Printable(body.destination) by {
      assert body.destination.fields[0].0 == "toString";
    }
  }

  /** A failing model call on a valid request is answered with 500 'Failed
      to generate itinerary' and the model's error. */
  lemma ModelFailureReported(body: RequestBody, svc: Services)
    requires Validate(body).Success? && PromptConverts(Validate(body).value, svc)
    requires svc.model(PromptFor(Validate(body).value, svc)).Failure?
    ensures var e := svc.model(PromptFor(Validate(body).value, svc)).error;
      GenerateItinerary(body, svc) == ServerError(GenerationFailed, e)
  {
  }

  /** Hotel and weather failures never fail the request: when the model
      answers every prompt with text that parses and the prompt's values
      convert to text, a valid request is answered with an itinerary,
      whatever the hotel and weather services do. */
  lemma StagesNeverFail(body: RequestBody, svc: Services)
    requires Validate(body).Success? && PromptConverts(Validate(body).value, svc)
    requires forall p :: svc.model(p).Success? && svc.parse(Fences.StripFences(svc.model(p).value)).Success?
    ensures GenerateItinerary(body, svc).Generated?
  {
  }

  /** The itinerary returned is exactly what the parser made of the cleaned
      reply to the composed prompt. */
  lemma ContentIsParsedReply(body: RequestBody, svc: Services)
    requires GenerateItinerary(body, svc).Generated?
    ensures var req := Validate(body).value;
      var reply := svc.model(PromptFor(req, svc));
      && reply.Success?
      && svc.parse(Fences.StripFences(reply.value)) == Success(GenerateItinerary(body, svc).itinerary.content)
  {
    var req := Validate(body).value;
    AnswerContent(req, PromptFor(req, svc), svc);
  }

  lemma AnswerContent(req: ValidRequest, prompt: string, svc: Services)
    requires Answer(req, prompt, svc).Generated?
    ensures var reply := svc.model(prompt);
      && reply.Success?
      && svc.parse(Fences.StripFences(reply.value)) == Success(Answer(req, prompt, svc).itinerary.content)
  {
  }

  /** A reply the parser rejects gives a 500 carrying the parser's message. */
  lemma UnparsableReply(body: RequestBody, svc: Services)
    requires Validate(body).Success? && PromptConverts(Validate(body).value, svc)
    requires var reply := svc.model(PromptFor(Validate(body).value, svc));
      reply.Success? && svc.parse(Fences.StripFences(reply.value)).Failure?
    ensures var o := GenerateItinerary(body, svc);
      o.Status() == 500 && o.message == FormatFailed
      && o.error == svc.parse(Fences.StripFences(svc.model(PromptFor(Validate(body).value, svc)).value)).error
  {
  }

  /** The prompt lists one weather line per trip day, and the trip has as
      many days as the inclusive day count. */
  lemma PromptCoversEveryDay(req: ValidRequest, svc: Services, k: nat)
    requires req.startDay < req.endDay
    requires k < DayCount(req)
    ensures var ws := WeatherFor(req, svc);
      |ws| == req.endDay - req.startDay + 1
      && ws[k].dayNumber == k + 1 && ws[k].date == Weather.TripDates(req.startDay, DayCount(req))[k]
      && Contains(PromptFor(req, svc), Prompt.WeatherLine(ws[k]))
  {
    WeatherDay(req, svc, k);
    PromptHasDay(req, svc, k);
  }

  lemma WeatherDay(req: ValidRequest, svc: Services, k: nat)
    requires req.startDay < req.endDay
    requires k < DayCount(req)
    ensures var ws := WeatherFor(req, svc);
      |ws| == DayCount(req) && ws[k].dayNumber == k + 1 && ws[k].date == Weather.TripDates(req.startDay, DayCount(req))[k]
  {
  }

  lemma PromptHasDay(req: ValidRequest, svc: Services, k: nat)
    requires req.startDay < req.endDay
    requires k < |WeatherFor(req, svc)|
    ensures Contains(PromptFor(req, svc), Prompt.WeatherLine(WeatherFor(req, svc)[k]))
  {
    Prompt.PromptListsEveryDay(req, DayCount(req), HotelsFor(req, svc), WeatherFor(req, svc), k);
  }
}
