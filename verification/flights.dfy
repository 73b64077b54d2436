/** The flight search of `amadeusService.searchFlights`: one Amadeus
    flight-offers query, each offer reduced to its outbound journey. Any
    failure becomes an error whose message is the first error detail of the
    Amadeus reply when there is one, and a fixed text otherwise. */
module Flights {
  import opened Wrappers
  import opened Values

  /** The fixed query parameters. */
  const Adults := "1"
  const Currency := "USD"
  const MaxOffers := 50
  const FetchFailed := "Failed to fetch flight data"

  datatype FlightQuery = FlightQuery(
    originLocationCode: string,
    destinationLocationCode: string,
    departureDate: string,
    adults: string,
    currencyCode: string,
    max: int)

  datatype Stop = Stop(iataCode: string, at: string)
  datatype Segment = Segment(carrierCode: string, number: string, departure: Stop, arrival: Stop)
  datatype Journey = Journey(duration: string, segments: seq<Segment>)
  datatype Price = Price(total: string, currency: string)
  datatype Offer = Offer(id: string, itineraries: seq<Journey>, price: Price)

  /** A failed call: `errorDetails` holds the `detail` of each entry of
      `error.response.data.errors`, `None` when there is no such array. */
  datatype SearchReply = Offers(data: seq<Offer>) | SearchError(errorDetails: Option<seq<Value>>)

  datatype Flight = Flight(
    flightId: string,
    airlineCode: string,
    flightNumber: string,
    departure: Stop,
    arrival: Stop,
    duration: string,
    numberOfStops: int,
    price: Price)

  datatype FlightSearch = FlightSearch(origin: string, destination: string, departureDate: string, flights: seq<Flight>)

  function QueryFor(origin: string, destination: string, departureDate: string): (q: FlightQuery)
    ensures q.originLocationCode == origin && q.destinationLocationCode == destination
    ensures q.departureDate == departureDate
    ensures q.adults == "1" && q.currencyCode == "USD" && q.max == 50
  {
    FlightQuery(origin, destination, departureDate, Adults, Currency, MaxOffers)
  }

  /** An offer can be formatted: it has an outbound journey with at least
      one segment. Otherwise reading `segments` or `segments[0]` throws. */
  predicate Formattable(o: Offer) {
    |o.itineraries| > 0 && |o.itineraries[0].segments| > 0
  }

  /** One element of `flightOffers`. */
  function FormatOffer(o: Offer): (f: Flight)
    requires Formattable(o)
    ensures var segs := o.itineraries[0].segments;
      && f.flightId == o.id
      && f.departure == segs[0].departure && f.arrival == segs[|segs| - 1].arrival
      && f.airlineCode == segs[0].carrierCode && f.flightNumber == segs[0].number
      && f.numberOfStops == |segs| - 1 >= 0
      && f.duration == o.itineraries[0].duration && f.price == o.price
  {
    var j := o.itineraries[0];
    var segs := j.segments;
    Flight(o.id, segs[0].carrierCode, segs[0].number, segs[0].departure, segs[|segs| - 1].arrival,
      j.duration, |segs| - 1, o.price)
  }

  /** `response.data.map(...)`: `None` when some offer throws. */
  function FormatOffers(offers: seq<Offer>): (r: Option<seq<Flight>>)
    ensures r.Some? <==> forall k :: 0 <= k < |offers| ==> Formattable(offers[k])
    ensures r.Some? ==> |r.value| == |offers|
    ensures r.Some? ==> forall k :: 0 <= k < |offers| ==> Formattable(offers[k]) && r.value[k] == FormatOffer(offers[k])
  {
    if |offers| == 0 then Some([])
    else if !Formattable(offers[0]) then None
    else match FormatOffers(offers[1..])
      case None => None
      case Some(rest) =>
        var r := [FormatOffer(offers[0])] + rest;
        assert forall k :: 1 <= k < |r| ==> r[k] == rest[k - 1];
        Some(r)
  }

  /** The message of the error thrown from the `catch` block:
      `errors[0].detail` when it is truthy, else the fixed text. */
  function ErrorMessage(errorDetails: Option<seq<Value>>): (m: string)
    ensures errorDetails.Some? && |errorDetails.value| > 0 && Truthy(errorDetails.value[0]) ==>
      m == ToText(errorDetails.value[0])
    ensures !(errorDetails.Some? && |errorDetails.value| > 0 && Truthy(errorDetails.value[0])) ==> m == FetchFailed
  {
    if errorDetails.Some? && |errorDetails.value| > 0 && Truthy(errorDetails.value[0]) then ToText(errorDetails.value[0])
    else FetchFailed
  }

  /** `searchFlights`, with the Amadeus call as a parameter. A formatting
      error carries no response, so it gets the fixed message. */
  function SearchFlights(origin: string, destination: string, departureDate: string,
                         search: FlightQuery -> SearchReply): (r: Result<FlightSearch, string>)
    ensures r.Success? ==>
      && search(QueryFor(origin, destination, departureDate)).Offers?
      && r.value.origin == origin && r.value.destination == destination && r.value.departureDate == departureDate
      && |r.value.flights| == |search(QueryFor(origin, destination, departureDate)).data|
    ensures search(QueryFor(origin, destination, departureDate)).SearchError? ==>
      r == Failure(ErrorMessage(search(QueryFor(origin, destination, departureDate)).errorDetails))
  {
    match search(QueryFor(origin, destination, departureDate))
    case SearchError(details) => Failure(ErrorMessage(details))
    case Offers(data) =>
      match FormatOffers(data)
      case None => Failure(FetchFailed)
      case Some(flights) => Success(FlightSearch(origin, destination, departureDate, flights))
  }

  /** The search succeeds exactly when Amadeus answers and every offer has
      a segment; then flight `k` is offer `k` formatted. */
  lemma SearchOutcome(origin: string, destination: string, departureDate: string,
                      search: FlightQuery -> SearchReply, k: nat)
    ensures var reply := search(QueryFor(origin, destination, departureDate));
      SearchFlights(origin, destination, departureDate, search).Success? <==>
        reply.Offers? && forall i :: 0 <= i < |reply.data| ==> Formattable(reply.data[i])
    ensures var reply := search(QueryFor(origin, destination, departureDate));
      var r := SearchFlights(origin, destination, departureDate, search);
      r.Success? && k < |reply.data| ==> r.value.flights[k] == FormatOffer(reply.data[k])
  {
  }

  /** An offer with no outbound segment fails the whole search with the
      fixed message, even though Amadeus answered. */
  lemma EmptyJourneyFails(origin: string, destination: string, departureDate: string,
                          search: FlightQuery -> SearchReply, k: nat)
    requires search(QueryFor(origin, destination, departureDate)).Offers?
    requires var data := search(QueryFor(origin, destination, departureDate)).data;
      k < |data| && |data[k].itineraries| > 0 && |data[k].itineraries[0].segments| == 0
    ensures SearchFlights(origin, destination, departureDate, search) == Failure(FetchFailed)
  {
    var data := search(QueryFor(origin, destination, departureDate)).data;
    assert !Formattable(data[k]);
  }

  /** A direct flight has no stops and departs from and arrives at the ends
      of its single segment. */
  lemma DirectFlight(o: Offer)
    requires |o.itineraries| > 0 && |o.itineraries[0].segments| == 1
    ensures var f := FormatOffer(o); var s := o.itineraries[0].segments[0];
      f.numberOfStops == 0 && f.departure == s.departure && f.arrival == s.arrival
  {
  }
}
