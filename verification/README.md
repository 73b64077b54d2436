# Travel Planner backend — a Dafny model

This project models the core of the Travel Planner backend, an Express and
MongoDB service that plans trips.

- **`generateItinerary`** takes a trip request. It checks the request in a
  fixed order and looks up hotel names from the MakCorps mapping and city
  services. It summarises the weather of every trip day from Open-Meteo. It
  writes a prompt for the Gemini language model, strips code fences from the
  reply, parses the reply, and wraps it in the response envelope.
- **`saveGeneratedItinerary`** stores a generated itinerary. A trip holds at
  most one itinerary of each type.
- **`openMeteoService.getWeather`** geocodes a place with Nominatim. It then
  fetches one day of hourly readings from either the forecast or the archive
  endpoint, depending on the date.
- **`amadeusService.searchFlights`** reduces each Amadeus flight offer to
  one flight summary.
- **The trip, itinerary and itinerary-like controllers** are modelled as
  transitions of an abstract document store. Only a document's owner may
  read, change or delete it. A user document keeps the ids of the user's
  trips and likes.

External services are parameters of the model:

- MakCorps, Nominatim and Open-Meteo are functions from request to reply
  (`Http.Reply`): a response with a status and a body, or a thrown error.
- Gemini and `JSON.parse` are functions from text to a `Result`.
- The Amadeus client is a function from query to reply.

Everything else is pure and fully stated. The modules are:

- **Base modules:**
  - `Wrappers`: `Option` and `Result`.
  - `Text`: numerals, split/join, trimming and substring search.
  - `Values`: JavaScript values with truthiness and string conversion.
  - `Dates`: `YYYY-MM-DD` as the engine parses it, as day numbers.
  - `Http`: how axios settles a reply.
- **The generation pipeline:**
  - `Validation`: the request checks.
  - `Hotels`: the hotel stage.
  - `OpenMeteo`: the weather helper.
  - `Weather`: the per-day summaries.
  - `Prompt`: the prompt text.
  - `Fences`: the reply clean-up.
  - `Generate`: the controller itself.
- **Flights:** `Flights` models the Amadeus search.
- **Persistence:**
  - `Store`: the collections, the id counter, `$push`/`$pull` and the `find`/`findOne` orderings.
  - `Trips`, `Itineraries` and `Likes`: the handlers.
  - `Api`: all handlers together, with the store invariants they preserve.

Units and conventions:

- Temperatures and precipitation are integers in tenths of a unit, the
  resolution Open-Meteo reports.
- Dates are day numbers counted from 1970-01-01, in UTC.
- The reference day is the fixed 2025-04-25 that the code uses in place of
  the clock.

Some behaviours of the code worth noting:

- A city whose hotels all fail the rating filter gives an empty hotel list,
  not the fallback names.
- Hotel prices are requested in Indian rupees (`cur: 'INR'`).
- A saved generated itinerary does not keep its number of people, because
  the itinerary schema has no such path and Mongoose's strict mode drops it.
- The condition of a day is decided on the unrounded mean temperature, so
  a day shown as 25 °C can be classed `Sunny`. `Weather.SunnyAtRoundedTwentyFive`
  exhibits one.
- `String()` throws a TypeError for an object with its own `toString` key
  (`Values.Printable` says which values convert). A start or end date of
  that kind makes the date check throw. A destination, preference or hotel
  name of that kind makes the prompt throw. Both are answered 500 'Failed to
  generate itinerary' by the outer catch, not 400.

## Model

| member | source | states |
|---|---|---|
| Dates.ParseIsoDate | backend/controllers/ai.controller.js:14-19 | a date string is accepted exactly when it has the shape `\d{4}-\d{2}-\d{2}` with month 01..12 and day 01..31; only such strings yield a day |
| Dates.IsoDateRoundTrip | backend/controllers/ai.controller.js:155-157 | rendering a day as `YYYY-MM-DD` and parsing it again gives back the same day |
| Dates.ReferenceTodayIs20250425 | backend/controllers/ai.controller.js:122 | the reference day is the day 2025-04-25 parses to |
| Dates.CivilFromDaysInverse | backend/controllers/ai.controller.js:155-157 | the calendar date of a day number counts back to that day number |
| Dates.ParseShownDay | backend/controllers/ai.controller.js:14-19 | a ten-character string whose digits spell a valid month and day parses to the day those digits name |
| Dates.HorizonDate | backend/controllers/ai.controller.js:122-124 | sixteen days after the reference day is rendered 2025-05-11 |
| Text.SplitJoin | backend/controllers/ai.controller.js:195 | splitting at a separator undoes joining with it when no part contains the separator |
| Validation.Validate | backend/controllers/ai.controller.js:81-132 | an accepted request has a truthy destination, two convertible valid dates with start before end and end within the horizon, a non-empty preference array, a budget or luxury type (default budget) and a positive integer number of people (default 1); the missing-fields error is reported exactly when one of the four required fields is falsy |
| Validation.FirstFailureReported | backend/controllers/ai.controller.js:84-132 | each check's error is reported exactly when that check fails and every earlier check, in the order missing fields, date conversion, date format, end after start, preferences, type, people, horizon, passes; the date conversion fails when the start date cannot be converted, or when it is valid and the end date cannot be |
| Validation.AcceptedIffAllPass | backend/controllers/ai.controller.js:84-132 | a request is accepted exactly when all eight checks pass in order |
| Validation.AcceptedIffAcceptable | backend/controllers/ai.controller.js:81-132 | a request is accepted if and only if every check holds, stated independently of the order of the checks |
| Validation.HorizonRejectsLateEnd | backend/controllers/ai.controller.js:122-132 | once the earlier checks pass, the horizon check rejects exactly when the end date lies after the last forecast day |
| Validation.PastTripsAccepted | backend/controllers/ai.controller.js:122-132 | a trip entirely before the reference day passes the horizon check |
| Validation.HorizonMessage | backend/controllers/ai.controller.js:128-131 | the horizon error names 2025-05-11 |
| Validation.MissingFieldsFirst | backend/controllers/ai.controller.js:84-89 | a request without a destination is refused as missing fields, whatever else it holds |
| Validation.DayCount | backend/controllers/ai.controller.js:135 | an accepted request covers end − start + 1 days, at least two |
| Validation.ParisRequest | backend/controllers/ai.controller.js:81-135 | a three-day request for two with no type is a valid budget request of three days |
| Validation.LateRequest | backend/controllers/ai.controller.js:122-132 | a trip ending 2025-05-20 is refused by the horizon check |
| Hotels.FindCity | backend/controllers/ai.controller.js:34-42 | the search finds nothing exactly when every entry is passed by (neither matches nor throws); a found id is a city entry's; a failure means some entry throws |
| Hotels.FindCityStopsAtFirst | backend/controllers/ai.controller.js:34-42 | the search stops at the first entry that matches or throws: it fails when that entry is a GEO entry without details and answers that entry's document id when it is a city entry, whatever follows |
| Hotels.FetchMappingData | backend/controllers/ai.controller.js:22-49 | a city id is returned exactly when the mapping service answers 200 and the search finds a city entry, and it is the id the search found |
| Hotels.CityQueryFor | backend/controllers/ai.controller.js:55-63 | the city request carries the city id and trip dates, first page, INR, one room, two adults |
| Hotels.FetchCityData | backend/controllers/ai.controller.js:52-76 | the hotel list is returned exactly when the city service answers 200, and it is that answer's body |
| Hotels.QualifyingNames | backend/controllers/ai.controller.js:142-144 | the filter fails exactly when some hotel has a truthy name and no reviews; otherwise the names are exactly those of the qualifying hotels (truthy name, rating 4.5 or more), in list order |
| Hotels.KeptIsFilter | backend/controllers/ai.controller.js:143 | the reference filter keeps a hotel exactly when it is in the list and qualifies |
| Hotels.FilterHotels | backend/controllers/ai.controller.js:142-144 | the filter run as a loop over the array agrees with the functional definition, including its failure |
| Hotels.TakeHotels | backend/controllers/ai.controller.js:145 | at most five names, the first ones in order |
| Hotels.ResolveHotels | backend/controllers/ai.controller.js:138-149 | the hotel stage never yields more than five names |
| Hotels.NoCityUsesFallback | backend/controllers/ai.controller.js:138-149 | without a city entry the three fallback names are used and the city service is never consulted |
| Hotels.CityFailureUsesFallback | backend/controllers/ai.controller.js:138-149 | a failing city request makes the stage use the three fallback names |
| Hotels.FirstFiveQualifying | backend/controllers/ai.controller.js:138-149 | with a city list and no throwing hotel, the stage offers the names of the first five qualifying hotels in list order |
| Hotels.FilterThrowUsesFallback | backend/controllers/ai.controller.js:142-148 | one hotel without reviews makes the whole stage fall back, wherever it sits in the list |
| Hotels.FetchedHotelsAreQualifying | backend/controllers/ai.controller.js:138-149 | with a city list and no throwing hotel, every name offered is a qualifying hotel's name, and no qualifying hotel means an empty list |
| OpenMeteo.QueryFor | backend/utils/openMeteo.js:16-30 | one single-day request at the geocoded coordinates for temperature and precipitation, from the forecast endpoint exactly when the date is on or after 2025-04-25 |
| OpenMeteo.HourOf | backend/utils/openMeteo.js:41 | the hour is read exactly from a valid `YYYY-MM-DDTHH:MM` stamp, and is its `HH:MM` part |
| OpenMeteo.ZipFrom | backend/utils/openMeteo.js:39-44 | the hourly arrays zip exactly when every hour has a valid stamp and both readings; then entry k holds stamp k and readings k |
| OpenMeteo.GetWeather | backend/utils/openMeteo.js:4-51 | every failure carries the prefix 'Failed to fetch weather data: '; a report echoes the location and date and names a non-empty country |
| OpenMeteo.ReportCountry | backend/utils/openMeteo.js:11-47 | a report's country is the one read from the first geocoding result's display name |
| OpenMeteo.CompleteDayIsReported | backend/utils/openMeteo.js:7-47 | a geocoded place, a 200 weather answer and complete hours give a report of those hours |
| OpenMeteo.NoPlaceNoWeather | backend/utils/openMeteo.js:11-13 | a geocoder with no result makes the call fail with 'Could not geocode location', whatever the weather service does |
| OpenMeteo.ReportReadings | backend/utils/openMeteo.js:32-45 | a report holds, hour by hour, the readings of the 200 answer to the request for the first geocoding result |
| OpenMeteo.EndpointByDate | backend/utils/openMeteo.js:16-23 | a day on or after the reference day is fetched from the forecast endpoint, an earlier one from the archive |
| OpenMeteo.CountryIsLastComponent | backend/utils/openMeteo.js:37 | the country is the text after the last ", " of the display name (the whole name when it holds none), or 'Unknown' when that text is empty |
| Text.LastPartIsLastComponent | backend/utils/openMeteo.js:37 | the last part of a split is the text after the separator's last occurrence, or the whole string without one, and holds no separator |
| Weather.RoundedMean | backend/controllers/ai.controller.js:159-166 | the stored mean is within half a tenth of the exact mean, halves rounded up |
| Weather.RoundedMeanUnique | backend/controllers/ai.controller.js:166 | that error bound determines the rounded mean |
| Weather.Classify | backend/controllers/ai.controller.js:168 | Rainy exactly when precipitation is positive; Sunny exactly when it is not and the unrounded mean exceeds 25 degrees; Mild otherwise |
| Weather.Summarize | backend/controllers/ai.controller.js:159-169 | a day's summary has its number and date, no mean exactly when there are no readings, a rounded mean, the precipitation sum and the classified condition |
| Weather.TripDates | backend/controllers/ai.controller.js:154-157 | one date per trip day, day i being the start day plus i |
| Weather.SummariesFrom | backend/controllers/ai.controller.js:153-170 | the loop succeeds exactly when every day's weather call succeeds, and then summary k is day k's own |
| Weather.FallbackSummaries | backend/controllers/ai.controller.js:173-183 | the fallback gives every day 25 degrees, no rain and Mild, with its number and date |
| Weather.ResolveWeather | backend/controllers/ai.controller.js:152-184 | exactly one summary per trip day, numbered from 1, with the day's date |
| Weather.AllOrNothing | backend/controllers/ai.controller.js:152-184 | real and fallback summaries are never mixed: all days are real when every call succeeds, all are fallback otherwise |
| Weather.SunnyAtRoundedTwentyFive | backend/controllers/ai.controller.js:166-168 | a day whose stored mean is 25.0 can be classed Sunny |
| Prompt.WeatherLines | backend/controllers/ai.controller.js:195 | one weather line per summary, in summary order |
| Prompt.WeatherBlockRoundTrip | backend/controllers/ai.controller.js:195 | splitting the weather block at line breaks gives back the day lines |
| Prompt.PromptOffersHotels | backend/controllers/ai.controller.js:192 | the prompt offers the hotel names joined by ", ", in the hotel line and in the accommodation field |
| Prompt.PromptListsPreferences | backend/controllers/ai.controller.js:190 | the prompt lists the preferences joined by ", " |
| Prompt.PromptListsEveryDay | backend/controllers/ai.controller.js:194-195 | every day's weather line appears in the prompt |
| Prompt.PromptCostHint | backend/controllers/ai.controller.js:240 | the prompt asks for high-end experiences for a luxury trip and affordable options for a budget one |
| Prompt.PromptStatesTrip | backend/controllers/ai.controller.js:188 | the prompt states the number of days and both dates |
| Fences.NoFenceLeft | backend/controllers/ai.controller.js:261 | removing fences leaves no "```" in the text |
| Fences.NoFenceUnchanged | backend/controllers/ai.controller.js:261 | text without "```" is left as it is |
| Fences.StripFencesIdempotent | backend/controllers/ai.controller.js:261 | cleaning a cleaned reply changes nothing |
| Fences.FencedBlock | backend/controllers/ai.controller.js:261 | a JSON body wrapped in a ```json fence on its own lines is recovered exactly |
| Text.TrimIdentity | backend/controllers/ai.controller.js:261 | text with no space at either end is not changed by trimming |
| Generate.Answer | backend/controllers/ai.controller.js:253-291 | a request that passed validation is never answered 400; a failing model call gives 500 'Failed to generate itinerary' with its error, an unparsable reply 500 'Failed to generate valid itinerary format' with the parser's; a parsed reply gives 200 with the success message and the envelope of type, number of people and parsed content |
| Generate.GenerateItinerary | backend/controllers/ai.controller.js:79-292 | 400 exactly when a check refuses the request, with that check's error; a date or prompt value `String()` cannot convert gives 500 'Failed to generate itinerary' with the TypeError's message; an itinerary carries the validated type and a positive number of people |
| Generate.ObjectDestinationFails | backend/controllers/ai.controller.js:187-188 | a destination object with its own `toString` key gets 500 'Failed to generate itinerary', not an itinerary |
| Generate.ModelFailureReported | backend/controllers/ai.controller.js:253-291 | a valid request whose prompt values convert and whose model call fails is answered 500 'Failed to generate itinerary' with the model's error |
| Generate.RejectedBeforeAnyCall | backend/controllers/ai.controller.js:84-132 | a refused request gets the same answer whatever the external services do: 400 with the check's error, or 500 when a date cannot be converted |
| Generate.StagesNeverFail | backend/controllers/ai.controller.js:138-184 | hotel and weather failures never fail a request: with a model reply that parses and prompt values that convert, a valid request always gets an itinerary |
| Generate.ContentIsParsedReply | backend/controllers/ai.controller.js:259-281 | the itinerary content is exactly what the parser made of the cleaned reply to the composed prompt |
| Generate.UnparsableReply | backend/controllers/ai.controller.js:263-269 | for a valid request whose prompt values convert, a reply the parser rejects gives 500 'Failed to generate valid itinerary format' with the parser's message |
| Generate.PromptCoversEveryDay | backend/controllers/ai.controller.js:135-195 | the prompt holds one weather line for each of the end − start + 1 trip days, numbered from 1 and dated from the start day |
| Store.Pull | backend/controllers/trip.controller.js:184-188 | `$pull` removes every occurrence of the id and keeps every other id |
| Store.PushTrip | backend/controllers/trip.controller.js:23-27 | `$push` appends the id to the user's trips and changes no other user |
| Store.NewestFirst | backend/controllers/itinary.controller.js:68-70 | a listing holds exactly the matching documents, each with its id, newest first |
| Store.FindOne | backend/controllers/itinary.controller.js:20 | `findOne` finds nothing exactly when no document matches; otherwise it finds the oldest match |
| Store.FilterEqualsIsEquivalence | backend/controllers/itinary.controller.js:20 | the equality of a `findOne` filter field is an equivalence in which `null` and a missing field form one class and every other value stands alone |
| Trips.CreateTrip | backend/controllers/trip.controller.js:5-41 | a new trip owned by the caller is stored under a fresh id and appended to the caller's trips; nothing else changes |
| Trips.SortByStart | backend/controllers/trip.controller.js:49 | the sorted listing is a permutation of its input, latest start date first and missing dates last |
| Trips.GetTrips | backend/controllers/trip.controller.js:44-63 | only the caller's stored trips, sorted by start date descending |
| Trips.GetTripsComplete | backend/controllers/trip.controller.js:49 | a trip is listed if and only if it belongs to the caller |
| Trips.GetTrip | backend/controllers/trip.controller.js:66-101 | 200 with the trip exactly when it exists and is the caller's; 404 'Trip not found' exactly when it is missing, 403 exactly when it is another user's |
| Trips.UpdateTrip | backend/controllers/trip.controller.js:104-153 | 200 exactly for the owner; only destination, dates and review change, omitted ones keep their values, the owner and every other trip stay; a missing trip gives 404 and a foreign one 403, both changing nothing |
| Trips.DeleteTrip | backend/controllers/trip.controller.js:156-201 | 200 exactly for the owner; the trip goes and its id is pulled from the caller's trips; itineraries and likes are left alone; a missing trip gives 404 and a foreign one 403, both changing nothing |
| Trips.CreateTripKeepsInvariant | backend/controllers/trip.controller.js:20-27 | creating a trip keeps every trip listed with its owner |
| Trips.DeleteTripKeepsInvariant | backend/controllers/trip.controller.js:181-188 | deleting a trip keeps every remaining trip listed with its owner |
| Trips.RefusalsChangeNothing | backend/controllers/trip.controller.js:75-127 | a missing or foreign trip is answered 404 or 403 by read, update and delete, and the store is unchanged |
| Itineraries.Insert | backend/controllers/itinary.controller.js:11-38 | a foreign trip gives 404 and a duplicate (trip, type) gives 400 with the existing record, both changing nothing; otherwise exactly one record owned by the caller is added; a duplicate is found with MongoDB's filter equality, so a `null` or missing type matches a stored `null` or missing one |
| Itineraries.CreateItinerary | backend/controllers/itinary.controller.js:5-52 | 201 exactly when the caller owns the trip and it has no itinerary of that type under MongoDB's filter equality; only then is the store changed |
| Itineraries.CheckSave | backend/controllers/ai.controller.js:300-318 | a save passes its checks exactly when the trip id, type and content are given, the type is budget or luxury and the number of people is a positive integer; missing fields are reported exactly when one is falsy |
| Itineraries.SaveGeneratedItinerary | backend/controllers/ai.controller.js:295-364 | a failed check gives 400 with its message and no change; 201 exactly when the checks pass, the caller owns the trip and it has no itinerary of the type; after the checks, a trip the caller does not own gives 404 and an existing itinerary of the type gives 400 with that record, both changing nothing; the record stored has no number of people |
| Itineraries.SaveChecksBeforeStore | backend/controllers/ai.controller.js:300-318 | a save that fails its checks gets the same 400 whatever the store holds |
| Itineraries.ZeroPeopleIsMissing | backend/controllers/ai.controller.js:301-306 | zero people is reported as a missing field |
| Itineraries.SecondSaveRefused | backend/controllers/ai.controller.js:329-336 | saving the same type twice for a trip is refused the second time with the first record, and nothing changes |
| Itineraries.GetItinerary | backend/controllers/itinary.controller.js:87-122 | 200 with the record exactly for its owner; 404 exactly when it is missing, 403 exactly when it is another user's |
| Itineraries.GetItineraries | backend/controllers/itinary.controller.js:55-84 | every listed record is the caller's and passes the trip and type filters; all such records are listed, newest first |
| Itineraries.UpdateItinerary | backend/controllers/itinary.controller.js:125-189 | a missing record gives 404 and a foreign one 403, both changing nothing; for the owner, 200 exactly when the new type does not clash (truthy, different, and held by another itinerary of the trip) and 400 with that stored record when it does; falsy fields keep their values; trip and owner never change |
| Itineraries.DeleteItinerary | backend/controllers/itinary.controller.js:192-230 | 200 exactly for the owner, removing only that record; a missing record gives 404 and a foreign one 403, both changing nothing |
| Itineraries.UpdateKeepsUnique | backend/controllers/itinary.controller.js:151-175 | updates keep at most one itinerary per (trip, type) |
| Itineraries.NullTypeIsMissingType | backend/controllers/itinary.controller.js:19-27 | after an itinerary whose type is `null` or missing is created for a trip, creating another with a `null` or missing type is refused with the first record and the message naming the new type, and nothing changes |
| Itineraries.InsertKeepsUnique | backend/controllers/itinary.controller.js:20-38 | both create handlers keep at most one itinerary per (trip, type), with a `null` and a missing type counted as the same |
| Likes.FindDayLike | backend/controllers/itninaryLikes.controller.js:11-15 | a found like is the caller's like of that itinerary day under MongoDB's filter equality (a `null` or missing day matches a stored `null` or missing day); none is found only when no such like exists |
| Likes.CreateLike | backend/controllers/itninaryLikes.controller.js:5-55 | 201 exactly when the caller has not rated that day; then the like is stored and appended to the caller's likes; otherwise 400 with the existing like and no change |
| Likes.GetLikes | backend/controllers/itninaryLikes.controller.js:58-88 | every listed like is the caller's and of the requested itinerary; all such likes are listed, newest first |
| Likes.UpdateLike | backend/controllers/itninaryLikes.controller.js:91-135 | 200 exactly for the owner, changing only `liked`; a missing like gives 404 and a foreign one 403, both changing nothing |
| Likes.DeleteLike | backend/controllers/itninaryLikes.controller.js:138-183 | 200 exactly for the owner; the like goes and its id is pulled from the caller's likes; a missing like gives 404 and a foreign one 403, both changing nothing |
| Likes.NullDayIsMissingDay | backend/controllers/itninaryLikes.controller.js:11-23 | after a rating whose day is `null` or missing, a second rating of the same itinerary with a `null` or missing day is refused with the first like, and nothing changes |
| Likes.CreateLikeKeepsInvariant | backend/controllers/itninaryLikes.controller.js:11-41 | creating likes keeps one like per (user, itinerary, day), with a `null` and a missing day counted as the same, each listed with its owner |
| Likes.DeleteLikeKeepsInvariant | backend/controllers/itninaryLikes.controller.js:163-170 | deleting a like keeps every other like listed with its owner |
| Likes.SecondRatingRefused | backend/controllers/itninaryLikes.controller.js:11-23 | rating the same day twice is refused the second time with the first like, and nothing changes |
| Flights.QueryFor | backend/utils/amendues.js:14-21 | the search asks for the given route and date, one adult, USD, at most 50 offers |
| Flights.FormatOffer | backend/utils/amendues.js:24-45 | the flight departs with the first segment and arrives with the last, has one stop fewer than segments, and copies id, duration and price |
| Flights.FormatOffers | backend/utils/amendues.js:24-46 | formatting succeeds exactly when every offer has a segment, and then flight k is offer k formatted |
| Flights.ErrorMessage | backend/utils/amendues.js:55 | the error is the first error's detail when truthy, else 'Failed to fetch flight data' |
| Flights.SearchFlights | backend/utils/amendues.js:11-57 | a result echoes origin, destination and date with one flight per offer; an Amadeus error becomes the error message |
| Flights.SearchOutcome | backend/utils/amendues.js:24-53 | the search succeeds if and only if Amadeus answers and every offer has a segment, and then keeps the offers' order |
| Flights.EmptyJourneyFails | backend/utils/amendues.js:24-55 | an offer without segments fails the whole search with the fixed message |
| Flights.DirectFlight | backend/utils/amendues.js:31-40 | a one-segment offer has no stops and both ends from its one segment |
| Api.Handle | backend/controllers/trip.controller.js:44-101 | a reply of 400 or more and every read leave the store unchanged |
| Api.HandleKeepsValid | backend/controllers/itinary.controller.js:5-230 | every handler keeps the store invariants: issued ids, trips and likes listed with their owners, unique (trip, type) and unique (user, itinerary, day) |
| Api.RunKeepsValid | backend/controllers/trip.controller.js:5-201 | any sequence of requests from a valid store keeps it valid |

## Left out

- Network calls, the Gemini client, the Amadeus SDK and `JSON.parse` are
  parameters of the model. Their behaviour is not modelled, only how the
  code branches on what they return.
- API keys, `dotenv` configuration, Amadeus credentials and `console`
  logging are left out. The hotel and weather stages only log their error
  messages, so the model records those failures without the message text.
- Express routing, authentication middleware and `backend/index.js` are
  not part of this model. The caller's id is a parameter of every handler.
- Itineraries.SaveGeneratedItinerary takes its caller from `req.user._id`
  (ai.controller.js:298), while every other handler uses `req.user.id`.
  The model assumes both name the same user. The middleware that fills
  `req.user` is not part of this model.
- Floating point is not modelled. Readings are exact integers in tenths,
  so `parseFloat`/`toString` round trips and binary rounding in
  `Math.round(avgTemp * 10) / 10` are not modelled. The `NaN` mean of a day
  without readings is modelled as a missing mean.
- The JavaScript `Date` object is modelled in UTC. The server time zone
  used by `setDate`/`getDate` is not modelled, and the engine's other date
  formats are not modelled: only `YYYY-MM-DD` strings and
  `YYYY-MM-DDTHH:MM` hourly stamps parse.
- How axios serialises query parameters, and the Nominatim URL encoding,
  are left out.
- Mongoose casting is left out:
  - trip dates are already day numbers or absent;
  - ids are natural numbers;
  - `populate` is not modelled;
  - a `null` or `undefined` field value is stored as given (`Undefined`
    standing for a missing field), and the duplicate queries compare it
    with `Store.FilterEquals`, MongoDB's equality in which `null` also
    matches a missing field.
- `timestamps` are replaced by one id counter shared by all collections,
  so `createdAt` order is id order.
- The 500 paths of the persistence handlers are not modelled. These are
  database errors and failed casts.
- The outer 500 catch of `generateItinerary` is modelled for a failed model
  call and for a value `String()` cannot convert: a date in the date check,
  or the destination, a preference or a hotel name in the prompt. The hotel
  and weather stages catch their own errors.
- Flights.ErrorMessage: an Amadeus error detail is taken to convert to
  text. A detail that is an object with its own `toString` key, on which
  `new Error` would throw, is not modelled.
- Concurrency is not modelled. In particular, the race between the
  duplicate check and the insert is not modelled: handlers are sequential
  transitions.
- Generate.GenerateItinerary: the success message is modelled
  (`Generate.SuccessMessage`), but no lemma states its text for a concrete
  request.
- Generate.ModelFailureReported: stated for requests whose prompt values
  convert to text. For any other request the answer is the conversion 500
  that `Generate.GenerateItinerary` states, and the model is never asked.
- Generate.StagesNeverFail: stated for requests whose prompt values convert
  to text, for the same reason.
- Generate.UnparsableReply: stated for requests whose prompt values convert
  to text, for the same reason.
- Hotels.ResolveHotels: its own contract states only the five-name bound.
  The fallback cases (no city entry, failing city request, throwing filter)
  and the first five qualifying names in order are stated by the lemmas
  after it.
- Itineraries.UpdateItinerary: the 200-or-400 split for the owner is stated
  for a store whose ids were all issued by its counter, the invariant every
  handler keeps; the duplicate search only looks at issued ids.
- Hotels.FindCity: its own contract states the outcome without the order;
  the first-match rule of `Array.prototype.find` is stated by
  `Hotels.FindCityStopsAtFirst`.
- Mongoose 7 or later is assumed by `Trips.UpdateTrip` and
  `Likes.UpdateLike`: an update field that is `undefined` is dropped, so
  the stored value stays. Earlier versions could write `null` instead.
- External replies are typed, so malformed ones cannot be represented:
  - MakCorps: the mapping and city bodies are arrays of objects, and
    ratings are numbers. A non-array body, a `null` hotel or a string
    rating, which JavaScript would coerce, cannot be represented.
  - Nominatim: every place has a string `display_name`. A place without one
    makes `display_name.split` throw (openMeteo.js:37), which the model
    cannot produce.
  - Amadeus: `response.data` is an array of offers. A non-array `data`
    makes `response.data.map` throw (amendues.js:24), which the model
    cannot produce.
- Numbers are printed in positional notation only. `IntText` and
  `DecimalText` do not produce the exponent forms JavaScript uses from
  1e21 on and below 1e-6 (`String(1e-7)` is "1e-7"). `DecimalText` cuts a
  fraction that does not terminate after 20 digits; JavaScript prints the
  shortest text that reads back as the same double.
- OpenMeteo.HourOf: accepts hours 00..23 only, so a `T24:00` stamp is
  rejected.
- Weather.ResolveWeather: its own contract states the count, numbering and
  dates only. The content of each day is stated by `Weather.AllOrNothing`.
- Store.FindOne: finds the oldest match. MongoDB returns the first
  match in natural order, which is insertion order for a collection without
  deletions and updates that move documents.
