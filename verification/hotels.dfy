/** The hotel stage of itinerary generation: look the destination up in the
    MakCorps mapping service, take the first city-level entry, fetch that
    city's hotels for the trip dates, and keep the names of at most five
    hotels rated 4.5 or better. Any failure along the way, including a
    TypeError inside the filter, is swallowed and replaced by three fixed
    fallback names. The stage's error messages are only logged, so the
    model records failure without its message. */
module Hotels {
  import opened Wrappers
  import opened Values
  import opened Http

  /** `entry.details`; `None` when it is `undefined` or `null`. */
  datatype MappingDetails = MappingDetails(placetype: Value)

  /** One element of the mapping response. */
  datatype MappingEntry = MappingEntry(kind: Value, details: Option<MappingDetails>, documentId: Value)

  /** The query parameters of the city request. */
  datatype CityQuery = CityQuery(
    cityid: Value,
    pagination: string,
    cur: string,
    rooms: string,
    adults: string,
    checkin: string,
    checkout: string)

  /** `hotel.reviews`; `rating` is `None` when it is missing or `null`. */
  datatype Reviews = Reviews(rating: Option<real>)

  /** One element of the city response; `reviews` is `None` when it is
      `undefined` or `null`. */
  datatype HotelEntry = HotelEntry(name: Value, reviews: Option<Reviews>)

  /** The two MakCorps endpoints, as functions from request to reply. */
  datatype Services = Services(
    mapping: string -> Reply<seq<MappingEntry>>,
    city: CityQuery -> Reply<seq<HotelEntry>>)

  const MaxHotels := 5
  const MinRating := 4.5
  const CityPlaceType := Num(10009.0)

  function FallbackHotels(): seq<Value> {
    [Str("Generic Hotel"), Str("City Lodge"), Str("Traveler’s Inn")]
  }

  /** The test `jsonData.find` applies would throw on this entry: it is a
      `GEO` entry without details. */
  predicate MappingThrows(e: MappingEntry) {
    e.kind == Str("GEO") && e.details.None?
  }

  /** The test `jsonData.find` applies holds on this entry. */
  predicate IsCityEntry(e: MappingEntry) {
    e.kind == Str("GEO") && e.details.Some? && e.details.value.placetype == CityPlaceType
  }

  /** `jsonData.find(...)` followed by `.document_id`: `Failure` when the
      search throws, `Success(None)` when no entry matches. */
  function FindCity(entries: seq<MappingEntry>): (r: Result<Option<Value>, ()>)
    ensures r == Success(None) <==> forall k :: 0 <= k < |entries| ==> PassedBy(entries[k])
    ensures r.Success? && r.value.Some? ==> exists k :: 0 <= k < |entries| && IsCityEntry(entries[k]) && entries[k].documentId == r.value.value
    ensures r.Failure? ==> exists k :: 0 <= k < |entries| && MappingThrows(entries[k])
  {
    if |entries| == 0 then Success(None)
    else if MappingThrows(entries[0]) then Failure(())
    else if IsCityEntry(entries[0]) then Success(Some(entries[0].documentId))
    else
      var r := FindCity(entries[1..]);
      assert forall k :: 1 <= k < |entries| ==> entries[k] == entries[1..][k - 1];
      r
  }

  /** The search passes entry `e` by: it neither throws nor matches. */
  predicate PassedBy(e: MappingEntry) {
    !MappingThrows(e) && !IsCityEntry(e)
  }

  /** The search reaches entry `k`: every earlier entry is passed by. */
  predicate Reaches(entries: seq<MappingEntry>, k: int) {
    0 <= k <= |entries| && forall j :: 0 <= j < k ==> PassedBy(entries[j])
  }

  /** `Array.prototype.find` stops at the first entry it does not pass by:
      the search fails if that entry throws and answers its `document_id`
      if it matches, whatever the entries after it hold. */
  lemma {:induction false} FindCityStopsAtFirst(entries: seq<MappingEntry>, k: int)
    requires Reaches(entries, k) && k < |entries| && !PassedBy(entries[k])
    ensures FindCity(entries) == if MappingThrows(entries[k]) then Failure(()) else Success(Some(entries[k].documentId))
    decreases k
  {
    if k > 0 {
      assert PassedBy(entries[0]);
      assert entries[k] == entries[1..][k - 1];
      assert forall j :: 0 <= j < k - 1 ==> entries[1..][j] == entries[j + 1];
      FindCityStopsAtFirst(entries[1..], k - 1);
    }
  }

  /** `fetchMappingData(locationName)`: the city id, or `None` when it
      throws (a failed request, a 2xx other than 200, a search that throws
      or finds no city entry). */
  function FetchMappingData(name: string, svc: Services): (r: Option<Value>)
    ensures r.Some? <==>
      var reply := svc.mapping(name);
      reply.Response? && reply.status == 200 && FindCity(reply.body).Success? && FindCity(reply.body).value.Some?
    ensures r.Some? ==> r.value == FindCity(svc.mapping(name).body).value.value
  {
    match Settle(svc.mapping(name))
    case Failure(_) => None
    case Success((status, entries)) =>
      if status != 200 then None
      else match FindCity(entries)
        case Success(Some(id)) => Some(id)
        case _ => None
  }

  /** The city request for a city id and the trip's check-in and check-out
      dates: first page, prices in Indian rupees, one room for two adults. */
  function CityQueryFor(cityid: Value, checkin: string, checkout: string): (q: CityQuery)
    ensures q.cityid == cityid && q.checkin == checkin && q.checkout == checkout
    ensures q.pagination == "0" && q.cur == "INR" && q.rooms == "1" && q.adults == "2"
  {
    CityQuery(cityid, "0", "INR", "1", "2", checkin, checkout)
  }

  /** `fetchCityData(cityid, checkin, checkout)`: the hotel list, or `None`
      when the request fails or answers with a 2xx other than 200. */
  function FetchCityData(cityid: Value, checkin: string, checkout: string, svc: Services): (r: Option<seq<HotelEntry>>)
    ensures r.Some? <==> svc.city(CityQueryFor(cityid, checkin, checkout)).Response? && svc.city(CityQueryFor(cityid, checkin, checkout)).status == 200
    ensures r.Some? ==> r.value == svc.city(CityQueryFor(cityid, checkin, checkout)).body
  {
    match Settle(svc.city(CityQueryFor(cityid, checkin, checkout)))
    case Failure(_) => None
    case Success((status, hotels)) => if status == 200 then Some(hotels) else None
  }

  /** The filter callback throws on this hotel: its name is truthy and it
      has no reviews object. */
  predicate FilterThrows(h: HotelEntry) {
    Truthy(h.name) && h.reviews.None?
  }

  /** The filter callback keeps this hotel. */
  predicate Qualifies(h: HotelEntry) {
    Truthy(h.name) && h.reviews.Some? && h.reviews.value.rating.Some? && h.reviews.value.rating.value >= MinRating
  }

  /** `v` is the name of some hotel of `hs` that passes the filter. */
  predicate IsQualifyingName(hs: seq<HotelEntry>, v: Value) {
    exists k :: 0 <= k < |hs| && Qualifies(hs[k]) && hs[k].name == v
  }

  lemma QualifyingNameOfTail(hs: seq<HotelEntry>, names: seq<Value>)
    requires |hs| > 0
    requires forall j :: 0 <= j < |names| ==> IsQualifyingName(hs[1..], names[j])
    ensures forall j :: 0 <= j < |names| ==> IsQualifyingName(hs, names[j])
  {
    forall j | 0 <= j < |names|
      ensures IsQualifyingName(hs, names[j])
    {
      assert IsQualifyingName(hs[1..], names[j]);
      var k :| 0 <= k < |hs[1..]| && Qualifies(hs[1..][k]) && hs[1..][k].name == names[j];
      assert hs[k + 1] == hs[1..][k];
    }
  }

  /** `hs.map(hotel => hotel.name)`. */
  function NamesOf(hs: seq<HotelEntry>): (r: seq<Value>)
    ensures |r| == |hs|
    ensures forall k :: 0 <= k < |hs| ==> r[k] == hs[k].name
  {
    seq(|hs|, k requires 0 <= k < |hs| => hs[k].name)
  }

  lemma NamesOfCons(hs: seq<HotelEntry>)
    requires |hs| > 0
    ensures NamesOf(hs) == [hs[0].name] + NamesOf(hs[1..])
  {
    assert forall k :: 1 <= k < |hs| ==> NamesOf(hs)[k] == NamesOf(hs[1..])[k - 1];
  }

  /** The hotels the filter keeps, in their order in the list, when it
      does not throw. */
  function Kept(hs: seq<HotelEntry>): seq<HotelEntry>
    decreases |hs|
  {
    if |hs| == 0 then []
    else if Qualifies(hs[0]) then [hs[0]] + Kept(hs[1..])
    else Kept(hs[1..])
  }

  /** `Kept` is the order-preserving filter: a hotel is kept exactly when it
      is in the list and qualifies. */
  lemma {:induction false} KeptIsFilter(hs: seq<HotelEntry>)
    ensures forall h :: h in Kept(hs) <==> h in hs && Qualifies(h)
    decreases |hs|
  {
    if |hs| > 0 {
      KeptIsFilter(hs[1..]);
      assert hs == [hs[0]] + hs[1..];
    }
  }

  /** `hotelData.filter(...).map(hotel => hotel.name)`: `None` when the
      filter throws on some hotel, whatever its position. */
  function QualifyingNames(hs: seq<HotelEntry>): (r: Option<seq<Value>>)
    ensures r.None? <==> exists k :: 0 <= k < |hs| && FilterThrows(hs[k])
    ensures r.Some? ==> |r.value| <= |hs|
    ensures r.Some? ==> forall j :: 0 <= j < |r.value| ==> IsQualifyingName(hs, r.value[j])
    ensures (forall k :: 0 <= k < |hs| ==> Qualifies(hs[k])) ==>
      r == Some(NamesOf(hs))
    ensures r.Some? ==> r.value == NamesOf(Kept(hs))
  {
    if |hs| == 0 then Some([])
    else
      var rest := QualifyingNames(hs[1..]);
      assert forall k :: 1 <= k < |hs| ==> hs[k] == hs[1..][k - 1];
      if FilterThrows(hs[0]) then None
      else match rest
        case None => None
        case Some(names) =>
          QualifyingNameOfTail(hs, names);
          if Qualifies(hs[0]) then
            var r := [hs[0].name] + names;
            assert forall j :: 1 <= j < |r| ==> r[j] == names[j - 1];
            assert IsQualifyingName(hs, r[0]);
            NamesOfCons(hs);
            NamesOfCons(Kept(hs));
            Some(r)
          else Some(names)
  }

  /** The same filter as a loop over the array. The loop walks from the last
      hotel to the first and records a throw rather than stopping at it; the
      engine walks forwards and stops at the first throw. Since a throw
      anywhere abandons the whole result, both give the same outcome. */
  method FilterHotels(hs: seq<HotelEntry>) returns (ok: bool, names: seq<Value>)
    ensures ok <==> QualifyingNames(hs).Some?
    ensures ok ==> names == QualifyingNames(hs).value
  {
    var kept: seq<Value> := [];
    var i := |hs|;
    ok := true;
    while i > 0
      invariant 0 <= i <= |hs|
      invariant ok ==> QualifyingNames(hs[i..]) == Some(kept)
      invariant !ok ==> QualifyingNames(hs[i..]).None?
    {
      i := i - 1;
      assert hs[i..][1..] == hs[i + 1..];
      if FilterThrows(hs[i]) {
        ok := false;
      } else if ok && Qualifies(hs[i]) {
        kept := [hs[i].name] + kept;
      }
    }
    assert hs[0..] == hs;
    names := kept;
  }

  /** `.slice(0, 5)`. */
  function TakeHotels(names: seq<Value>): (r: seq<Value>)
    ensures |r| <= MaxHotels
    ensures |r| == if |names| < MaxHotels then |names| else MaxHotels
    ensures r == names[..|r|]
  {
    if |names| <= MaxHotels then names else names[..MaxHotels]
  }

  /** The hotel names the prompt offers for a destination and trip dates:
      the first five qualifying names, or the fallback names when any step
      throws. An empty qualifying list is kept as it is. */
  function ResolveHotels(destination: string, startDate: string, endDate: string, svc: Services): (r: seq<Value>)
    ensures |r| <= MaxHotels
  {
    match FetchMappingData(destination, svc)
    case None => FallbackHotels()
    case Some(cityid) =>
      match FetchCityData(cityid, startDate, endDate, svc)
      case None => FallbackHotels()
      case Some(hotels) =>
        match QualifyingNames(hotels)
        case None => FallbackHotels()
        case Some(names) => TakeHotels(names)
  }

  /** When the destination has no usable city entry, the fallback names are
      used and the city service is never consulted. */
  lemma NoCityUsesFallback(destination: string, startDate: string, endDate: string, svc: Services, city': CityQuery -> Reply<seq<HotelEntry>>)
    requires FetchMappingData(destination, svc).None?
    ensures ResolveHotels(destination, startDate, endDate, svc) == FallbackHotels()
    ensures ResolveHotels(destination, startDate, endDate, svc.(city := city')) == FallbackHotels()
  {
    assert FetchMappingData(destination, svc.(city := city')) == FetchMappingData(destination, svc);
  }

  /** A single hotel with a truthy name and no reviews makes the whole stage
      fall back, even when five qualifying hotels precede it. */
  lemma FilterThrowUsesFallback(destination: string, startDate: string, endDate: string, svc: Services, k: nat)
    requires FetchMappingData(destination, svc).Some?
    requires var hs := FetchCityData(FetchMappingData(destination, svc).value, startDate, endDate, svc);
      hs.Some? && k < |hs.value| && FilterThrows(hs.value[k])
    ensures ResolveHotels(destination, startDate, endDate, svc) == FallbackHotels()
  {
  }

  /** A failing city request makes the stage fall back. */
  lemma CityFailureUsesFallback(destination: string, startDate: string, endDate: string, svc: Services)
    requires FetchMappingData(destination, svc).Some?
    requires FetchCityData(FetchMappingData(destination, svc).value, startDate, endDate, svc).None?
    ensures ResolveHotels(destination, startDate, endDate, svc) == FallbackHotels()
  {
  }

  /** With a city list in hand and no throwing hotel, the stage offers the
      names of the first five qualifying hotels, in the list's order. */
  lemma FirstFiveQualifying(destination: string, startDate: string, endDate: string, svc: Services)
    requires FetchMappingData(destination, svc).Some?
    requires var hs := FetchCityData(FetchMappingData(destination, svc).value, startDate, endDate, svc);
      hs.Some? && forall k :: 0 <= k < |hs.value| ==> !FilterThrows(hs.value[k])
    ensures var hs := FetchCityData(FetchMappingData(destination, svc).value, startDate, endDate, svc).value;
      ResolveHotels(destination, startDate, endDate, svc) == TakeHotels(NamesOf(Kept(hs)))
  {
  }

  /** With a city list in hand and no throwing hotel, the result is the
      qualifying names, at most five, in the city list's order; it is empty
      (and not the fallback) when no hotel qualifies. */
  lemma FetchedHotelsAreQualifying(destination: string, startDate: string, endDate: string, svc: Services)
    requires FetchMappingData(destination, svc).Some?
    requires var hs := FetchCityData(FetchMappingData(destination, svc).value, startDate, endDate, svc);
      hs.Some? && forall k :: 0 <= k < |hs.value| ==> !FilterThrows(hs.value[k])
    ensures var hs := FetchCityData(FetchMappingData(destination, svc).value, startDate, endDate, svc).value;
      var r := ResolveHotels(destination, startDate, endDate, svc);
      && (forall j :: 0 <= j < |r| ==> IsQualifyingName(hs, r[j]))
      && ((forall k :: 0 <= k < |hs| ==> !Qualifies(hs[k])) ==> r == [])
  {
    var hs := FetchCityData(FetchMappingData(destination, svc).value, startDate, endDate, svc).value;
    var names := QualifyingNames(hs).value;
    assert names == [] || IsQualifyingName(hs, names[0]);
  }
}
