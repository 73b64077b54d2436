/** The itinerary controller, and `saveGeneratedItinerary` of the AI
    controller, as transitions of the store. A trip holds at most one
    itinerary of each type: both ways of creating an itinerary refuse a
    second one, and an update refuses to change a type into one the trip
    already has. */
module Itineraries {
  import opened Wrappers
  import opened Text
  import opened Values
  import opened Store

  const ItineraryNotFound := "Itinerary not found"
  const TripInaccessible := "Trip not found or you do not have access to this trip"

  /** `A ${type} itinerary already exists for this trip`. */
  function DuplicateMessage(tripType: Value): string {
    "A " + ToText(tripType) + " itinerary already exists for this trip"
  }

  /** At most one itinerary per (trip, type), types compared as the
      duplicate query compares them. */
  predicate UniqueTripTypes(db: Db) {
    forall i, j :: i in db.itineraries && j in db.itineraries && i != j ==>
      db.itineraries[i].tripId != db.itineraries[j].tripId
      || !FilterEquals(db.itineraries[i].tripType, db.itineraries[j].tripType)
  }

  /** `Trip.findOne({ _id: tripId, userId })`. */
  predicate OwnsTrip(db: Db, u: Id, tripId: Id) {
    tripId in db.trips && db.trips[tripId].userId == u
  }

  /** `Itinerary.findOne({ tripId, type })`. */
  function FindTripType(db: Db, tripId: Id, tripType: Value): (r: Option<Id>)
    ensures r.Some? ==>
      r.value in db.itineraries && db.itineraries[r.value].tripId == tripId
      && FilterEquals(tripType, db.itineraries[r.value].tripType)
    ensures r.None? && IdsIssued(db) ==> forall id :: id in db.itineraries ==>
      db.itineraries[id].tripId != tripId || !FilterEquals(tripType, db.itineraries[id].tripType)
  {
    FindOne(db.itineraries, (it: Itinerary) => it.tripId == tripId && FilterEquals(tripType, it.tripType), db.nextId)
  }

  /** The common tail of both create handlers: refuse a foreign trip, then
      refuse a duplicate, then insert. */
  function Insert(db: Db, u: Id, tripId: Id, tripType: Value, content: Value, created: string): (out: (Response<(Id, Itinerary)>, Db))
    ensures var (resp, db') := out;
      !OwnsTrip(db, u, tripId) ==> resp == Response(404, TripInaccessible, None) && db' == db
    ensures var (resp, db') := out;
      OwnsTrip(db, u, tripId) && FindTripType(db, tripId, tripType).Some? ==>
        && var e := FindTripType(db, tripId, tripType).value;
        && resp == Response(400, DuplicateMessage(tripType), Some((e, db.itineraries[e])))
        && db' == db
    ensures var (resp, db') := out;
      OwnsTrip(db, u, tripId) && FindTripType(db, tripId, tripType).None? ==>
        && resp == Response(201, created, Some((db.nextId, Itinerary(u, tripId, tripType, content))))
        && db' == db.(itineraries := db.itineraries[db.nextId := Itinerary(u, tripId, tripType, content)],
                      nextId := db.nextId + 1)
  {
    if !OwnsTrip(db, u, tripId) then (Response(404, TripInaccessible, None), db)
    else match FindTripType(db, tripId, tripType)
      case Some(e) => (Response(400, DuplicateMessage(tripType), Some((e, db.itineraries[e]))), db)
      case None =>
        var id := db.nextId;
        var it := Itinerary(u, tripId, tripType, content);
        (Response(201, created, Some((id, it))), db.(itineraries := db.itineraries[id := it], nextId := id + 1))
  }

  /** `createItinerary`. */
  function CreateItinerary(db: Db, u: Id, tripId: Id, tripType: Value, content: Value): (out: (Response<(Id, Itinerary)>, Db))
    ensures out.0.status == 201 <==> OwnsTrip(db, u, tripId) && FindTripType(db, tripId, tripType).None?
    ensures out.0.status != 201 ==> out.1 == db
    ensures out.0.status == 201 ==>
      out.0.message == "Itinerary created successfully"
      && out.1.itineraries == db.itineraries[db.nextId := Itinerary(u, tripId, tripType, content)]
  {
    Insert(db, u, tripId, tripType, content, "Itinerary created successfully")
  }

  /** `req.body` of `saveGeneratedItinerary`; `tripId` is `None` when it is
      falsy. */
  datatype SaveBody = SaveBody(tripId: Option<Id>, tripType: Value, content: Value, numberOfPeople: Value)

  datatype SaveError = MissingSaveFields | BadSaveType | BadSavePeople {
    function Message(): string {
      match this
      case MissingSaveFields => "Missing required fields: tripId, type, content, or numberOfPeople"
      case BadSaveType => "Type must be \"budget\" or \"luxury\""
      case BadSavePeople => "Number of people must be a positive integer"
    }
  }

  /** The input checks of `saveGeneratedItinerary`, in order. */
  function CheckSave(body: SaveBody): (r: Option<SaveError>)
    ensures r.None? <==>
      && body.tripId.Some? && Truthy(body.content)
      && (body.tripType == Str("budget") || body.tripType == Str("luxury"))
      && IsInteger(body.numberOfPeople) && body.numberOfPeople.n >= 1.0
    ensures r == Some(MissingSaveFields) <==>
      body.tripId.None? || !Truthy(body.tripType) || !Truthy(body.content) || !Truthy(body.numberOfPeople)
  {
    if body.tripId.None? || !Truthy(body.tripType) || !Truthy(body.content) || !Truthy(body.numberOfPeople) then
      Some(MissingSaveFields)
    else if body.tripType != Str("budget") && body.tripType != Str("luxury") then Some(BadSaveType)
    else if !IsInteger(body.numberOfPeople) || body.numberOfPeople.n < 1.0 then Some(BadSavePeople)
    else None
  }

  /** `saveGeneratedItinerary`: the input checks, then the create path. The
      stored itinerary has no number of people. */
  function SaveGeneratedItinerary(db: Db, u: Id, body: SaveBody): (out: (Response<(Id, Itinerary)>, Db))
    ensures CheckSave(body).Some? ==> out == (Response(400, CheckSave(body).value.Message(), None), db)
    ensures out.0.status == 201 <==>
      CheckSave(body).None? && OwnsTrip(db, u, body.tripId.value)
      && FindTripType(db, body.tripId.value, body.tripType).None?
    ensures out.0.status != 201 ==> out.1 == db
    ensures out.0.status == 201 ==>
      out.0.message == "Generated itinerary saved successfully"
      && out.1.itineraries == db.itineraries[db.nextId := Itinerary(u, body.tripId.value, body.tripType, body.content)]
    ensures CheckSave(body).None? && !OwnsTrip(db, u, body.tripId.value) ==>
      out == (Response(404, TripInaccessible, None), db)
    ensures CheckSave(body).None? ==>
      var tripId := body.tripId.value;
      OwnsTrip(db, u, tripId) && FindTripType(db, tripId, body.tripType).Some? ==>
        var e := FindTripType(db, tripId, body.tripType).value;
        out == (Response(400, DuplicateMessage(body.tripType), Some((e, db.itineraries[e]))), db)
  {
    match CheckSave(body)
    case Some(e) => (Response(400, e.Message(), None), db)
    case None => Insert(db, u, body.tripId.value, body.tripType, body.content, "Generated itinerary saved successfully")
  }

  /** The owner check of the handlers that take an itinerary id. */
  function CheckOwner(db: Db, u: Id, id: Id, forbidden: string): (r: Option<Response<(Id, Itinerary)>>)
    ensures r.None? <==> id in db.itineraries && db.itineraries[id].userId == u
    ensures r.Some? && id !in db.itineraries ==> r.value == Response(404, ItineraryNotFound, None)
    ensures r.Some? && id in db.itineraries ==> r.value == Response(403, forbidden, None)
  {
    if id !in db.itineraries then Some(Response(404, ItineraryNotFound, None))
    else if db.itineraries[id].userId != u then Some(Response(403, forbidden, None))
    else None
  }

  /** `getItinerary`. */
  function GetItinerary(db: Db, u: Id, id: Id): (resp: Response<(Id, Itinerary)>)
    ensures resp.status == 200 <==> id in db.itineraries && db.itineraries[id].userId == u
    ensures resp.status == 200 ==> resp.data == Some((id, db.itineraries[id]))
    ensures resp.status != 200 ==> resp.data.None? && resp.status in {403, 404}
    ensures id !in db.itineraries ==> resp == Response(404, ItineraryNotFound, None)
    ensures id in db.itineraries && db.itineraries[id].userId != u ==>
      resp == Response(403, "Unauthorized access to this itinerary", None)
  {
    match CheckOwner(db, u, id, "Unauthorized access to this itinerary")
    case Some(refusal) => refusal
    case None => Response(200, "", Some((id, db.itineraries[id])))
  }

  /** The query of `getItineraries`: the caller's itineraries, narrowed to
      a trip and to a type when those query parameters are truthy. */
  predicate Listed(it: Itinerary, u: Id, tripFilter: Option<Id>, typeFilter: Value) {
    && it.userId == u
    && (tripFilter.Some? ==> it.tripId == tripFilter.value)
    && (Truthy(typeFilter) ==> it.tripType == typeFilter)
  }

  /** `getItineraries`: newest first. */
  function GetItineraries(db: Db, u: Id, tripFilter: Option<Id>, typeFilter: Value): (resp: Response<seq<(Id, Itinerary)>>)
    ensures resp.status == 200 && resp.data.Some?
    ensures forall k :: 0 <= k < |resp.data.value| ==>
      var (id, it) := resp.data.value[k];
      id in db.itineraries && db.itineraries[id] == it && Listed(it, u, tripFilter, typeFilter)
    ensures forall j, k :: 0 <= j < k < |resp.data.value| ==> resp.data.value[j].0 > resp.data.value[k].0
    ensures IdsIssued(db) ==> forall id :: id in db.itineraries && Listed(db.itineraries[id], u, tripFilter, typeFilter) ==>
      id in IdsOf(resp.data.value)
  {
    var r := NewestFirst(db.itineraries, (it: Itinerary) => Listed(it, u, tripFilter, typeFilter), db.nextId);
    Response(200, "", Some(r))
  }

  /** A new type for itinerary `id` clashes when it is truthy, differs from
      the current type, and another itinerary of the same trip has it. */
  predicate Clashes(db: Db, id: Id, tripType: Value)
    requires id in db.itineraries
  {
    var it := db.itineraries[id];
    && Truthy(tripType) && tripType != it.tripType
    && exists e :: e in db.itineraries && db.itineraries[e].tripId == it.tripId && FilterEquals(tripType, db.itineraries[e].tripType)
  }

  /** `updateItinerary`: a truthy new type must not clash with another
      itinerary of the same trip; falsy fields keep their stored values. */
  function UpdateItinerary(db: Db, u: Id, id: Id, tripType: Value, content: Value): (out: (Response<(Id, Itinerary)>, Db))
    ensures out.0.status == 200 ==> id in db.itineraries && db.itineraries[id].userId == u
    ensures id !in db.itineraries ==> out == (Response(404, ItineraryNotFound, None), db)
    ensures id in db.itineraries && db.itineraries[id].userId != u ==>
      out == (Response(403, "Unauthorized to update this itinerary", None), db)
    ensures IdsIssued(db) && id in db.itineraries && db.itineraries[id].userId == u ==>
      && (out.0.status == 200 <==> !Clashes(db, id, tripType))
      && (Clashes(db, id, tripType) ==> out.0.status == 400)
    ensures out.0.status != 200 ==> out.1 == db
    ensures out.0.status == 200 ==>
      var it := db.itineraries[id];
      && out.0.message == "Itinerary updated successfully"
      && out.1 == db.(itineraries := db.itineraries[id := it.(
           tripType := if Truthy(tripType) then tripType else it.tripType,
           content := if Truthy(content) then content else it.content)])
    ensures out.0.status == 400 ==>
      && Truthy(tripType) && id in db.itineraries && tripType != db.itineraries[id].tripType
      && out.0.message == DuplicateMessage(tripType)
      && out.0.data.Some? && out.0.data.value.0 != id
      && out.0.data.value.1.tripId == db.itineraries[id].tripId && out.0.data.value.1.tripType == tripType
      && out.0.data.value.0 in db.itineraries && db.itineraries[out.0.data.value.0] == out.0.data.value.1
  {
    match CheckOwner(db, u, id, "Unauthorized to update this itinerary")
    case Some(refusal) => (refusal, db)
    case None =>
      var it := db.itineraries[id];
      var clash := if Truthy(tripType) && tripType != it.tripType then FindTripType(db, it.tripId, tripType) else None;
      match clash
      case Some(e) => (Response(400, DuplicateMessage(tripType), Some((e, db.itineraries[e]))), db)
      case None =>
        var it' := it.(tripType := if Truthy(tripType) then tripType else it.tripType,
                       content := if Truthy(content) then content else it.content);
        (Response(200, "Itinerary updated successfully", Some((id, it'))), db.(itineraries := db.itineraries[id := it']))
  }

  /** `deleteItinerary`: likes of the itinerary stay. */
  function DeleteItinerary(db: Db, u: Id, id: Id): (out: (Response<(Id, Itinerary)>, Db))
    ensures out.0.status == 200 <==> id in db.itineraries && db.itineraries[id].userId == u
    ensures out.0.status != 200 ==> out.1 == db
    ensures out.0.status == 200 ==>
      out.0.message == "Itinerary deleted successfully"
      && out.1 == db.(itineraries := db.itineraries - {id})
    ensures id !in db.itineraries ==> out == (Response(404, ItineraryNotFound, None), db)
    ensures id in db.itineraries && db.itineraries[id].userId != u ==>
      out == (Response(403, "Unauthorized to delete this itinerary", None), db)
  {
    match CheckOwner(db, u, id, "Unauthorized to delete this itinerary")
    case Some(refusal) => (refusal, db)
    case None => (Response(200, "Itinerary deleted successfully", None), db.(itineraries := db.itineraries - {id}))
  }

  /** Inserting through either create handler keeps (trip, type) unique. */
  lemma InsertKeepsUnique(db: Db, u: Id, tripId: Id, tripType: Value, content: Value, created: string)
    requires UniqueTripTypes(db) && IdsIssued(db)
    ensures var db' := Insert(db, u, tripId, tripType, content, created).1;
      UniqueTripTypes(db') && IdsIssued(db')
  {
  }

  lemma CreateKeepsUnique(db: Db, u: Id, tripId: Id, tripType: Value, content: Value)
    requires UniqueTripTypes(db) && IdsIssued(db)
    ensures var db' := CreateItinerary(db, u, tripId, tripType, content).1;
      UniqueTripTypes(db') && IdsIssued(db')
  {
    InsertKeepsUnique(db, u, tripId, tripType, content, "Itinerary created successfully");
  }

  lemma SaveKeepsUnique(db: Db, u: Id, body: SaveBody)
    requires UniqueTripTypes(db) && IdsIssued(db)
    ensures var db' := SaveGeneratedItinerary(db, u, body).1;
      UniqueTripTypes(db') && IdsIssued(db')
  {
    if CheckSave(body).None? {
      InsertKeepsUnique(db, u, body.tripId.value, body.tripType, body.content, "Generated itinerary saved successfully");
    }
  }

  /** An update that changes a type checks the whole trip, so (trip, type)
      stays unique. */
  lemma UpdateKeepsUnique(db: Db, u: Id, id: Id, tripType: Value, content: Value)
    requires UniqueTripTypes(db) && IdsIssued(db)
    ensures var db' := UpdateItinerary(db, u, id, tripType, content).1;
      UniqueTripTypes(db') && IdsIssued(db')
  {
    var db' := UpdateItinerary(db, u, id, tripType, content).1;
    if db' != db {
      var it := db.itineraries[id];
      forall i, j | i in db'.itineraries && j in db'.itineraries && i != j
        ensures db'.itineraries[i].tripId != db'.itineraries[j].tripId
          || !FilterEquals(db'.itineraries[i].tripType, db'.itineraries[j].tripType)
      {
        if i == id || j == id {
          var other := if i == id then j else i;
          assert db'.itineraries[other] == db.itineraries[other];
          assert db'.itineraries[id].tripId == it.tripId;
          if Truthy(tripType) && tripType != it.tripType {
            assert FindTripType(db, it.tripId, tripType).None?;
          }
        } else {
          assert db'.itineraries[i] == db.itineraries[i] && db'.itineraries[j] == db.itineraries[j];
        }
      }
    }
  }

  lemma DeleteKeepsUnique(db: Db, u: Id, id: Id)
    requires UniqueTripTypes(db) && IdsIssued(db)
    ensures var db' := DeleteItinerary(db, u, id).1;
      UniqueTripTypes(db') && IdsIssued(db')
  {
  }

  /** A save that fails its input checks is answered without reading the
      store: the answer is the same whatever the store holds. */
  lemma SaveChecksBeforeStore(db1: Db, db2: Db, u: Id, body: SaveBody)
    requires CheckSave(body).Some?
    ensures SaveGeneratedItinerary(db1, u, body).0 == SaveGeneratedItinerary(db2, u, body).0
    ensures SaveGeneratedItinerary(db1, u, body).0.status == 400
  {
  }

  /** Zero people is reported as a missing field, not as a bad count. */
  lemma ZeroPeopleIsMissing(db: Db, u: Id, tripId: Id)
    ensures SaveGeneratedItinerary(db, u, SaveBody(Some(tripId), Str("budget"), Obj([]), Num(0.0))).0.message
      == "Missing required fields: tripId, type, content, or numberOfPeople"
  {
  }

  /** A second save of the same type for a trip is refused with the first
      one, and the store keeps one itinerary of that type. */
  lemma SecondSaveRefused(db: Db, u: Id, body: SaveBody)
    requires UniqueTripTypes(db) && IdsIssued(db)
    requires SaveGeneratedItinerary(db, u, body).0.status == 201
    ensures var db' := SaveGeneratedItinerary(db, u, body).1;
      var (resp, db'') := SaveGeneratedItinerary(db', u, body);
      && resp.status == 400 && resp.message == DuplicateMessage(body.tripType)
      && resp.data == Some((db.nextId, db'.itineraries[db.nextId]))
      && db'' == db'
  {
    var db' := SaveGeneratedItinerary(db, u, body).1;
    var tripId := body.tripId.value;
    assert OwnsTrip(db', u, tripId);
    var f := FindTripType(db', tripId, body.tripType);
    assert db'.itineraries[db.nextId].tripId == tripId && db'.itineraries[db.nextId].tripType == body.tripType;
    assert IdsIssued(db');
    assert f.Some?;
  }

  /** `{ tripId, type: null }` also matches an itinerary stored without a
      type, and a query without a type is sent as `null`: once a trip has an
      itinerary whose type is `null` or missing, creating another in either
      form is refused with the first. */
  lemma NullTypeIsMissingType(db: Db, u: Id, tripId: Id, tripType: Value, tripType': Value, content: Value, content': Value)
    requires UniqueTripTypes(db) && IdsIssued(db)
    requires tripType.Null? || tripType.Undefined?
    requires tripType'.Null? || tripType'.Undefined?
    requires CreateItinerary(db, u, tripId, tripType, content).0.status == 201
    ensures var db' := CreateItinerary(db, u, tripId, tripType, content).1;
      CreateItinerary(db', u, tripId, tripType', content')
      == (Response(400, DuplicateMessage(tripType'), Some((db.nextId, Itinerary(u, tripId, tripType, content)))), db')
  {
    var db' := CreateItinerary(db, u, tripId, tripType, content).1;
    assert OwnsTrip(db', u, tripId);
    assert db'.itineraries[db.nextId] == Itinerary(u, tripId, tripType, content);
    assert IdsIssued(db');
    assert FindTripType(db', tripId, tripType').Some?;
  }
}
