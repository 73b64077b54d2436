/** The persistence handlers together: every handler keeps the store's
    invariants, whichever collection it writes. */
module Api {
  import opened Wrappers
  import opened Values
  import opened Store
  import Trips
  import Itineraries
  import Likes

  /** The store's invariants: ids issued by the counter, every trip and like
      listed with its owner, one itinerary per (trip, type) and one like
      per (user, itinerary, day). */
  predicate Valid(db: Db) {
    && IdsIssued(db)
    && Trips.TripsListed(db)
    && Itineraries.UniqueTripTypes(db)
    && Likes.LikesValid(db)
  }

  /** A request to one of the persistence handlers. */
  datatype Request =
    | CreateTrip(body: Trips.TripBody)
    | GetTrips
    | GetTrip(id: Id)
    | UpdateTrip(id: Id, body: Trips.TripBody)
    | DeleteTrip(id: Id)
    | CreateItinerary(tripId: Id, tripType: Value, content: Value)
    | SaveGeneratedItinerary(save: Itineraries.SaveBody)
    | GetItineraries(tripFilter: Option<Id>, typeFilter: Value)
    | GetItinerary(id: Id)
    | UpdateItinerary(id: Id, tripType: Value, content: Value)
    | DeleteItinerary(id: Id)
    | CreateLike(itineraryId: Id, dayNumber: Value, liked: Value)
    | GetLikes(itineraryFilter: Option<Id>)
    | UpdateLike(id: Id, liked: Value)
    | DeleteLike(id: Id)

  /** The store after user `u`'s request, with the reply's status. */
  function Handle(db: Db, u: Id, req: Request): (out: (int, Db))
    ensures out.0 >= 400 ==> out.1 == db
    ensures req.GetTrips? || req.GetTrip? || req.GetItineraries? || req.GetItinerary? || req.GetLikes? ==> out.1 == db
  {
    match req
    case CreateTrip(body) => var (r, db') := Trips.CreateTrip(db, u, body); (r.status, db')
    case GetTrips => (Trips.GetTrips(db, u).status, db)
    case GetTrip(id) => (Trips.GetTrip(db, u, id).status, db)
    case UpdateTrip(id, body) => var (r, db') := Trips.UpdateTrip(db, u, id, body); (r.status, db')
    case DeleteTrip(id) => var (r, db') := Trips.DeleteTrip(db, u, id); (r.status, db')
    case CreateItinerary(tripId, t, c) =>
      var (r, db') := Itineraries.CreateItinerary(db, u, tripId, t, c); (r.status, db')
    case SaveGeneratedItinerary(save) =>
      var (r, db') := Itineraries.SaveGeneratedItinerary(db, u, save); (r.status, db')
    case GetItineraries(tf, yf) => (Itineraries.GetItineraries(db, u, tf, yf).status, db)
    case GetItinerary(id) => (Itineraries.GetItinerary(db, u, id).status, db)
    case UpdateItinerary(id, t, c) =>
      var (r, db') := Itineraries.UpdateItinerary(db, u, id, t, c); (r.status, db')
    case DeleteItinerary(id) => var (r, db') := Itineraries.DeleteItinerary(db, u, id); (r.status, db')
    case CreateLike(itineraryId, d, l) =>
      var (r, db') := Likes.CreateLike(db, u, itineraryId, d, l); (r.status, db')
    case GetLikes(f) => (Likes.GetLikes(db, u, f).status, db)
    case UpdateLike(id, l) => var (r, db') := Likes.UpdateLike(db, u, id, l); (r.status, db')
    case DeleteLike(id) => var (r, db') := Likes.DeleteLike(db, u, id); (r.status, db')
  }

  /** Every handler keeps every invariant. */
  lemma HandleKeepsValid(db: Db, u: Id, req: Request)
    requires Valid(db)
    ensures Valid(Handle(db, u, req).1)
  {
    match req
    case CreateTrip(body) => CreateTripValid(db, u, body);
    case UpdateTrip(id, body) => UpdateTripValid(db, u, id, body);
    case DeleteTrip(id) => DeleteTripValid(db, u, id);
    case CreateItinerary(tripId, t, c) => CreateItineraryValid(db, u, tripId, t, c);
    case SaveGeneratedItinerary(save) => SaveValid(db, u, save);
    case UpdateItinerary(id, t, c) => UpdateItineraryValid(db, u, id, t, c);
    case DeleteItinerary(id) => DeleteItineraryValid(db, u, id);
    case CreateLike(itineraryId, d, l) => CreateLikeValid(db, u, itineraryId, d, l);
    case UpdateLike(id, l) => UpdateLikeValid(db, u, id, l);
    case DeleteLike(id) => DeleteLikeValid(db, u, id);
    case _ =>
  }

  lemma CreateTripValid(db: Db, u: Id, body: Trips.TripBody)
    requires Valid(db)
    ensures Valid(Handle(db, u, CreateTrip(body)).1)
  {
    Trips.CreateTripKeepsInvariant(db, u, body);
    LikesUnchanged(db, Trips.CreateTrip(db, u, body).1);
  }

  lemma UpdateTripValid(db: Db, u: Id, id: Id, body: Trips.TripBody)
    requires Valid(db)
    ensures Valid(Handle(db, u, UpdateTrip(id, body)).1)
  {
    Trips.UpdateTripKeepsInvariant(db, u, id, body);
  }

  lemma DeleteTripValid(db: Db, u: Id, id: Id)
    requires Valid(db)
    ensures Valid(Handle(db, u, DeleteTrip(id)).1)
  {
    Trips.DeleteTripKeepsInvariant(db, u, id);
    LikesUnchanged(db, Trips.DeleteTrip(db, u, id).1);
  }

  lemma CreateItineraryValid(db: Db, u: Id, tripId: Id, t: Value, c: Value)
    requires Valid(db)
    ensures Valid(Handle(db, u, CreateItinerary(tripId, t, c)).1)
  {
    Itineraries.CreateKeepsUnique(db, u, tripId, t, c);
  }

  lemma SaveValid(db: Db, u: Id, save: Itineraries.SaveBody)
    requires Valid(db)
    ensures Valid(Handle(db, u, SaveGeneratedItinerary(save)).1)
  {
    var db' := Itineraries.SaveGeneratedItinerary(db, u, save).1;
    assert Handle(db, u, SaveGeneratedItinerary(save)).1 == db';
    Itineraries.SaveKeepsUnique(db, u, save);
    if Itineraries.CheckSave(save).None? {
      assert db' == Itineraries.Insert(db, u, save.tripId.value, save.tripType, save.content,
                                       "Generated itinerary saved successfully").1;
    }
    ItineraryChangeValid(db, db');
  }

  lemma UpdateItineraryValid(db: Db, u: Id, id: Id, t: Value, c: Value)
    requires Valid(db)
    ensures Valid(Handle(db, u, UpdateItinerary(id, t, c)).1)
  {
    Itineraries.UpdateKeepsUnique(db, u, id, t, c);
  }

  lemma DeleteItineraryValid(db: Db, u: Id, id: Id)
    requires Valid(db)
    ensures Valid(Handle(db, u, DeleteItinerary(id)).1)
  {
    Itineraries.DeleteKeepsUnique(db, u, id);
  }

  lemma CreateLikeValid(db: Db, u: Id, itineraryId: Id, dayNumber: Value, liked: Value)
    requires Valid(db)
    ensures Valid(Handle(db, u, CreateLike(itineraryId, dayNumber, liked)).1)
  {
    var db' := Likes.CreateLike(db, u, itineraryId, dayNumber, liked).1;
    assert Handle(db, u, CreateLike(itineraryId, dayNumber, liked)).1 == db';
    Likes.CreateLikeKeepsInvariant(db, u, itineraryId, dayNumber, liked);
    TripsUnchanged(db, db');
    ItinerariesUnchanged(db, db');
  }

  lemma UpdateLikeValid(db: Db, u: Id, id: Id, liked: Value)
    requires Valid(db)
    ensures Valid(Handle(db, u, UpdateLike(id, liked)).1)
  {
    Likes.UpdateLikeKeepsInvariant(db, u, id, liked);
  }

  lemma DeleteLikeValid(db: Db, u: Id, id: Id)
    requires Valid(db)
    ensures Valid(Handle(db, u, DeleteLike(id)).1)
  {
    Likes.DeleteLikeKeepsInvariant(db, u, id);
    TripsUnchanged(db, Likes.DeleteLike(db, u, id).1);
  }

  /** A change to the users' trip lists and the trips leaves the likes
      listed. */
  lemma LikesUnchanged(db: Db, db': Db)
    requires Likes.LikesValid(db) && IdsIssued(db')
    requires db'.likes == db.likes && db'.nextId >= db.nextId && db'.users.Keys == db.users.Keys
    requires forall v :: v in db.users ==> db'.users[v].itineraryLikes == db.users[v].itineraryLikes
    ensures Likes.LikesValid(db')
  {
  }

  /** A change to the users' like lists and the likes leaves the trips
      listed. */
  lemma TripsUnchanged(db: Db, db': Db)
    requires Trips.TripsListed(db)
    requires db'.trips == db.trips && db'.users.Keys == db.users.Keys
    requires forall v :: v in db.users ==> db'.users[v].trips == db.users[v].trips
    ensures Trips.TripsListed(db')
  {
  }

  /** A change to the itineraries alone that keeps (trip, type) unique and
      the ids issued keeps the store valid. */
  lemma ItineraryChangeValid(db: Db, db': Db)
    requires Valid(db) && Itineraries.UniqueTripTypes(db') && IdsIssued(db')
    requires db'.users == db.users && db'.trips == db.trips && db'.likes == db.likes && db'.nextId >= db.nextId
    ensures Valid(db')
  {
    LikesUnchanged(db, db');
    TripsUnchanged(db, db');
  }

  /** A change that leaves the itineraries alone keeps (trip, type) unique. */
  lemma ItinerariesUnchanged(db: Db, db': Db)
    requires Itineraries.UniqueTripTypes(db) && db'.itineraries == db.itineraries
    ensures Itineraries.UniqueTripTypes(db')
  {
  }

  /** Any run of requests from a valid store keeps every invariant. */
  lemma {:induction false} RunKeepsValid(db: Db, steps: seq<(Id, Request)>)
    requires Valid(db)
    ensures Valid(Run(db, steps))
    decreases |steps|
  {
    if |steps| > 0 {
      HandleKeepsValid(db, steps[0].0, steps[0].1);
      RunKeepsValid(Handle(db, steps[0].0, steps[0].1).1, steps[1..]);
    }
  }

  function Run(db: Db, steps: seq<(Id, Request)>): Db
    decreases |steps|
  {
    if |steps| == 0 then db else Run(Handle(db, steps[0].0, steps[0].1).1, steps[1..])
  }

  /** The empty store with some users. */
  lemma EmptyIsValid(users: map<Id, User>)
    ensures Valid(Db(users, map[], map[], map[], 0))
  {
  }
}
