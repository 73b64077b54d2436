/** The trip controller: create, list, read, update and delete trips, each
    a transition of the store. Only the owner may read, change or delete a
    trip. */
module Trips {
  import opened Wrappers
  import opened Values
  import opened Store

  /** The fields of `req.body` a trip request uses. */
  datatype TripBody = TripBody(destination: Value, startDate: Option<int>, endDate: Option<int>, review: Value)

  const TripNotFound := "Trip not found"

  /** `createTrip`: store a trip owned by the caller and append its id to
      the caller's `trips`. */
  function CreateTrip(db: Db, u: Id, body: TripBody): (out: (Response<(Id, Trip)>, Db))
    ensures out.0.status == 201 && out.0.message == "Trip created successfully"
    ensures var (resp, db') := out;
      && resp.data.Some?
      && var (id, t) := resp.data.value;
      && t == Trip(u, body.destination, body.startDate, body.endDate, body.review)
      && db'.trips == db.trips[id := t]
      && id == db.nextId && db'.nextId == db.nextId + 1
      && db'.itineraries == db.itineraries && db'.likes == db.likes
      && db'.users == PushTrip(db.users, u, id)
  {
    var id := db.nextId;
    var t := Trip(u, body.destination, body.startDate, body.endDate, body.review);
    (Response(201, "Trip created successfully", Some((id, t))),
     db.(trips := db.trips[id := t], users := PushTrip(db.users, u, id), nextId := id + 1))
  }

  /** `b` may follow `a` when trips are sorted by start date, latest
      first; MongoDB places a missing date after every present one. */
  predicate NotBefore(a: Option<int>, b: Option<int>) {
    b.None? || (a.Some? && a.value >= b.value)
  }

  predicate SortedByStart(r: seq<(Id, Trip)>) {
    forall j, k :: 0 <= j < k < |r| ==> NotBefore(r[j].1.startDate, r[k].1.startDate)
  }

  function Insert(x: (Id, Trip), xs: seq<(Id, Trip)>): (r: seq<(Id, Trip)>)
    requires SortedByStart(xs)
    ensures multiset(r) == multiset(xs) + multiset{x}
    ensures SortedByStart(r)
  {
    if |xs| == 0 then [x]
    else if NotBefore(x.1.startDate, xs[0].1.startDate) then
      PrependSorted(x, xs);
      [x] + xs
    else
      var rest := Insert(x, xs[1..]);
      assert xs == [xs[0]] + xs[1..];
      forall y | y in multiset(rest)
        ensures NotBefore(xs[0].1.startDate, y.1.startDate)
      {
        if y != x {
          assert y in multiset(xs[1..]);
          var i :| 0 <= i < |xs[1..]| && xs[1..][i] == y;
          assert xs[i + 1] == y;
        }
      }
      HeadFirst(xs[0], rest);
      [xs[0]] + rest
  }

  /** A sorted list stays sorted behind an element that may precede its
      head. */
  lemma PrependSorted(x: (Id, Trip), xs: seq<(Id, Trip)>)
    requires SortedByStart(xs) && |xs| > 0
    requires NotBefore(x.1.startDate, xs[0].1.startDate)
    ensures SortedByStart([x] + xs)
  {
    forall y | y in multiset(xs)
      ensures NotBefore(x.1.startDate, y.1.startDate)
    {
      var i :| 0 <= i < |xs| && xs[i] == y;
      assert i == 0 || NotBefore(xs[0].1.startDate, xs[i].1.startDate);
    }
    HeadFirst(x, xs);
  }

  lemma HeadFirst(h: (Id, Trip), rest: seq<(Id, Trip)>)
    requires SortedByStart(rest)
    requires forall y :: y in multiset(rest) ==> NotBefore(h.1.startDate, y.1.startDate)
    ensures SortedByStart([h] + rest)
  {
    var r := [h] + rest;
    forall j, k | 0 <= j < k < |r|
      ensures NotBefore(r[j].1.startDate, r[k].1.startDate)
    {
      assert r[k] == rest[k - 1];
      if j == 0 {
        assert rest[k - 1] in multiset(rest);
      } else {
        assert r[j] == rest[j - 1];
      }
    }
  }

  /** `.sort({ startDate: -1 })`. */
  function SortByStart(xs: seq<(Id, Trip)>): (r: seq<(Id, Trip)>)
    ensures multiset(r) == multiset(xs)
    ensures SortedByStart(r)
  {
    if |xs| == 0 then []
    else
      assert xs == [xs[0]] + xs[1..];
      Insert(xs[0], SortByStart(xs[1..]))
  }

  /** `getTrips`: the caller's trips, latest start date first. */
  function GetTrips(db: Db, u: Id): (resp: Response<seq<(Id, Trip)>>)
    ensures resp.status == 200 && resp.data.Some?
    ensures SortedByStart(resp.data.value)
    ensures forall k :: 0 <= k < |resp.data.value| ==>
      var (id, t) := resp.data.value[k]; id in db.trips && db.trips[id] == t && t.userId == u
  {
    var mine := NewestFirst(db.trips, (t: Trip) => t.userId == u, db.nextId);
    var sorted := SortByStart(mine);
    assert forall k :: 0 <= k < |sorted| ==> sorted[k] in multiset(mine);
    Response(200, "", Some(sorted))
  }

  /** The owner check shared by the handlers that take a trip id: 404 for
      a missing trip, 403 for another user's. */
  function CheckOwner(db: Db, u: Id, id: Id, forbidden: string): (r: Option<Response<(Id, Trip)>>)
    ensures r.None? <==> id in db.trips && db.trips[id].userId == u
    ensures r.Some? ==> r.value.data.None?
    ensures r.Some? && id !in db.trips ==> r.value.status == 404 && r.value.message == TripNotFound
    ensures r.Some? && id in db.trips ==> r.value.status == 403 && r.value.message == forbidden
  {
    if id !in db.trips then Some(Response(404, TripNotFound, None))
    else if db.trips[id].userId != u then Some(Response(403, forbidden, None))
    else None
  }

  /** `getTrip`. */
  function GetTrip(db: Db, u: Id, id: Id): (resp: Response<(Id, Trip)>)
    ensures resp.status == 200 <==> id in db.trips && db.trips[id].userId == u
    ensures resp.status == 200 ==> resp.data == Some((id, db.trips[id]))
    ensures resp.status != 200 ==> resp.data.None?
    ensures id !in db.trips ==> resp == Response(404, TripNotFound, None)
    ensures id in db.trips && db.trips[id].userId != u ==>
      resp == Response(403, "Unauthorized access to this trip", None)
  {
    match CheckOwner(db, u, id, "Unauthorized access to this trip")
    case Some(refusal) => refusal
    case None => Response(200, "", Some((id, db.trips[id])))
  }

  /** Mongoose drops `undefined` fields from an update. */
  function Keep<T>(given: Option<T>, stored: Option<T>): Option<T> {
    if given.Some? then given else stored
  }

  function KeepValue(given: Value, stored: Value): Value {
    if given.Undefined? then stored else given
  }

  /** `updateTrip`: write the four editable fields. */
  function UpdateTrip(db: Db, u: Id, id: Id, body: TripBody): (out: (Response<(Id, Trip)>, Db))
    ensures var (resp, db') := out;
      resp.status == 200 <==> id in db.trips && db.trips[id].userId == u
    ensures var (resp, db') := out;
      resp.status != 200 ==> db' == db && resp.data.None?
    ensures var (resp, db') := out;
      resp.status == 200 ==>
        && resp.message == "Trip updated successfully"
        && db'.trips.Keys == db.trips.Keys
        && (forall other :: other in db.trips && other != id ==> db'.trips[other] == db.trips[other])
        && db'.trips[id].userId == db.trips[id].userId
        && db'.trips[id].destination == KeepValue(body.destination, db.trips[id].destination)
        && db'.trips[id].startDate == Keep(body.startDate, db.trips[id].startDate)
        && db'.trips[id].endDate == Keep(body.endDate, db.trips[id].endDate)
        && db'.trips[id].review == KeepValue(body.review, db.trips[id].review)
        && resp.data == Some((id, db'.trips[id]))
        && db' == db.(trips := db'.trips)
    ensures id !in db.trips ==> out == (Response(404, TripNotFound, None), db)
    ensures id in db.trips && db.trips[id].userId != u ==>
      out == (Response(403, "Unauthorized to update this trip", None), db)
  {
    match CheckOwner(db, u, id, "Unauthorized to update this trip")
    case Some(refusal) => (refusal, db)
    case None =>
      var t := db.trips[id];
      var t' := t.(destination := KeepValue(body.destination, t.destination),
                   startDate := Keep(body.startDate, t.startDate),
                   endDate := Keep(body.endDate, t.endDate),
                   review := KeepValue(body.review, t.review));
      (Response(200, "Trip updated successfully", Some((id, t'))), db.(trips := db.trips[id := t']))
  }

  /** `deleteTrip`: remove the trip and pull its id from the caller's
      `trips`. Itineraries of the trip stay. */
  function DeleteTrip(db: Db, u: Id, id: Id): (out: (Response<(Id, Trip)>, Db))
    ensures var (resp, db') := out;
      resp.status == 200 <==> id in db.trips && db.trips[id].userId == u
    ensures var (resp, db') := out;
      resp.status != 200 ==> db' == db
    ensures var (resp, db') := out;
      resp.status == 200 ==>
        && resp.message == "Trip deleted successfully"
        && db'.trips == db.trips - {id}
        && db'.users == PullTrip(db.users, u, id)
        && db'.itineraries == db.itineraries && db'.likes == db.likes && db'.nextId == db.nextId
    ensures id !in db.trips ==> out == (Response(404, TripNotFound, None), db)
    ensures id in db.trips && db.trips[id].userId != u ==>
      out == (Response(403, "Unauthorized to delete this trip", None), db)
  {
    match CheckOwner(db, u, id, "Unauthorized to delete this trip")
    case Some(refusal) => (refusal, db)
    case None =>
      (Response(200, "Trip deleted successfully", None),
       db.(trips := db.trips - {id}, users := PullTrip(db.users, u, id)))
  }

  /** Every trip of a known user is on that user's `trips` list. */
  predicate TripsListed(db: Db) {
    forall id :: id in db.trips && db.trips[id].userId in db.users ==> id in db.users[db.trips[id].userId].trips
  }

  /** Creating, updating and deleting trips keep every trip listed with its
      owner, and keep ids issued. */
  lemma CreateTripKeepsInvariant(db: Db, u: Id, body: TripBody)
    requires TripsListed(db) && IdsIssued(db)
    ensures var db' := CreateTrip(db, u, body).1; TripsListed(db') && IdsIssued(db')
  {
    var c := CreateTrip(db, u, body).1;
    forall t | t in c.trips && c.trips[t].userId in c.users
      ensures t in c.users[c.trips[t].userId].trips
    {
      if t != db.nextId {
        assert c.trips[t] == db.trips[t];
      }
    }
  }

  lemma UpdateTripKeepsInvariant(db: Db, u: Id, id: Id, body: TripBody)
    requires TripsListed(db) && IdsIssued(db)
    ensures var db' := UpdateTrip(db, u, id, body).1; TripsListed(db') && IdsIssued(db')
  {
  }

  lemma DeleteTripKeepsInvariant(db: Db, u: Id, id: Id)
    requires TripsListed(db) && IdsIssued(db)
    ensures var db' := DeleteTrip(db, u, id).1; TripsListed(db') && IdsIssued(db')
  {
    var d := DeleteTrip(db, u, id).1;
    if d != db {
      forall t | t in d.trips && d.trips[t].userId in d.users
        ensures t in d.users[d.trips[t].userId].trips
      {
        assert d.trips[t] == db.trips[t];
      }
    }
  }

  /** `getTrips` lists every trip of the caller, and nothing else, when
      every id was issued by the counter. */
  lemma GetTripsComplete(db: Db, u: Id, id: Id)
    requires IdsIssued(db)
    ensures id in IdsOf(GetTrips(db, u).data.value) <==> id in db.trips && db.trips[id].userId == u
  {
    var mine := NewestFirst(db.trips, (t: Trip) => t.userId == u, db.nextId);
    var sorted := GetTrips(db, u).data.value;
    assert sorted == SortByStart(mine);
    SameIds(mine, sorted, id);
  }

  /** Two listings holding the same entries hold the same ids. */
  lemma SameIds(a: seq<(Id, Trip)>, b: seq<(Id, Trip)>, id: Id)
    requires multiset(a) == multiset(b)
    ensures id in IdsOf(a) <==> id in IdsOf(b)
  {
    if id in IdsOf(a) {
      var k :| 0 <= k < |a| && IdsOf(a)[k] == id;
      assert a[k] in multiset(b);
      var j :| 0 <= j < |b| && b[j] == a[k];
      assert IdsOf(b)[j] == id;
    }
    if id in IdsOf(b) {
      var j :| 0 <= j < |b| && IdsOf(b)[j] == id;
      assert b[j] in multiset(a);
      var k :| 0 <= k < |a| && a[k] == b[j];
      assert IdsOf(a)[k] == id;
    }
  }

  /** A refused request changes nothing: the store after a 404 or 403 is
      the store before it. */
  lemma RefusalsChangeNothing(db: Db, u: Id, id: Id, body: TripBody)
    requires id !in db.trips || db.trips[id].userId != u
    ensures UpdateTrip(db, u, id, body).1 == db && UpdateTrip(db, u, id, body).0.status in {403, 404}
    ensures DeleteTrip(db, u, id).1 == db && DeleteTrip(db, u, id).0.status in {403, 404}
    ensures GetTrip(db, u, id).status in {403, 404}
  {
  }
}
