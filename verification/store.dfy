/** The document store behind the persistence controllers. Each collection
    is a map from document id to document. Ids come from one counter, so a
    larger id means a later insertion: `createdAt` order is id order. A
    user document keeps the ids of the user's trips and itinerary likes. */
module Store {
  import opened Wrappers
  import opened Values

  type Id = nat

  datatype User = User(trips: seq<Id>, itineraryLikes: seq<Id>)

  /** A trip; the dates are day numbers as Mongoose stores them, `None`
      when the request left them out. */
  datatype Trip = Trip(userId: Id, destination: Value, startDate: Option<int>, endDate: Option<int>, review: Value)

  /** An itinerary. The schema has no `numberOfPeople` path, so Mongoose's
      strict mode drops that field when a generated itinerary is saved. */
  datatype Itinerary = Itinerary(userId: Id, tripId: Id, tripType: Value, content: Value)

  datatype Like = Like(userId: Id, itineraryId: Id, dayNumber: Value, liked: Value)

  /** MongoDB's equality filter `{ f: q }` against a stored value `v`. A
      `null` query matches a field that is `null` or missing, and the driver
      sends an `undefined` query as `null`; any other query matches an equal
      value. A missing field is stored as `Undefined`. */
  predicate FilterEquals(q: Value, v: Value) {
    if q.Null? || q.Undefined? then v.Null? || v.Undefined? else q == v
  }

  /** The filter equality is an equivalence: `null` and missing form one
      class, and every other value is a class of its own. */
  lemma FilterEqualsIsEquivalence(a: Value, b: Value, c: Value)
    ensures FilterEquals(a, a)
    ensures FilterEquals(a, b) ==> FilterEquals(b, a)
    ensures FilterEquals(a, b) && FilterEquals(b, c) ==> FilterEquals(a, c)
    ensures FilterEquals(a, b) <==> a == b || ((a.Null? || a.Undefined?) && (b.Null? || b.Undefined?))
  {
  }

  datatype Db = Db(
    users: map<Id, User>,
    trips: map<Id, Trip>,
    itineraries: map<Id, Itinerary>,
    likes: map<Id, Like>,
    nextId: Id)

  /** The status, message and document of a controller's JSON reply; a
      status of 400 or more has `success: false`. */
  datatype Response<T> = Response(status: int, message: string, data: Option<T>)

  /** Every stored id was handed out by the counter. */
  predicate IdsIssued(db: Db) {
    && (forall id :: id in db.trips ==> id < db.nextId)
    && (forall id :: id in db.itineraries ==> id < db.nextId)
    && (forall id :: id in db.likes ==> id < db.nextId)
  }

  /** `User.findByIdAndUpdate(u, { $push: ... })`: a missing user is left
      missing. */
  function PushTrip(users: map<Id, User>, u: Id, id: Id): (r: map<Id, User>)
    ensures r.Keys == users.Keys
    ensures u in users ==> r[u].trips == users[u].trips + [id] && r[u].itineraryLikes == users[u].itineraryLikes
    ensures forall v :: v in users && v != u ==> r[v] == users[v]
  {
    if u in users then users[u := users[u].(trips := users[u].trips + [id])] else users
  }

  function PushLike(users: map<Id, User>, u: Id, id: Id): (r: map<Id, User>)
    ensures r.Keys == users.Keys
    ensures u in users ==> r[u].itineraryLikes == users[u].itineraryLikes + [id] && r[u].trips == users[u].trips
    ensures forall v :: v in users && v != u ==> r[v] == users[v]
  {
    if u in users then users[u := users[u].(itineraryLikes := users[u].itineraryLikes + [id])] else users
  }

  /** `$pull`: every occurrence of `id` goes, the rest keep their order. */
  function Pull(ids: seq<Id>, id: Id): (r: seq<Id>)
    ensures forall x :: x in r <==> x in ids && x != id
    ensures |r| <= |ids|
  {
    if |ids| == 0 then []
    else if ids[0] == id then Pull(ids[1..], id)
    else [ids[0]] + Pull(ids[1..], id)
  }

  function PullTrip(users: map<Id, User>, u: Id, id: Id): (r: map<Id, User>)
    ensures r.Keys == users.Keys
    ensures u in users ==> r[u].trips == Pull(users[u].trips, id) && r[u].itineraryLikes == users[u].itineraryLikes
    ensures forall v :: v in users && v != u ==> r[v] == users[v]
  {
    if u in users then users[u := users[u].(trips := Pull(users[u].trips, id))] else users
  }

  function PullLike(users: map<Id, User>, u: Id, id: Id): (r: map<Id, User>)
    ensures r.Keys == users.Keys
    ensures u in users ==> r[u].itineraryLikes == Pull(users[u].itineraryLikes, id) && r[u].trips == users[u].trips
    ensures forall v :: v in users && v != u ==> r[v] == users[v]
  {
    if u in users then users[u := users[u].(itineraryLikes := Pull(users[u].itineraryLikes, id))] else users
  }

  /** The ids of a listing, in listing order. */
  function IdsOf<T>(r: seq<(Id, T)>): (ids: seq<Id>)
    ensures |ids| == |r|
    ensures forall k :: 0 <= k < |r| ==> ids[k] == r[k].0
  {
    seq(|r|, k requires 0 <= k < |r| => r[k].0)
  }

  /** `find(query).sort({ createdAt: -1 })` over the ids below `hi`: the
      matching documents, newest first, each with its id. */
  function NewestFirst<T>(m: map<Id, T>, keep: T -> bool, hi: nat): (r: seq<(Id, T)>)
    ensures forall id :: id in IdsOf(r) <==> id < hi && id in m && keep(m[id])
    ensures forall k :: 0 <= k < |r| ==> r[k].0 in m && r[k].1 == m[r[k].0]
    ensures forall j, k :: 0 <= j < k < |r| ==> r[j].0 > r[k].0
    decreases hi
  {
    if hi == 0 then []
    else
      var rest := NewestFirst(m, keep, hi - 1);
      if hi - 1 in m && keep(m[hi - 1]) then
        var r := [(hi - 1, m[hi - 1])] + rest;
        assert forall k :: 1 <= k < |r| ==> r[k] == rest[k - 1];
        assert IdsOf(r) == [hi - 1] + IdsOf(rest);
        r
      else rest
  }

  /** `findOne(query)`: the first match in insertion order. */
  function FindOne<T>(m: map<Id, T>, keep: T -> bool, hi: nat): (r: Option<Id>)
    ensures r.Some? ==> r.value < hi && r.value in m && keep(m[r.value])
    ensures r.None? <==> forall id :: id < hi && id in m ==> !keep(m[id])
    ensures r.Some? ==> forall id :: id < r.value && id in m ==> !keep(m[id])
  {
    var found := NewestFirst(m, keep, hi);
    if |found| == 0 then None
    else
      var last := |found| - 1;
      assert found[last].0 == IdsOf(found)[last];
      assert forall k :: 0 <= k < |found| ==> IdsOf(found)[k] >= found[last].0;
      Some(found[last].0)
  }
}
