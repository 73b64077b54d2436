/** The itinerary-like controller as transitions of the store. A user likes
    or dislikes a given day of a given itinerary at most once; the like's id
    is kept on the user's `itineraryLikes` list. */
module Likes {
  import opened Wrappers
  import opened Values
  import opened Store

  const LikeNotFound := "Itinerary like not found"
  const AlreadyRated := "You have already liked/disliked this itinerary day"

  /** At most one like per (user, itinerary, day), days compared as the
      duplicate query compares them. */
  predicate UniqueDayLikes(db: Db) {
    forall i, j :: i in db.likes && j in db.likes && i != j ==>
      var a := db.likes[i]; var b := db.likes[j];
      a.userId != b.userId || a.itineraryId != b.itineraryId || !FilterEquals(a.dayNumber, b.dayNumber)
  }

  /** Every like of a known user is on that user's `itineraryLikes` list. */
  predicate LikesListed(db: Db) {
    forall id :: id in db.likes && db.likes[id].userId in db.users ==> id in db.users[db.likes[id].userId].itineraryLikes
  }

  /** `ItineraryLike.findOne({ userId, itineraryId, dayNumber })`. */
  function FindDayLike(db: Db, u: Id, itineraryId: Id, dayNumber: Value): (r: Option<Id>)
    ensures r.Some? ==>
      r.value in db.likes && db.likes[r.value].userId == u && db.likes[r.value].itineraryId == itineraryId
      && FilterEquals(dayNumber, db.likes[r.value].dayNumber)
    ensures r.None? && IdsIssued(db) ==> forall id :: id in db.likes ==>
      db.likes[id].userId != u || db.likes[id].itineraryId != itineraryId || !FilterEquals(dayNumber, db.likes[id].dayNumber)
  {
    FindOne(db.likes, (l: Like) => l.userId == u && l.itineraryId == itineraryId && FilterEquals(dayNumber, l.dayNumber), db.nextId)
  }

  /** `createItineraryLike`: refuse a second rating of the same day, else
      store the like and append its id to the caller's `itineraryLikes`.
      The itinerary itself is not looked up. */
  function CreateLike(db: Db, u: Id, itineraryId: Id, dayNumber: Value, liked: Value): (out: (Response<(Id, Like)>, Db))
    ensures out.0.status == 201 <==> FindDayLike(db, u, itineraryId, dayNumber).None?
    ensures out.0.status != 201 ==>
      && var e := FindDayLike(db, u, itineraryId, dayNumber).value;
      && out.0 == Response(400, AlreadyRated, Some((e, db.likes[e])))
      && out.1 == db
    ensures out.0.status == 201 ==>
      && out.0.message == "Itinerary like created successfully"
      && out.1 == db.(likes := db.likes[db.nextId := Like(u, itineraryId, dayNumber, liked)],
                      users := PushLike(db.users, u, db.nextId),
                      nextId := db.nextId + 1)
  {
    match FindDayLike(db, u, itineraryId, dayNumber)
    case Some(e) => (Response(400, AlreadyRated, Some((e, db.likes[e]))), db)
    case None =>
      var id := db.nextId;
      var l := Like(u, itineraryId, dayNumber, liked);
      (Response(201, "Itinerary like created successfully", Some((id, l))),
       db.(likes := db.likes[id := l], users := PushLike(db.users, u, id), nextId := id + 1))
  }

  /** The query of `getItineraryLikes`: the caller's likes, narrowed to
      one itinerary when the query names one. */
  predicate Selected(l: Like, u: Id, itineraryFilter: Option<Id>) {
    l.userId == u && (itineraryFilter.Some? ==> l.itineraryId == itineraryFilter.value)
  }

  /** `getItineraryLikes`: newest first. */
  function GetLikes(db: Db, u: Id, itineraryFilter: Option<Id>): (resp: Response<seq<(Id, Like)>>)
    ensures resp.status == 200 && resp.data.Some?
    ensures forall k :: 0 <= k < |resp.data.value| ==>
      var (id, l) := resp.data.value[k];
      id in db.likes && db.likes[id] == l && Selected(l, u, itineraryFilter)
    ensures forall j, k :: 0 <= j < k < |resp.data.value| ==> resp.data.value[j].0 > resp.data.value[k].0
    ensures IdsIssued(db) ==> forall id :: id in db.likes && Selected(db.likes[id], u, itineraryFilter) ==>
      id in IdsOf(resp.data.value)
  {
    var r := NewestFirst(db.likes, (l: Like) => Selected(l, u, itineraryFilter), db.nextId);
    Response(200, "", Some(r))
  }

  /** The owner check of the handlers that take a like id. */
  function CheckOwner(db: Db, u: Id, id: Id, forbidden: string): (r: Option<Response<(Id, Like)>>)
    ensures r.None? <==> id in db.likes && db.likes[id].userId == u
    ensures r.Some? && id !in db.likes ==> r.value == Response(404, LikeNotFound, None)
    ensures r.Some? && id in db.likes ==> r.value == Response(403, forbidden, None)
  {
    if id !in db.likes then Some(Response(404, LikeNotFound, None))
    else if db.likes[id].userId != u then Some(Response(403, forbidden, None))
    else None
  }

  /** `updateItineraryLike`: only `liked` is written; Mongoose drops it
      from the update when the request leaves it out. */
  function UpdateLike(db: Db, u: Id, id: Id, liked: Value): (out: (Response<(Id, Like)>, Db))
    ensures out.0.status == 200 <==> id in db.likes && db.likes[id].userId == u
    ensures out.0.status != 200 ==> out.1 == db && out.0.status in {403, 404}
    ensures out.0.status == 200 ==>
      && out.0.message == "Itinerary like updated successfully"
      && var l := db.likes[id];
      && out.1 == db.(likes := db.likes[id := l.(liked := if liked.Undefined? then l.liked else liked)])
    ensures id !in db.likes ==> out == (Response(404, LikeNotFound, None), db)
    ensures id in db.likes && db.likes[id].userId != u ==>
      out == (Response(403, "Unauthorized to update this itinerary like", None), db)
  {
    match CheckOwner(db, u, id, "Unauthorized to update this itinerary like")
    case Some(refusal) => (refusal, db)
    case None =>
      var l := db.likes[id];
      var l' := l.(liked := if liked.Undefined? then l.liked else liked);
      (Response(200, "Itinerary like updated successfully", Some((id, l'))), db.(likes := db.likes[id := l']))
  }

  /** `deleteItineraryLike`: remove the like and pull its id from the
      caller's `itineraryLikes`. */
  function DeleteLike(db: Db, u: Id, id: Id): (out: (Response<(Id, Like)>, Db))
    ensures out.0.status == 200 <==> id in db.likes && db.likes[id].userId == u
    ensures out.0.status != 200 ==> out.1 == db && out.0.status in {403, 404}
    ensures out.0.status == 200 ==>
      && out.0.message == "Itinerary like deleted successfully"
      && out.1 == db.(likes := db.likes - {id}, users := PullLike(db.users, u, id))
    ensures id !in db.likes ==> out == (Response(404, LikeNotFound, None), db)
    ensures id in db.likes && db.likes[id].userId != u ==>
      out == (Response(403, "Unauthorized to delete this itinerary like", None), db)
  {
    match CheckOwner(db, u, id, "Unauthorized to delete this itinerary like")
    case Some(refusal) => (refusal, db)
    case None =>
      (Response(200, "Itinerary like deleted successfully", None),
       db.(likes := db.likes - {id}, users := PullLike(db.users, u, id)))
  }

  /** The like invariants: ids issued, one like per day, every like listed
      with its owner. */
  predicate LikesValid(db: Db) {
    IdsIssued(db) && UniqueDayLikes(db) && LikesListed(db)
  }

  lemma CreateLikeKeepsInvariant(db: Db, u: Id, itineraryId: Id, dayNumber: Value, liked: Value)
    requires LikesValid(db)
    ensures LikesValid(CreateLike(db, u, itineraryId, dayNumber, liked).1)
  {
    var c := CreateLike(db, u, itineraryId, dayNumber, liked).1;
    if c != db {
      forall id | id in c.likes && c.likes[id].userId in c.users
        ensures id in c.users[c.likes[id].userId].itineraryLikes
      {
        if id != db.nextId {
          assert c.likes[id] == db.likes[id];
        }
      }
    }
  }

  lemma UpdateLikeKeepsInvariant(db: Db, u: Id, id: Id, liked: Value)
    requires LikesValid(db)
    ensures LikesValid(UpdateLike(db, u, id, liked).1)
  {
  }

  lemma DeleteLikeKeepsInvariant(db: Db, u: Id, id: Id)
    requires LikesValid(db)
    ensures LikesValid(DeleteLike(db, u, id).1)
  {
    var d := DeleteLike(db, u, id).1;
    if d != db {
      forall x | x in d.likes && d.likes[x].userId in d.users
        ensures x in d.users[d.likes[x].userId].itineraryLikes
      {
        assert d.likes[x] == db.likes[x];
      }
    }
  }

  /** Rating the same day twice: the second request is refused with the
      first like and changes nothing. */
  lemma SecondRatingRefused(db: Db, u: Id, itineraryId: Id, dayNumber: Value, liked: Value, liked': Value)
    requires LikesValid(db)
    requires CreateLike(db, u, itineraryId, dayNumber, liked).0.status == 201
    ensures var db' := CreateLike(db, u, itineraryId, dayNumber, liked).1;
      var (resp, db'') := CreateLike(db', u, itineraryId, dayNumber, liked');
      && resp == Response(400, AlreadyRated, Some((db.nextId, Like(u, itineraryId, dayNumber, liked))))
      && db'' == db'
  {
    var db' := CreateLike(db, u, itineraryId, dayNumber, liked).1;
    assert db'.likes[db.nextId] == Like(u, itineraryId, dayNumber, liked);
    assert IdsIssued(db');
    assert FindDayLike(db', u, itineraryId, dayNumber).Some?;
  }

  /** `{ dayNumber: null }` also matches a like stored without a day, and a
      query without a day is sent as `null`: once a day is rated as `null`
      or without a day, a second rating in either form is refused with the
      first like. */
  lemma NullDayIsMissingDay(db: Db, u: Id, itineraryId: Id, dayNumber: Value, dayNumber': Value, liked: Value, liked': Value)
    requires LikesValid(db)
    requires dayNumber.Null? || dayNumber.Undefined?
    requires dayNumber'.Null? || dayNumber'.Undefined?
    requires CreateLike(db, u, itineraryId, dayNumber, liked).0.status == 201
    ensures var db' := CreateLike(db, u, itineraryId, dayNumber, liked).1;
      CreateLike(db', u, itineraryId, dayNumber', liked')
      == (Response(400, AlreadyRated, Some((db.nextId, Like(u, itineraryId, dayNumber, liked)))), db')
  {
    var db' := CreateLike(db, u, itineraryId, dayNumber, liked).1;
    assert db'.likes[db.nextId] == Like(u, itineraryId, dayNumber, liked);
    assert IdsIssued(db');
    assert FindDayLike(db', u, itineraryId, dayNumber').Some?;
  }
}
