/** The five handlers of controllers/places-controllers.js as operations on
    one store object holding the two collections. The two read handlers are
    functions of the store; the three write handlers are methods that change
    it. Every store error, every validation verdict, the geocoder's answer and
    the id Mongoose gives a new place arrive as parameters. */
module PlacesController {
  import opened Users
  import opened PlaceStore

  const StatusOk: int := 200
  const StatusCreated: int := 201
  const StatusUnauthorized: int := 401
  const StatusNotFound: int := 404
  const StatusInvalidInput: int := 422
  const StatusServerError: int := 500

  /** What a handler sends: a success payload with its status, or the status
      of the `HttpError` passed to `next`. */
  datatype Response<T> = Ok(status: int, body: T) | Err(status: int)

  /** The geocoder's answer: coordinates, or the status of the error it
      threw, which createPlace passes on unchanged. */
  datatype Geocoded = Located(coords: Coords) | GeocodeFailed(status: int)

  class Store {
    var users: map<Id, User>
    var places: map<Id, Place>

    function Snapshot(): (db: Db)
      reads this
    {
      Db(users, places)
    }

    /** The store invariant: the two collections agree, and every user
        satisfies the user schema with a unique email. */
    ghost predicate Valid()
      reads this
    {
      Consistent(Snapshot()) && AllValid(users) && EmailsUnique(users)
    }

    constructor (users0: map<Id, User>, places0: map<Id, Place>)
      ensures users == users0 && places == places0
    {
      users := users0;
      places := places0;
    }

    /** An empty store, which satisfies the store invariant. */
    constructor Empty()
      ensures users == map[] && places == map[]
      ensures Valid()
    {
      users := map[];
      places := map[];
    }

    /** getPlaceById. `lookupFails` stands for `Place.findById` throwing
        (a lost connection, or an id that is not an ObjectId). */
    function GetPlaceById(pid: Id, lookupFails: bool): (r: Response<Place>)
      reads this
      ensures lookupFails ==> r == Err(500)
      ensures !lookupFails && pid !in places ==> r == Err(404)
      ensures r.Ok? <==> !lookupFails && pid in places
      ensures r.Ok? ==> r.status == 200 && r.body == places[pid]
      ensures r.Ok? && Consistent(Snapshot()) ==>
        r.body.creator in users && pid in users[r.body.creator].places
    {
      if lookupFails then Err(StatusServerError)
      else if pid !in places then Err(StatusNotFound)
      else Ok(StatusOk, places[pid])
    }

    /** getPlacesByUserId. The guard tests `.length` of a document, which is
        always undefined, so only a missing user gives 404; a user without
        places gets 200 and an empty list. */
    function GetPlacesByUserId(uid: Id, lookupFails: bool): (r: Response<seq<Place>>)
      reads this
      ensures lookupFails ==> r == Err(500)
      ensures !lookupFails ==> (r.Err? <==> uid !in users)
      ensures !lookupFails && uid !in users ==> r == Err(404)
      ensures r.Ok? ==> r.status == 200 && uid in users && |r.body| <= |users[uid].places|
      ensures r.Ok? ==> r.body == Populate(users[uid].places, places)
      ensures r.Ok? && users[uid].places == [] ==> r.body == []
      ensures r.Ok? && Consistent(Snapshot()) ==>
        && |r.body| == |users[uid].places|
        && (forall k :: 0 <= k < |r.body| ==> r.body[k] == places[users[uid].places[k]])
        && (forall k :: 0 <= k < |r.body| ==> r.body[k].creator == uid)
    {
      if lookupFails then Err(StatusServerError)
      else if uid !in users then Err(StatusNotFound)
      else Ok(StatusOk, Populate(users[uid].places, places))
    }

    /** createPlace for the authenticated `userId`. The checks run in the
        source's order: validation, geocoding, user lookup, then the
        transaction that inserts the place and pushes its id, committed as
        one step or not at all. A `newId` already taken fails the insert. */
    method CreatePlace(userId: Id, inputValid: bool,
                       title: string, description: string, address: string,
                       geocoded: Geocoded, image: string, newId: Id,
                       lookupFails: bool, txFails: bool)
      returns (r: Response<Place>)
      modifies this
      ensures !inputValid ==> r == Err(422)
      ensures inputValid && geocoded.GeocodeFailed? ==> r == Err(geocoded.status)
      ensures inputValid && geocoded.Located? && lookupFails ==> r == Err(500)
      ensures inputValid && geocoded.Located? && !lookupFails && userId !in old(users) ==>
        r == Err(404)
      ensures (inputValid && geocoded.Located? && !lookupFails && userId in old(users) &&
               (txFails || newId in old(places))) ==> r == Err(500)
      ensures r.Ok? <==>
        inputValid && geocoded.Located? && !lookupFails && userId in old(users) &&
        !txFails && newId !in old(places)
      ensures r.Ok? ==>
        && r.status == 201
        && r.body == Place(title, description, address, geocoded.coords, image, userId)
        && Snapshot() == CommitCreate(old(Snapshot()), newId, r.body)
      ensures r.Ok? ==> newId in places && newId in users[userId].places
      ensures r.Err? ==> users == old(users) && places == old(places)
      ensures old(Valid()) ==> Valid()
    {
      if !inputValid {
        return Err(StatusInvalidInput);
      }
      if geocoded.GeocodeFailed? {
        return Err(geocoded.status);
      }
      var created := Place(title, description, address, geocoded.coords, image, userId);
      if lookupFails {
        return Err(StatusServerError);
      }
      if userId !in users {
        return Err(StatusNotFound);
      }
      var user := users[userId];
      if txFails || newId in places {
        return Err(StatusServerError);
      }
      ghost var before := Snapshot();
      places := places[newId := created];
      users := users[userId := user.(places := user.places + [newId])];
      assert users == WithPlaces(before.users, userId, user.places + [newId]);
      if AllValid(before.users) && EmailsUnique(before.users) && Consistent(before) {
        CreateKeepsConsistent(before, newId, created);
        WithPlacesKeepsSchema(before.users, userId, user.places + [newId]);
      }
      r := Ok(StatusCreated, created);
    }

    /** updatePlace for the authenticated `userId`. There is no existence
        check: a missing place fails the owner comparison and gives 401.
        `saveFails` stands for `place.save()` throwing. */
    method UpdatePlace(userId: Id, inputValid: bool, pid: Id,
                       title: string, description: string,
                       lookupFails: bool, saveFails: bool)
      returns (r: Response<Place>)
      modifies this
      ensures !inputValid ==> r == Err(422)
      ensures inputValid && lookupFails ==> r == Err(500)
      ensures (inputValid && !lookupFails &&
               (pid !in old(places) || old(places)[pid].creator != userId)) ==> r == Err(401)
      ensures (inputValid && !lookupFails && pid in old(places) &&
               old(places)[pid].creator == userId && saveFails) ==> r == Err(500)
      ensures r.Ok? <==>
        inputValid && !lookupFails && pid in old(places) &&
        old(places)[pid].creator == userId && !saveFails
      ensures r.Ok? ==>
        && r.status == 200
        && Snapshot() == ApplyEdit(old(Snapshot()), pid, title, description)
        && r.body == places[pid]
      ensures r.Err? ==> users == old(users) && places == old(places)
      ensures old(Valid()) ==> Valid()
    {
      if !inputValid {
        return Err(StatusInvalidInput);
      }
      if lookupFails {
        return Err(StatusServerError);
      }
      if pid !in places || places[pid].creator != userId {
        return Err(StatusUnauthorized);
      }
      if saveFails {
        return Err(StatusServerError);
      }
      ghost var before := Snapshot();
      var edited := places[pid].(title := title, description := description);
      places := places[pid := edited];
      if Consistent(before) {
        EditKeepsConsistent(before, pid, title, description);
      }
      r := Ok(StatusOk, edited);
    }

    /** deletePlace for the authenticated `userId`. Existence is checked
        before ownership. The creator is populated, so a creator that is not
        a stored user compares unequal and gives 401. The transaction removes
        the place and pulls its id, committed as one step or not at all. */
    method DeletePlace(userId: Id, pid: Id, lookupFails: bool, txFails: bool)
      returns (r: Response<()>)
      modifies this
      ensures lookupFails ==> r == Err(500)
      ensures !lookupFails && pid !in old(places) ==> r == Err(404)
      ensures (!lookupFails && pid in old(places) &&
               (old(places)[pid].creator !in old(users) || old(places)[pid].creator != userId))
              ==> r == Err(401)
      ensures (!lookupFails && pid in old(places) && old(places)[pid].creator in old(users) &&
               old(places)[pid].creator == userId && txFails) ==> r == Err(500)
      ensures r.Ok? <==>
        !lookupFails && pid in old(places) && old(places)[pid].creator in old(users) &&
        old(places)[pid].creator == userId && !txFails
      ensures r.Ok? ==>
        && r.status == 200
        && Snapshot() == CommitDelete(old(Snapshot()), pid)
      ensures r.Ok? ==> pid !in places && pid !in users[userId].places
      ensures r.Err? ==> users == old(users) && places == old(places)
      ensures old(Valid()) ==> Valid()
    {
      if lookupFails {
        return Err(StatusServerError);
      }
      if pid !in places {
        return Err(StatusNotFound);
      }
      var creator := places[pid].creator;
      if creator !in users || creator != userId {
        return Err(StatusUnauthorized);
      }
      if txFails {
        return Err(StatusServerError);
      }
      ghost var before := Snapshot();
      var owner := users[creator];
      places := places - {pid};
      users := users[creator := owner.(places := Without(owner.places, pid))];
      assert users == WithPlaces(before.users, creator, Without(owner.places, pid));
      if AllValid(before.users) && EmailsUnique(before.users) && Consistent(before) {
        DeleteKeepsConsistent(before, pid);
        WithPlacesKeepsSchema(before.users, creator, Without(owner.places, pid));
      }
      r := Ok(StatusOk, ());
    }
  }
}
