/** The two collections the place controllers work on, as values: users by
    id and places by id, the two-way link between a place's `creator` and its
    creator's `places` list, and the two transactions that write both
    collections at once. */
module PlaceStore {
  import opened Users

  /** What the geocoder returns; latitude and longitude are kept as the
      opaque values the geocoding service sends. */
  datatype Coords = Coords(lat: string, lng: string)

  datatype Place = Place(
    title: string,
    description: string,
    address: string,
    location: Coords,
    image: string,
    creator: Id)

  datatype Db = Db(users: map<Id, User>, places: map<Id, Place>)

  predicate NoRepeats(s: seq<Id>) {
    forall i, j :: 0 <= i < j < |s| ==> s[i] != s[j]
  }

  /** Every id in a user's `places` names a stored place that this user
      created. */
  ghost predicate ListedPlacesOwned(db: Db) {
    forall uid, k :: uid in db.users && 0 <= k < |db.users[uid].places| ==>
      db.users[uid].places[k] in db.places &&
      db.places[db.users[uid].places[k]].creator == uid
  }

  /** Every stored place's creator is a stored user that lists it. */
  ghost predicate CreatorsList(db: Db) {
    forall pid :: pid in db.places ==>
      db.places[pid].creator in db.users &&
      pid in db.users[db.places[pid].creator].places
  }

  /** No user lists the same place twice. */
  ghost predicate ListsDistinct(db: Db) {
    forall uid :: uid in db.users ==> NoRepeats(db.users[uid].places)
  }

  /** The two collections agree: the invariant createPlace and deletePlace
      must keep. */
  ghost predicate Consistent(db: Db) {
    ListedPlacesOwned(db) && CreatorsList(db) && ListsDistinct(db)
  }

  /** Mongoose's `places.pull(id)`: every occurrence of `x` removed, the
      order of the rest kept. */
  function Without(s: seq<Id>, x: Id): (r: seq<Id>)
    ensures forall y :: y in r <==> y in s && y != x
    ensures NoRepeats(s) ==> NoRepeats(r)
    ensures x !in s ==> r == s
    ensures |r| <= |s|
  {
    if s == [] then []
    else if s[0] == x then Without(s[1..], x)
    else
      var rest := Without(s[1..], x);
      assert NoRepeats(s) ==> s[0] !in rest;
      [s[0]] + rest
  }

  /** `pull` works piece by piece: pulling from a concatenation is
      concatenating the pulled pieces, so the ids that stay keep their order
      and their repeats. */
  lemma {:induction false} WithoutConcat(a: seq<Id>, b: seq<Id>, x: Id)
    ensures Without(a + b, x) == Without(a, x) + Without(b, x)
  {
    if a != [] {
      assert (a + b)[1..] == a[1..] + b;
      WithoutConcat(a[1..], b, x);
    } else {
      assert a + b == b;
    }
  }

  /** `pull` on one id: gone if it is the pulled one, kept otherwise. */
  lemma WithoutSingle(y: Id, x: Id)
    ensures Without([y], x) == if y == x then [] else [y]
  {
    assert [y][1..] == [];
  }

  /** Pulling an id that was just pushed onto a list that did not hold it
      gives the list back. */
  lemma {:induction false} WithoutAppended(s: seq<Id>, x: Id)
    requires x !in s
    ensures Without(s + [x], x) == s
  {
    if s == [] {
      assert Without([x], x) == Without([], x);
    } else {
      assert (s + [x])[1..] == s[1..] + [x];
      WithoutAppended(s[1..], x);
    }
  }

  /** `populate('places')` on a user: the documents of the listed ids in list
      order; an id with no document is dropped. */
  function Populate(ids: seq<Id>, places: map<Id, Place>): (r: seq<Place>)
    ensures |r| <= |ids|
    ensures forall p :: p in r ==> exists id :: id in ids && id in places && places[id] == p
    ensures (forall id :: id in ids ==> id in places) ==>
      |r| == |ids| && forall k :: 0 <= k < |ids| ==> r[k] == places[ids[k]]
  {
    if ids == [] then []
    else if ids[0] in places then [places[ids[0]]] + Populate(ids[1..], places)
    else Populate(ids[1..], places)
  }

  /** `populate` works piece by piece: populating a concatenation is
      concatenating the populated pieces, so a missing document drops only
      its own id and the rest keep list order. */
  lemma {:induction false} PopulateConcat(a: seq<Id>, b: seq<Id>, places: map<Id, Place>)
    ensures Populate(a + b, places) == Populate(a, places) + Populate(b, places)
  {
    if a != [] {
      assert (a + b)[1..] == a[1..] + b;
      PopulateConcat(a[1..], b, places);
    } else {
      assert a + b == b;
    }
  }

  /** `populate` on one id: its document if stored, nothing otherwise. */
  lemma PopulateSingle(id: Id, places: map<Id, Place>)
    ensures Populate([id], places) == if id in places then [places[id]] else []
  {
    assert [id][1..] == [];
  }

  /** The create transaction committed: the place inserted and its id pushed
      onto its creator's list. Nothing else changes. */
  function CommitCreate(db: Db, pid: Id, p: Place): (r: Db)
    requires p.creator in db.users
    ensures r.places.Keys == db.places.Keys + {pid} && r.places[pid] == p
    ensures r.users.Keys == db.users.Keys
    ensures r.users[p.creator] == db.users[p.creator].(places := db.users[p.creator].places + [pid])
    ensures forall q :: q in db.places && q != pid ==> r.places[q] == db.places[q]
    ensures forall u :: u in db.users && u != p.creator ==> r.users[u] == db.users[u]
  {
    var owner := db.users[p.creator];
    Db(WithPlaces(db.users, p.creator, owner.places + [pid]), db.places[pid := p])
  }

  /** The delete transaction committed: the place removed and its id pulled
      from its creator's list. Nothing else changes. */
  function CommitDelete(db: Db, pid: Id): (r: Db)
    requires pid in db.places && db.places[pid].creator in db.users
    ensures pid !in r.places && r.places.Keys == db.places.Keys - {pid}
    ensures r.users.Keys == db.users.Keys
    ensures pid !in r.users[db.places[pid].creator].places
    ensures r.users[db.places[pid].creator] ==
            db.users[db.places[pid].creator].(places := Without(db.users[db.places[pid].creator].places, pid))
    ensures forall q :: q in r.places ==> r.places[q] == db.places[q]
    ensures forall u :: u in db.users && u != db.places[pid].creator ==> r.users[u] == db.users[u]
  {
    var c := db.places[pid].creator;
    Db(WithPlaces(db.users, c, Without(db.users[c].places, pid)), db.places - {pid})
  }

  /** The update of updatePlace: the title and description of one place
      replaced. */
  function ApplyEdit(db: Db, pid: Id, title: string, description: string): (r: Db)
    requires pid in db.places
    ensures r.users == db.users && r.places.Keys == db.places.Keys
    ensures r.places[pid].title == title && r.places[pid].description == description
    ensures r.places[pid].(title := db.places[pid].title, description := db.places[pid].description)
            == db.places[pid]
    ensures forall q :: q in db.places && q != pid ==> r.places[q] == db.places[q]
  {
    Db(db.users, db.places[pid := db.places[pid].(title := title, description := description)])
  }

  /** A committed create keeps the two collections in agreement, provided
      the new id is not already a stored place. */
  lemma CreateKeepsConsistent(db: Db, pid: Id, p: Place)
    requires Consistent(db)
    requires p.creator in db.users && pid !in db.places
    ensures Consistent(CommitCreate(db, pid, p))
  {
    var r := CommitCreate(db, pid, p);
    var c := p.creator;
    forall uid, k | uid in r.users && 0 <= k < |r.users[uid].places|
      ensures r.users[uid].places[k] in r.places && r.places[r.users[uid].places[k]].creator == uid
    {
      if uid == c && k == |db.users[c].places| {
        assert r.users[uid].places[k] == pid;
      } else {
        assert r.users[uid].places[k] == db.users[uid].places[k];
      }
    }
    forall q | q in r.places
      ensures r.places[q].creator in r.users && q in r.users[r.places[q].creator].places
    {
      if q != pid {
        var u := db.places[q].creator;
        if u == c {
          var k :| 0 <= k < |db.users[c].places| && db.users[c].places[k] == q;
          assert r.users[c].places[k] == q;
        }
      } else {
        assert r.users[c].places[|db.users[c].places|] == pid;
      }
    }
    forall uid | uid in r.users ensures NoRepeats(r.users[uid].places) {
      if uid == c {
        var s := db.users[c].places;
        forall i, j | 0 <= i < j < |s + [pid]| ensures (s + [pid])[i] != (s + [pid])[j] {
          if j == |s| {
            assert s[i] in db.places;
          }
        }
      }
    }
  }

  /** A committed delete keeps the two collections in agreement. */
  lemma DeleteKeepsConsistent(db: Db, pid: Id)
    requires Consistent(db)
    requires pid in db.places
    ensures db.places[pid].creator in db.users
    ensures Consistent(CommitDelete(db, pid))
  {
    var r := CommitDelete(db, pid);
    var c := db.places[pid].creator;
    forall uid, k | uid in r.users && 0 <= k < |r.users[uid].places|
      ensures r.users[uid].places[k] in r.places && r.places[r.users[uid].places[k]].creator == uid
    {
      var q := r.users[uid].places[k];
      if uid == c {
        assert q in Without(db.users[c].places, pid);
        var j :| 0 <= j < |db.users[c].places| && db.users[c].places[j] == q;
      } else {
        assert q == db.users[uid].places[k];
        assert db.places[q].creator == uid;
      }
    }
  }

  /** An edit keeps the two collections in agreement: it never touches a
      creator or a place list. */
  lemma EditKeepsConsistent(db: Db, pid: Id, title: string, description: string)
    requires Consistent(db) && pid in db.places
    ensures Consistent(ApplyEdit(db, pid, title, description))
  {
    var r := ApplyEdit(db, pid, title, description);
    assert forall q :: q in r.places ==> r.places[q].creator == db.places[q].creator;
  }

  /** Deleting a place right after creating it restores the store exactly:
      the two transactions are inverses on a consistent store. */
  lemma DeleteUndoesCreate(db: Db, pid: Id, p: Place)
    requires Consistent(db)
    requires p.creator in db.users && pid !in db.places
    ensures CommitDelete(CommitCreate(db, pid, p), pid) == db
  {
    var c := p.creator;
    var s := db.users[c].places;
    assert pid !in s;
    WithoutAppended(s, pid);
    var mid := CommitCreate(db, pid, p);
    var r := CommitDelete(mid, pid);
    assert r.places == db.places by {
      assert r.places.Keys == db.places.Keys;
      forall q | q in r.places ensures r.places[q] == db.places[q] {
        assert mid.places[q] == db.places[q];
      }
    }
    assert r.users == db.users by {
      assert r.users.Keys == db.users.Keys;
      forall u | u in r.users ensures r.users[u] == db.users[u] {
        if u == c {
          assert r.users[c].places == s;
        } else {
          assert mid.users[u] == db.users[u];
        }
      }
    }
  }
}
