/** The `User` document of models/user.js: a record with four required
    string paths, a unique email, and an ordered list of Place ids that links
    a user to the places it created. */
module Users {

  /** Document ids. The controllers compare ids through their string form
      (`toString()`, `.id`), so an id is modelled as that string. */
  type Id = string

  datatype User = User(
    name: string,
    email: string,
    password: string,
    image: string,
    places: seq<Id>)

  /** Shortest password the schema accepts. */
  const MinPasswordLength: nat := 6

  /** A string's `length` in JavaScript: UTF-16 code units, where a
      character outside the Basic Multilingual Plane takes two. */
  function Utf16Length(s: string): (n: nat)
    ensures |s| <= n <= 2 * |s|
    ensures (forall k :: 0 <= k < |s| ==> (s[k] as int) < 0x1_0000) ==> n == |s|
  {
    if s == [] then 0
    else (if (s[0] as int) < 0x1_0000 then 1 else 2) + Utf16Length(s[1..])
  }

  /** A string path marked `required` rejects a missing value and the empty
      string. */
  predicate Present(s: string) {
    s != ""
  }

  /** The schema validators: all four string paths required, the password at
      least six UTF-16 code units long. Every entry of `places` is required too, which
      a non-null `Id` always satisfies. */
  predicate ValidUser(u: User) {
    && Present(u.name)
    && Present(u.email)
    && Present(u.password) && Utf16Length(u.password) >= MinPasswordLength
    && Present(u.image)
  }

  /** The paths whose own validators (`required`, `minlength`) reject `u`,
      looking at this one document only: it passes them exactly when no path
      is reported. The check against other stored users that the unique
      validator adds on `email` is the store-wide `EmailsUnique`. */
  function SchemaErrors(u: User): (r: set<string>)
    ensures r <= {"name", "email", "password", "image"}
    ensures r == {} <==> ValidUser(u)
    ensures "password" in r <==> Utf16Length(u.password) < MinPasswordLength
    ensures "name" in r <==> u.name == ""
    ensures "email" in r <==> u.email == ""
    ensures "image" in r <==> u.image == ""
  {
    (if Present(u.name) then {} else {"name"}) +
    (if Present(u.email) then {} else {"email"}) +
    (if Present(u.password) && Utf16Length(u.password) >= MinPasswordLength then {} else {"password"}) +
    (if Present(u.image) then {} else {"image"})
  }

  /** `minlength` counts code units, so three emoji make a long enough
      password. */
  lemma AstralPasswordAccepted()
    ensures "password" !in SchemaErrors(User("n", "e", "\U{1F600}\U{1F600}\U{1F600}", "i", []))
  {
    var pw := "\U{1F600}\U{1F600}\U{1F600}";
    assert pw[1..][1..][1..] == [];
    assert Utf16Length(pw) == 6;
  }

  /** The unique index on `email`: no two stored users share an email. */
  ghost predicate EmailsUnique(users: map<Id, User>) {
    forall a, b :: a in users && b in users && users[a].email == users[b].email ==> a == b
  }

  /** Every stored user passes the schema validators. */
  ghost predicate AllValid(users: map<Id, User>) {
    forall id :: id in users ==> ValidUser(users[id])
  }

  /** The place controllers only ever rewrite `places` of one stored user
      (`push` in createPlace, `pull` in deletePlace). */
  function WithPlaces(users: map<Id, User>, id: Id, ps: seq<Id>): (r: map<Id, User>)
    requires id in users
    ensures r.Keys == users.Keys
    ensures r[id].places == ps
    ensures forall k :: k in users ==> r[k] == (if k == id then users[k].(places := ps) else users[k])
  {
    users[id := users[id].(places := ps)]
  }

  /** Rewriting the place list of one user keeps every user valid and keeps
      emails unique: no other path is touched. */
  lemma WithPlacesKeepsSchema(users: map<Id, User>, id: Id, ps: seq<Id>)
    requires id in users
    requires AllValid(users) && EmailsUnique(users)
    ensures AllValid(WithPlaces(users, id, ps)) && EmailsUnique(WithPlaces(users, id, ps))
  {
    var r := WithPlaces(users, id, ps);
    forall a, b | a in r && b in r && r[a].email == r[b].email
      ensures a == b
    {
      assert r[a].email == users[a].email && r[b].email == users[b].email;
    }
  }
}
