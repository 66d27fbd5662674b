# Place ownership and the bearer-token gate of a location-sharing REST backend

This project models three files of the backend: the place handlers, the
authentication middleware and the user schema.

- **Place handlers** (`controllers/places-controllers.js`). Users create, read,
  update and delete "places" (points of interest). Each place has exactly one
  `creator`. Each user keeps an ordered `places` list of the ids it created.
- **Authentication middleware** (`middleware/check-auth.js`). It guards the
  three write handlers with a bearer token.
- **User schema** (`models/user.js`).

The store is a `Store` object holding two maps, `users` and `places`
(`places_controller.dfy`). The two read handlers are functions of it. The
three write handlers are methods that change it.

Both directions of the link between the collections make up
`PlaceStore.Consistent`:
- every id a user lists names a stored place whose `creator` is that user;
- every stored place's creator is a stored user that lists it;
- no list holds an id twice.

The two transactions each write both collections. Each is one atomic step,
`CommitCreate` or `CommitDelete`. A failure flag makes the step leave the store
unchanged and answer 500.

The write methods do not assume the invariant. They promise to keep it if it
held before, so their behaviour on a store that has drifted is modelled too.

The middleware (`auth.dfy`) is a pure decision. Its inputs are the request
method, the optional `Authorization` header and a verifier. JavaScript's
`split(' ')` is modelled as written and proved to agree with a direct
description of the token: the text after the first space, up to the next space.

Two behaviours of the code look accidental; the model keeps them as the code has them:
- `updatePlace` on a missing place answers 401, not 404. It has no existence
  check, and `place?.creator` is undefined.
- `getPlacesByUserId` answers 200 with an empty list for a user with no places.
  Its guard tests `.length` on a document, which is always undefined, so only a
  missing user answers 404.

Inputs from outside the core are parameters:
- the express-validator verdict (`inputValid`);
- the geocoder's answer (`Geocoded`: coordinates, or the status of the error it
  threw, passed on unchanged);
- each store call that may throw (`lookupFails`, `txFails`, `saveFails`); a
  malformed id, which makes Mongoose throw a cast error, is one such failure;
- the id Mongoose assigns a new place (`newId`); an id already in use fails the
  insert and so the transaction;
- `jwt.verify` with the server secret (`verify: string -> Option<Id>`).

## Model

| member | source | states |
|---|---|---|
| `Users.ValidUser` | models/user.js:7-10 | name, email, password and image all required (non-empty), password at least 6 UTF-16 code units |
| `Users.EmailsUnique` | models/user.js:8 | no two stored users share an email, the store-wide form of the unique index |
| `Users.SchemaErrors` | models/user.js:7-10 | the paths reported invalid: name, email and image when empty, password when shorter than 6 UTF-16 code units (as JavaScript counts `length`); a user is valid exactly when none is reported |
| `Users.WithPlaces` | controllers/places-controllers.js:120-226 | the user saved after the `push` (lines 120-121) and after the `pull` (lines 225-226) differs from the stored one in its `places` list only; every other user is unchanged |
| `Users.WithPlacesKeepsSchema` | models/user.js:6-20 | rewriting one user's `places` (the only path the place handlers write) keeps every user valid and keeps emails unique across the store |
| `Auth.Split` | middleware/check-auth.js:9 | `split(' ')` yields at least one piece, no piece contains a space, and there is exactly one piece iff the header has no space |
| `Auth.JoinSplit` | middleware/check-auth.js:9 | joining the pieces with single spaces gives the header back, so the split loses nothing |
| `Auth.SecondSegment` | middleware/check-auth.js:9 | `split(' ')[1]`: present exactly when the header has a space, and never containing a space |
| `Auth.SecondSegmentIsBearerToken` | middleware/check-auth.js:9 | piece [1] of the split is exactly the text between the first space and the next space or the end, and is missing when there is no space |
| `Auth.CheckAuth` | middleware/check-auth.js:4-20 | OPTIONS passes through iff the method is OPTIONS; the request is let through with a user id iff the header is present, its token is non-empty and verifies, and then the id is the verified token's; every other outcome is 403 with the one message "Authentication Failed!" |
| `Auth.SchemeNotChecked` | middleware/check-auth.js:9-15 | any scheme word, followed by one space and a token the verifier accepts, is let through with that token's user id |
| `Auth.EmptyTokenRejected` | middleware/check-auth.js:9-12 | a scheme word alone, followed by one space, or followed by two spaces and anything, is rejected whatever the verifier says |
| `Auth.MalformedBearerHeaders` | middleware/check-auth.js:9-18 | a missing header, "Bearer", "Bearer " and "Bearer  x" are all rejected with 403 |
| `PlaceStore.Consistent` | controllers/places-controllers.js:115-122 | every listed id names a stored place created by the lister, every stored place's creator is a stored user listing it, and no list repeats an id |
| `PlaceStore.WithoutConcat` | controllers/places-controllers.js:225 | `pull` from a concatenation is the concatenation of the pulls, so the remaining ids keep their order and repeats |
| `PlaceStore.Without` | controllers/places-controllers.js:225 | `pull` keeps exactly the ids other than the pulled one, keeps a repeat-free list repeat-free, and leaves a list without that id unchanged |
| `PlaceStore.WithoutAppended` | controllers/places-controllers.js:120 | pulling an id just pushed onto a list that did not hold it gives the list back |
| `PlaceStore.Populate` | controllers/places-controllers.js:44 | `populate('places')` returns only stored places named in the list; when every listed id is stored it returns them all, in list order |
| `PlaceStore.PopulateConcat` | controllers/places-controllers.js:44 | `populate` of a concatenation is the concatenation of the populated pieces, so a missing document drops only its own id and the others keep list order |
| `PlaceStore.CommitCreate` | controllers/places-controllers.js:115-122 | the create transaction adds the place under the new id and appends the id to its creator's list; no other user or place changes |
| `PlaceStore.CommitDelete` | controllers/places-controllers.js:221-227 | the delete transaction removes the place and its id from its creator's list; no other user or place changes |
| `PlaceStore.ApplyEdit` | controllers/places-controllers.js:170-174 | the update sets `title` and `description` of that one place; all its other fields, all users and all other places stay as they were |
| `PlaceStore.CreateKeepsConsistent` | controllers/places-controllers.js:115-122 | a committed create keeps the two-way creator/places invariant |
| `PlaceStore.DeleteKeepsConsistent` | controllers/places-controllers.js:221-227 | a committed delete keeps the two-way creator/places invariant, and the deleted place's creator is a stored user |
| `PlaceStore.EditKeepsConsistent` | controllers/places-controllers.js:170-174 | an update keeps the two-way creator/places invariant |
| `PlaceStore.DeleteUndoesCreate` | controllers/places-controllers.js:221-227 | on a consistent store, deleting a place right after creating it restores both collections exactly |
| `PlacesController.Store.GetPlaceById` | controllers/places-controllers.js:9-35 | a lookup error gives 500, an absent id 404, otherwise 200 with the stored place unchanged; on a consistent store that place's creator lists it |
| `PlacesController.Store.GetPlacesByUserId` | controllers/places-controllers.js:37-70 | a lookup error gives 500; 404 exactly when the user is absent; a user with no places gets 200 and []; on any store the body is the user's list populated, dropping ids with no document; on a consistent store the result is the user's places, in list order, each created by that user |
| `PlacesController.Store.CreatePlace` | controllers/places-controllers.js:72-135 | checks in order: invalid input 422, geocoder error passed on, lookup error 500, missing user 404, transaction failure 500, each leaving the store unchanged; on success 201 with a place built from the inputs and the authenticated user as creator, and the store is the committed create; the store invariant is kept |
| `PlacesController.Store.UpdatePlace` | controllers/places-controllers.js:137-187 | invalid input 422, lookup error 500, missing place or other owner 401, save failure 500, each leaving the store unchanged; on success 200 and only that place's title and description change; the store invariant is kept |
| `PlacesController.Store.DeletePlace` | controllers/places-controllers.js:189-241 | lookup error 500, absent place 404 before ownership, creator not stored or not the caller 401, transaction failure 500, each leaving the store unchanged; on success 200, the place is gone and its id is no longer in the caller's list; the store invariant is kept |

## Left out

- Express wiring, CORS, static files, the connection and the terminal error
  handler in `app.js`. They are plumbing and I/O.
- The geocoder of `util/location.js`. It is an HTTP call, replaced by the
  `Geocoded` parameter. Its throw on an empty result array is not modelled.
- The signature and expiry checks of `jwt.verify` and the secret from the
  environment. They are the `verify` parameter.
- `Auth.CheckAuth`: a verified token whose payload has no `userId` would let
  the request through with `userId` undefined. `verify` answers with an id or
  with nothing, so this case is not represented. The server signs its own
  tokens with a `userId`.
- `PlacesController.Store.CreatePlace`: a request without an uploaded file
  makes `req.file.path` throw outside any `try`, and no response is sent. The
  model takes the image path as a string, so it assumes an upload exists.
- Ids are the canonical lower-case hexadecimal strings Mongoose prints for
  an ObjectId, and lookups compare them exactly. `findById` casts its argument
  to an ObjectId, so another spelling of the same id (upper-case hex digits)
  finds the same document in the code. That is not modelled: the model answers
  such a request as if the id were absent.
- The express-validator rules. The routes file is not part of this model, so the
  rules are the `inputValid` flag.
- `models/place.js` is not part of this model. Its schema validators on
  `save` are covered only by the transaction and save failure flags.
- Deleting the uploaded image with `fs.unlink` after a delete. It is file I/O,
  and its outcome never reaches the response.
- Console logging and the `toObject({ getters: true })` projection of responses.
- Mongoose sessions, isolation and concurrent requests. Each transaction is one
  atomic step that either commits or fails.
- How the unique index and `mongoose-unique-validator` enforce uniqueness.
  Email uniqueness is an invariant of the store (`Users.EmailsUnique`) instead.
- User registration and deletion. They are not part of this core, and the place
  handlers only ever write a user's `places`.
- The response message texts of the handlers. Only statuses and payloads are
  modelled, except the gate's single failure message.
