# MyPlaces back end: accounts, places and the auth gate, in Dafny

This project models the core of a small Express/Mongoose back end. Accounts own
places. The core keeps the account ↔ place link consistent, and an auth gate
stands in front of the handlers that change places.

- The persistence layer is two in-memory tables: `users` (id → name, email,
  hashed password, image, `places` list of ids) and `places` (id → title,
  description, image, address, location, creator). They live in the
  `Store.Database` class and the handlers update them in place.
- `Store.Consistent` is the global invariant. Every id an account lists is a
  stored place whose creator is that account. Every place's creator is a
  stored account that lists it. No account lists a place twice.
- Each mutating handler (create, update and delete a place; sign up) appears
  twice:
  - a pure function from the old tables to an `Outcome` (response, both new
    tables, image scheduled for unlinking). Its contract states the ordering
    of the early returns, the exact new state and the preserved invariant;
  - an imperative method over the `Database` that performs the steps
    (validation, lookups, the field edits, `push`/`pull`, one atomic
    commit). It is proved to produce exactly that outcome.
- The read-only handlers are a function per query, and `Login` is a method
  that changes nothing.
- The auth gate is a pure decision over the request method, the
  `Authorization` header, the signing key and a token-verify function. The
  decision is `Pass`, `Authenticated(userData)` or `Rejected(403)`. The
  header is split with a model of JavaScript's `split(" ")`, proved to be
  the inverse of joining with a space.
- Collaborators are function parameters; `None` or `Err` means the call
  threw. These are the geocoder, bcrypt's `hash`/`compare` and jwt's
  `sign`/`verify`. Database failures are boolean parameters
  (`lookupFails`, `commitFails`, `saveFails`). The id a new document
  receives is the parameter `newId`. If that id is already taken, the write
  fails with the handler's 500, because the insert would be refused.
- `Scenario.AliceAndBob` is a client that uses only the contracts. Alice
  signs up, logs in, passes the gate and creates a place, and then lists
  one place. Bob may not delete it (401). Alice deletes it and then lists
  none.

Four behaviours of the code may be unexpected; the model follows the code:
- Ownership failures are 401, not a "forbidden" class.
- A signup validation failure is 404.
- `getPlaceById` uses the same message for its 404 and its 500.
- A token-signing failure during signup leaves the new account stored.

## Model

| member | source | states |
|---|---|---|
| `Store.Pull` | controllers/places.js:167 | Mongoose `pull` removes every occurrence of the id and keeps every other id; it never creates duplicates |
| `Store.PullKeepsOrder` | controllers/places.js:167 | `pull` keeps the order of the remaining ids: it distributes over concatenation and leaves any other single id in place |
| `Store.WithPlace` | controllers/places.js:91 | `user.places.push` appends exactly the new id after the old list and keeps name, email, password and image |
| `Store.WithoutPlace` | controllers/places.js:167 | the account after the pull lists neither the id nor anything new, and keeps name, email, password and image |
| `Store.CreateKeepsConsistent` | controllers/places.js:87-93 | saving a new place whose creator is the account, and pushing its id onto that account, preserves bidirectional consistency |
| `Store.DeleteKeepsConsistent` | controllers/places.js:162-169 | removing a place and pulling its id from its creator preserves consistency, and afterwards no account lists the id |
| `Store.EditKeepsConsistent` | controllers/places.js:129-133 | rewriting a place with its creator unchanged preserves consistency |
| `Store.AddUserKeepsConsistent` | controllers/users.js:52-61 | adding a fresh account with an empty `places` list preserves consistency |
| `Auth.Split` | middleware/check-auth.js:8 | `split(" ")` yields at least one field, exactly one iff the text has no separator, and no field contains the separator |
| `Auth.JoinSplit` | middleware/check-auth.js:8 | joining the fields of a split with the separator gives back the original header |
| `Auth.SplitJoin` | middleware/check-auth.js:8 | splitting a join of separator-free fields gives back those fields |
| `Auth.SplitWithoutSeparator` | middleware/check-auth.js:8 | text without a separator splits into itself alone |
| `Auth.SplitAfterField` | middleware/check-auth.js:8 | a separator-free field followed by the separator splits off as the first field |
| `Auth.TokenOf` | middleware/check-auth.js:8 | element `[1]` of the split exists iff the header contains a space, and it contains no space |
| `Auth.BearerToken` | middleware/check-auth.js:8 | `"<scheme> <token>"` with space-free parts yields exactly `token` |
| `Auth.DoubledSpaceGivesEmptyToken` | middleware/check-auth.js:8-10 | `"Bearer  x"` yields the empty token |
| `Auth.CheckAuth` | middleware/check-auth.js:4-19 | OPTIONS passes, and is the only case that passes without `userData`; a missing header, a missing or empty token and a failed verify all give the identical 403 "Authentication failed!"; otherwise `userData.userId` is the verified payload's `userId` |
| `Auth.WellFormedHeaderAuthenticates` | middleware/check-auth.js:8-16 | a non-OPTIONS request with `"<scheme> <token>"` whose token verifies is authenticated as the token's user |
| `Auth.DoubledSpaceRejected` | middleware/check-auth.js:8-18 | `"Bearer  x"` is rejected with the 403 whatever the verifier would say |
| `Places.GetPlaceById` | controllers/places.js:9-28 | 500 when the lookup throws, 404 when the id is absent, otherwise 200 with the stored place |
| `Places.GetPlacesByUserId` | controllers/places.js:30-50 | 500 when the lookup throws, otherwise always 200 (never 404) with exactly the places whose creator is `uid` |
| `Places.PlacesByUserMatchOwnedList` | controllers/places.js:35-49 | in a consistent store the places listed for an account are exactly the ids in its `places` array, as many as it has entries |
| `Places.PlacesOfUnknownUserAreEmpty` | controllers/places.js:35-49 | in a consistent store an id with no account lists nothing, with status 200 |
| `Places.CreatePlaceOutcome` | controllers/places.js:52-99 | outcomes in order: invalid input 422, geocoder error propagated unchanged, lookup failure 500, missing user 404, failed transaction 500, each with both tables unchanged; a request passing every check gets the 201, and only then does the store change; on 201 the new place (creator = `userId`) is stored and its id is the last entry of the creator's `places`; consistency is preserved |
| `Places.CreatePlace` | controllers/places.js:52-99 | the imperative handler (validate, geocode, look up, push, one commit) produces exactly `CreatePlaceOutcome` with the route's validation rules (routes/places.js:17-25, `Places.ValidNewPlace`: non-empty title and address, description of at least 5) |
| `Places.CreatePlaceAsWritten` | controllers/places.js:53-57 | as written, an invalid request attempts the 422 and then the response a valid one would get: the geocoder's own error, the lookup 500, the missing-user 404, the transaction 500, or the 201; whenever geocoding, the lookup and the commit succeed, the place is stored and pushed onto its creator whatever the validator said, otherwise both tables are unchanged; consistency is preserved |
| `Places.InvalidPlaceStoredAsWritten` | controllers/places.js:53-57 | as written, a place titled "Cafe" whose description "abc" fails the length rule is stored and linked to its creator after the 422, while the corrected outcome stores nothing |
| `Places.CreatedPlaceIsFound` | controllers/places.js:14-27 | after a successful create the new place is found by id with its title and is listed for its creator |
| `Places.UpdatePlaceOutcome` | controllers/places.js:101-139 | invalid input 422, lookup failure 500, missing place 404 before any ownership check, other creator 401, failed save 500; on 200 only title and description of that place change; address, location, image and creator of all places, other places and all accounts are untouched; consistency is preserved |
| `Places.UpdatePlace` | controllers/places.js:101-139 | the imperative handler produces exactly `UpdatePlaceOutcome` with the route's validation rules (routes/places.js:31-36, `Places.ValidPlaceEdit`: non-empty title, description of at least 5) |
| `Places.UpdatedPlaceReadsBack` | controllers/places.js:14-27 | after a successful update, reading the place back gives the new title and description, and it is still listed for its creator |
| `Places.DeletePlaceOutcome` | controllers/places.js:141-179 | lookup failure 500, missing place 404, missing creator account no response, other owner 401, failed transaction 500, each unchanged; on 200 the place is gone, its id is pulled from its creator, every other place and account is unchanged, and the image path read before the transaction is scheduled for unlinking; consistency is preserved and no account lists the id |
| `Places.DeletePlace` | controllers/places.js:141-179 | the imperative handler (look up with populated creator, check owner, pull, one commit, unlink after it) produces exactly `DeletePlaceOutcome` |
| `Places.DeletedPlaceIsGone` | controllers/places.js:14-27 | after a successful delete the place is 404 by id and listed for nobody |
| `Users.GetAllUsers` | controllers/users.js:7-18 | 500 when the lookup throws, otherwise 200 with every account, each carrying name, email, image and places and no password (the `"-password"` projection of controllers/users.js:11, `Store.Public`) |
| `Users.SignupOutcome` | controllers/users.js:20-84 | outcomes in order: invalid input 404, lookup failure 500, taken email 422 (`Users.EmailTaken`, the `findOne({ email })` of controllers/users.js:32-39), hash failure 500, save failure 500, each with the store unchanged; otherwise exactly one account is added with the given name and email, password `hash(password, 12)` and empty `places`; a signing failure then gives 500 with the account kept, success gives 201 with `{userId, email, token}` where the token signs `{userId, email}` for "1h"; email uniqueness and consistency are preserved |
| `Users.Signup` | controllers/users.js:20-84 | the imperative handler produces exactly `SignupOutcome` |
| `Users.Login` | controllers/users.js:86-143 | changes nothing; lookup failure 500; an unknown email and a wrong password give the same 403 with the same message; a compare failure or a signing failure gives 500; success means `compare(password, stored hash)` held and returns `{userId, email, token}` of that account, the token signing `{userId, email}` for "1h" |

## Left out

- Concurrency and isolation between requests: each transaction block is one atomic update of both tables.
- Mongoose sessions, `populate`, validation internals and serialisation (`toObject`, `res.json`) are not modelled. A populated creator is a lookup in the account table.
- bcrypt and jwt are not modelled beyond being functions that may fail. The model claims nothing about salts, signatures, a sign/verify round trip or expiry. The cryptography and the clock are not in this code.
- The geocoder in `util/location` is not part of this model. It is a function of the address that may fail with an `HttpError`.
- `fs.unlink` is recorded only as the image path scheduled after the commit. Its outcome is not modelled and never reaches the response.
- `req.file.path` is an opaque string input. A request without a file makes `req.file.path` throw; that case is not modelled.
- Unicode: validation lengths count Dafny characters, not what the validator counts.
- Route wiring in `routes/places.js` is not modelled. Its validation rules are kept. `routes/users.js` is not part of this model, so signup's validation result is a boolean parameter.
- `findOne({ email })` is an arbitrary account with that email. `Users.Login` pins the outcome to a specific account only when emails are unique, which signup preserves.
- `Users.GetAllUsers`: the order of the returned list is not modelled; the result is a map keyed by id. The same holds for `Places.GetPlacesByUserId`.
- What Express does after a handler's second response (`Places.CreatePlaceAsWritten`) is not modelled. The model records both attempted responses and the store's final state.

## Findings

| source | as written | input that shows it | evidently intended | confidence | as-written member | corrected member |
|---|---|---|---|---|---|---|
| controllers/places.js:53-55 | a validation failure calls `next` with the 422 but does not `return`, so geocoding, the user lookup and the transaction still run | a create request titled "Cafe" with the description "abc" (shorter than 5), a resolvable address and an existing user: the 422 is sent and the place is still stored and linked to the user | return after the 422, as `updatePlace` does at controllers/places.js:103-106 | high; not executed | `Places.CreatePlaceAsWritten`, `Places.InvalidPlaceStoredAsWritten` | `Places.CreatePlaceOutcome`, `Places.CreatePlace` |
