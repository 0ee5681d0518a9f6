# Passport authentication core, modelled in Dafny

This project models the authentication and authorisation logic of a small Express/Passport
application. It covers five parts:

- the User schema, with optional string fields and a `role` enum (GUEST or ADMIN) that defaults to GUEST;
- the local strategy, which finds a user by username and compares the password with its bcrypt hash;
- the Slack, Google and Outlook verify callbacks, which find or create a user by provider ID (Slack also overwrites the name of a user it finds);
- the session principal: `serializeUser` stores only `_id` and `deserializeUser` looks the user up again;
- the signup, login and logout handlers, the three gates (`ensureAuthenticated`, `checkRoles`, `hasRoom`) and the room routes they guard.

The User collection is a class `UserModel.UserCollection` holding a `seq<User>` and an id counter.
Its reads (`FindOne`) and writes (`Create`, `SetName`) are methods. Each is specified by a function
on the table: `Lookup`, `Insert`, `Rename`. The verify callbacks and the signup handler are methods
on that collection. Each is proved equal to a specification function (`Resolve`, `SignupOutcome`)
that returns the reply together with the new table. The lemmas about those functions state what
the application promises. The session is a class `Passport.Session` whose only field is the
principal. The gates are pure functions.

Each database call takes a `fault` flag that says whether the call reports an error, so the
model covers both the error paths and the normal ones. bcrypt is a pair of function values
(`Crypto.Bcrypt`). The random part of a salt is a parameter (`nonce`).

Modules: `Wrappers` (Option, Result), `Crypto` (bcrypt), `UserModel` (models/User.js and the
collection), `Passport` (app.js), `AuthRoutes` (routes/authRoutes.js).

Points where the model follows the code rather than what a reader might expect:
- The local strategy has two failure messages, "Incorrect username" and "Incorrect password", so a failed login reveals whether the username exists. One generic message would not; `LocalVerify` keeps the two the code uses.
- A logged-in request for a missing room makes `hasRoom` throw instead of refusing it. `HasRoomAsWritten` models that and `HasRoom` is the corrected gate (see Findings).
- Only Slack refreshes the display name; Google and Outlook return the stored document unchanged.
- Find-or-create is not atomic. The model runs one request at a time.

## Model

| member | source | states |
|---|---|---|
| `UserModel.ParseRole` | models/User.js:12-16 | the enum validator accepts a role string exactly when it names GUEST or ADMIN, and gives back that role |
| `UserModel.RoleNameRoundTrip` | models/User.js:14 | the stored name of each role validates back to the same role |
| `UserModel.Instantiate` | models/User.js:4-21 | a draft becomes a document iff its role is absent or one of the enum values; the document has exactly the draft's fields and role GUEST when none is given |
| `UserModel.DefaultRoleIsGuest` | models/User.js:15 | a draft with no role always validates, with role GUEST |
| `UserModel.FindFirst` | app.js:72 | a lookup finds the first stored document the filter matches, with no earlier match; "none" means no document matches |
| `UserModel.Lookup` | app.js:72-78 | findOne/findById give an error exactly when the database fails; otherwise null iff nothing matches, or a stored matching document |
| `UserModel.FindFirstAppend` | routes/authRoutes.js:28-43 | after a document is appended, a lookup finds the earlier match if there is one, and otherwise the new document if it matches |
| `UserModel.FindFirstAgrees` | app.js:103 | two tables whose documents agree on the filter give the same lookup answer |
| `UserModel.FindFirstIsOnly` | models/User.js:7-11 | under distinct `_id`s, or keys kept unique, a lookup finds the one document carrying the key |
| `UserModel.Insert` | app.js:140-144 | create validates and stores exactly one document with a fresh `_id`, or stores nothing on a validation or write error; `_id`s stay distinct |
| `UserModel.Rename` | app.js:103 | findByIdAndUpdate sets the name of the document with that `_id` and changes nothing else |
| `UserModel.UserCollection.FindOne` | app.js:57 | reading the collection answers as `Lookup` and changes nothing |
| `UserModel.UserCollection.Create` | app.js:110 | the collection after a create is what `Insert` gives; the collection stays well formed |
| `UserModel.UserCollection.SetName` | app.js:103-108 | the collection after the update is what `Rename` gives; answers with the updated document, or none if no document has the `_id` |
| `Passport.Serialize` | app.js:52-54 | the session token holds the user's `_id` |
| `Passport.SerializeKeepsOnlyId` | app.js:52-54 | two users give the same token iff they have the same `_id`, so no hash, name or provider ID reaches the session |
| `Passport.Deserialize` | app.js:56-63 | a lookup error is passed on as an error, never as "no user"; "no user" iff no document has the id; otherwise a stored document with that id |
| `Passport.DeserializeUser` | app.js:56-63 | the callback on the collection answers as `Deserialize` |
| `Passport.SessionRoundTrip` | app.js:52-63 | deserializing the token of a stored user gives back that same user |
| `Passport.RestoreSession` | app.js:56-63 | no principal means no user; a principal whose user is gone is dropped and the request is anonymous, not an error; a restored user is stored and serializes to the principal |
| `Passport.RestoreAfterLogIn` | app.js:52-63 | a session opened for a stored user restores that user on later requests |
| `Passport.Session.LogIn` | app.js:52-54 | logging in stores the user's serialized token as the principal |
| `Passport.Session.LogOut` | routes/authRoutes.js:71 | logging out clears the principal |
| `Passport.Session.Restore` | app.js:56-63 | restoring a request answers as `RestoreSession`, and drops a principal whose user is gone |
| `Passport.LocalVerify` | app.js:71-85 | a lookup error exactly when the lookup fails; `Uncaught` (compareSync throws inside the findOne callback, so `done` is never called) only when the found user has no hash; "Incorrect username" iff no document has the username; "Incorrect password" only when the found user's hash rejects the password; success only with a stored user with that username whose hash accepts the password |
| `Passport.LocalVerifyDecides` | app.js:79-83 | when usernames are unique (`UsernamesUnique`), the account with the username decides: success with that very user iff the password matches its hash, otherwise "Incorrect password"; `Uncaught` if it has no hash |
| `Passport.LocalVerifyNeverThrows` | app.js:79 | when every local account has a hash, comparing never throws, so the request is always answered |
| `Passport.ProviderQuery` | app.js:133 | the provider's filter matches a document exactly when its field for that provider holds the profile ID |
| `Passport.Resolve` | app.js:96-176 | a lookup error leaves the table alone; on a match Google/Outlook return the matched user with the table unchanged and Slack renames only that user; with no match exactly one user is appended, holding only the provider ID and role GUEST, or nothing is appended on a create error; never a failure verdict |
| `Passport.VerifyProvider` | app.js:96-176 | the Slack, Google and Outlook callbacks change the collection and answer exactly as `Resolve` says |
| `Passport.ResolveTwice` | app.js:133-144 | a second login with the same provider ID returns the same `_id` and creates nothing; for Google and Outlook it changes nothing at all |
| `Passport.ResolveKeepsKeys` | app.js:100-117 | find-or-create keeps usernames and provider IDs unique and every local account hashed |
| `AuthRoutes.SignupOutcome` | routes/authRoutes.js:19-54 | empty credentials are refused before any lookup; a lookup error goes to next(err); a taken username is refused; a failed save renders the signup view with "Something went wrong"; success iff all checks pass and the save succeeds, and then exactly one user is appended, holding the username and the hash with cost 10; otherwise the table is unchanged |
| `AuthRoutes.Signup` | routes/authRoutes.js:19-54 | the handler changes the collection and replies exactly as `SignupOutcome` says |
| `AuthRoutes.SignupThenLogin` | routes/authRoutes.js:35-43 | with a sound hasher, the account just created logs in with its password, and the verdict is the new user |
| `AuthRoutes.SignupThenWrongPassword` | routes/authRoutes.js:35-41 | the account just created refuses a password its hash does not accept, with "Incorrect password" |
| `AuthRoutes.SignupTwice` | routes/authRoutes.js:28-33 | a second signup with the same username is refused whatever the password, and stores nothing |
| `AuthRoutes.SignupKeepsKeys` | routes/authRoutes.js:28-43 | signup keeps usernames and provider IDs unique and every local account hashed |
| `AuthRoutes.SignupNeverStoresPlaintext` | routes/authRoutes.js:35-41 | with a hasher that never returns its input, no user that signup stores holds the plaintext password |
| `AuthRoutes.Login` | routes/authRoutes.js:60-68 | an empty username or password flashes "Missing credentials" and goes to /login before the strategy runs; otherwise success stores the principal and goes to /rooms, a failure flashes the strategy's message and goes to /login, an error goes to next(err), and an exception in the callback leaves the request unanswered; no session is opened except on success |
| `AuthRoutes.Logout` | routes/authRoutes.js:70-73 | logout clears the principal and redirects to /login |
| `AuthRoutes.LogoutEndsSession` | routes/authRoutes.js:70-85 | after logout the next request has no user and ensureAuthenticated sends it to /login |
| `AuthRoutes.LoginEstablishesPrincipal` | routes/authRoutes.js:60-68 | after a successful login, later requests restore the same user and pass ensureAuthenticated |
| `AuthRoutes.EnsureAuthenticated` | routes/authRoutes.js:79-85 | lets a request through iff it has a user |
| `AuthRoutes.CheckRoles` | routes/authRoutes.js:143-151 | lets a request through iff it has a user whose role is exactly the named one |
| `AuthRoutes.HasRoom` | routes/authRoutes.js:120-135 | lets a request through iff it has a user, the room exists, and the user owns it or is ADMIN |
| `AuthRoutes.GatesRequireLogin` | routes/authRoutes.js:143-151 | whatever passes checkRoles or hasRoom also passes ensureAuthenticated |
| `AuthRoutes.CheckRolesIsExact` | routes/authRoutes.js:145 | checkRoles("ADMIN") admits exactly ADMINs and refuses an authenticated GUEST; an unknown role name admits nobody |
| `AuthRoutes.HasRoomAdmits` | routes/authRoutes.js:125-128 | hasRoom admits the owner and every ADMIN, and refuses a GUEST who does not own the room |
| `AuthRoutes.HasRoomAsWritten` | routes/authRoutes.js:124-133 | as written, the gate throws iff a logged-in request names a missing room, and passes only ADMINs |
| `AuthRoutes.MissingRoomThrows` | routes/authRoutes.js:124-127 | a logged-in request for a missing room throws as written and is refused by the corrected gate |
| `AuthRoutes.OwnerLockedOut` | routes/authRoutes.js:127 | as written, a GUEST is refused for their own room; the corrected gate admits them |
| `AuthRoutes.OwnedBy` | routes/authRoutes.js:88 | the listing holds exactly the rooms with that owner |
| `AuthRoutes.FindRoom` | routes/authRoutes.js:124 | finds a stored room with that id, or none when no room has it |
| `AuthRoutes.RemoveRoom` | routes/authRoutes.js:115 | exactly the rooms with a different id remain |
| `AuthRoutes.ListRooms` | routes/authRoutes.js:87-95 | an anonymous request goes to /login; a lookup error goes to next(err); otherwise the page holds exactly the user's rooms |
| `AuthRoutes.CreateRoom` | routes/authRoutes.js:97-111 | an anonymous request goes to /login; otherwise one room owned by the current user is appended, or nothing on a write error |
| `AuthRoutes.CreatedRoomIsListed` | routes/authRoutes.js:88-102 | a room created by a user appears in that user's listing and in nobody else's |
| `AuthRoutes.RemoveRoomRemovesOne` | routes/authRoutes.js:115 | with distinct room ids, deleting by id removes exactly one room when it exists and none otherwise, and ids stay distinct |
| `AuthRoutes.DeleteRoom` | routes/authRoutes.js:113-118 | a request hasRoom refuses goes to /login with the rooms unchanged; otherwise exactly that one room is deleted, unless the delete fails, and the reply is /rooms; room ids stay distinct |
| `AuthRoutes.AllRooms` | routes/authRoutes.js:137-141 | only a request that passes checkRoles("ADMIN") sees every room; a lookup error goes to /rooms |

## Left out

- Express and middleware wiring, the Mongo connection, the logger, sass, the view engine, static files and the favicon. These are framework plumbing.
- OAuth mechanics: client IDs, token exchange, scopes, callback URLs and the provider routes' redirects. Only the verify callbacks' effect on the table is modelled.
- The `/auth/amazon` routes. No amazon strategy is registered, so there is no logic behind them.
- bcrypt internals. `hashSync` and `compareSync` are function values. `Sound` and `NeverPlaintext` state the properties the lemmas assume. The salt's randomness is the `nonce` parameter.
- ObjectId generation. Ids are a counter that the collection advances on every insert.
- `UserModel.UserCollection.SetName`: returns the document as stored after the update. By default the library returns the document as it was before. The two differ only in `name`, so serializing either gives the same session.
- The Slack update has no error handler, so a failing update leaves the request unanswered. The model's update always succeeds.
- `hasRoom`'s `Room.findById` has no error handler either. A failing lookup is not modelled.
- Concurrency. Two simultaneous first logins with one provider ID can both miss the lookup and create two documents. The model runs one request at a time, so `KeysUnique` holds only for serial requests.
- Request bodies with a missing field. Usernames and passwords are strings, and `undefined` is not modelled.
- The passport-local module is not part of this model. `AuthRoutes.Login` states the behaviour of its guard, which rejects a missing or empty username or password with "Missing credentials" before the verify callback runs.
- `UserModel.FindFirst`: a findOne without a sort returns the first match in the collection's natural order, which Mongo does not promise to be insertion order. The model fixes insertion order. This matters only once keys collide, as after the concurrent race below, where it decides which duplicate Slack renames and which one the local login checks.
- Session-store expiry, cookie handling and flash-message storage. These are library behaviour. A flash message appears only as the `RedirectFlash` reply.
- Timestamps (models/User.js:19). The Room model is not part of this model. `AuthRoutes.Room` keeps the fields the routes set.
- Id comparison in queries is by value, which is how a Mongo filter compares ObjectIds. The `===` comparison in `hasRoom` is different; see Findings.

## Findings

| source | as written | input that shows it | evidently intended | confidence | as-written member | corrected member |
|---|---|---|---|---|---|---|
| routes/authRoutes.js:124-127 | `room.owner` is read before anything checks that `Room.findById` found a room | a logged-in request to `/rooms/delete/<id>` where no room has that id: `room` is null, the TypeError rejects the promise, and nothing answers the request | refuse the request (redirect to /login) when the room does not exist | high, not executed | `AuthRoutes.MissingRoomThrows` | `AuthRoutes.HasRoom` |
| routes/authRoutes.js:127 | `room.owner === req.user._id` compares two ObjectId objects by reference, one loaded with the room and one with the user | a logged-in GUEST who created a room asks to delete it: the two ObjectIds are equal in value but are different objects, so the gate redirects to /login | admit the owner, comparing ids by value (`equals`) | medium (the Room schema is not part of this model), not executed | `AuthRoutes.OwnerLockedOut` | `AuthRoutes.HasRoom` |
