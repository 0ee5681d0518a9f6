/**
 * The handlers and middleware of routes/authRoutes.js that decide who gets in and what
 * is stored: signup, login and logout, the three access-control gates, and the room
 * routes they guard.
 */
module AuthRoutes {
  import opened Wrappers
  import opened UserModel
  import opened Crypto
  import opened Passport

  /** A room document; of its fields only `owner` matters to the gates. */
  datatype Room = Room(id: Id, name: string, desc: string, owner: Id)

  /**
   * How a handler answers: a view with a message, the rooms page, a redirect, a redirect
   * carrying a one-shot flash message, next(err), or not at all (an exception no one catches).
   */
  datatype Reply =
    | Render(view: string, message: string)
    | RenderRooms(rooms: seq<Room>)
    | Redirect(path: string)
    | RedirectFlash(path: string, flash: string)
    | NextError(fault: Fault)
    | NoReply

  // Signup.

  /** The cost factor the signup handler passes to genSaltSync. */
  const BcryptSaltRounds: nat := 10

  const SignupView := "auth/signup"
  const MissingCredentials := "Indicate username and password"
  const UsernameTaken := "The username already exists"
  const SaveFailed := "Something went wrong"

  /** The fields of the document a signup saves. */
  function LocalDraft(username: string, hashPass: string): Draft
  {
    NoFields.(username := Some(username), password := Some(hashPass))
  }

  /**
   * POST /signup. Empty credentials are refused before any lookup; a taken username is
   * refused whatever the password; otherwise one document is saved, holding the username
   * and the password hashed with a fresh salt of cost 10 (`nonce` stands for the salt's
   * random part).
   */
  function SignupOutcome(users: seq<User>, nextId: Id, username: string, password: string, b: Bcrypt,
                         nonce: string, findFault: bool, saveFault: bool): (o: Outcome<Reply>)
    requires WellFormed(users, nextId)
    ensures WellFormed(o.users, o.nextId)
    ensures username == "" || password == "" ==>
      o == Outcome(Render(SignupView, MissingCredentials), users, nextId)
    ensures username != "" && password != "" && findFault ==>
      o == Outcome(NextError(LookupFailed), users, nextId)
    ensures username != "" && password != "" && !findFault
            && (exists j :: 0 <= j < |users| && users[j].username == Some(username)) ==>
      o == Outcome(Render(SignupView, UsernameTaken), users, nextId)
    ensures username != "" && password != "" && !findFault && saveFault
            && (forall j :: 0 <= j < |users| ==> users[j].username != Some(username)) ==>
      o == Outcome(Render(SignupView, SaveFailed), users, nextId)
    ensures o.result == Redirect("/") <==>
      && username != "" && password != "" && !findFault && !saveFault
      && forall j :: 0 <= j < |users| ==> users[j].username != Some(username)
    ensures o.result == Redirect("/") ==>
      && |o.users| == |users| + 1 && o.users == users + [o.users[|users|]]
      && Carries(o.users[|users|], nextId, LocalDraft(username, b.hash(password, Salt(BcryptSaltRounds, nonce))))
    ensures o.result != Redirect("/") ==> o.users == users && o.nextId == nextId
  {
    if username == "" || password == "" then
      Outcome(Render(SignupView, MissingCredentials), users, nextId)
    else
      match Lookup(users, ByUsername(username), findFault)
      case Err(f) => Outcome(NextError(f), users, nextId)
      case Ok(Some(_)) => Outcome(Render(SignupView, UsernameTaken), users, nextId)
      case Ok(None) =>
        var hashPass := b.hash(password, Salt(BcryptSaltRounds, nonce));
        var saved := Insert(users, nextId, LocalDraft(username, hashPass), saveFault);
        Outcome(if saved.result.Ok? then Redirect("/") else Render(SignupView, SaveFailed), saved.users, saved.nextId)
  }

  method Signup(db: UserCollection, username: string, password: string, b: Bcrypt, nonce: string,
                findFault: bool, saveFault: bool) returns (r: Reply)
    requires db.Valid()
    modifies db
    ensures db.Valid()
    ensures Outcome(r, db.users, db.nextId) ==
      SignupOutcome(old(db.users), old(db.nextId), username, password, b, nonce, findFault, saveFault)
  {
    if username == "" || password == "" {
      return Render(SignupView, MissingCredentials);
    }
    var found := db.FindOne(ByUsername(username), findFault);
    match found {
      case Err(f) =>
        r := NextError(f);
      case Ok(Some(_)) =>
        r := Render(SignupView, UsernameTaken);
      case Ok(None) =>
        var hashPass := b.hash(password, Salt(BcryptSaltRounds, nonce));
        var saved := db.Create(LocalDraft(username, hashPass), saveFault);
        r := if saved.Ok? then Redirect("/") else Render(SignupView, SaveFailed);
    }
  }

  /** A fresh account logs in with its password, and the verdict names the document just saved. */
  lemma SignupThenLogin(users: seq<User>, nextId: Id, username: string, password: string, b: Bcrypt, nonce: string)
    requires WellFormed(users, nextId) && Sound(b)
    requires SignupOutcome(users, nextId, username, password, b, nonce, false, false).result == Redirect("/")
    ensures
      var o := SignupOutcome(users, nextId, username, password, b, nonce, false, false);
      LocalVerify(o.users, username, password, b, false) == Success(o.users[|users|])
  {
    var o := SignupOutcome(users, nextId, username, password, b, nonce, false, false);
    FindFirstAppend(users, o.users[|users|], ByUsername(username));
  }

  /** A fresh account refuses a password that does not match the stored hash. */
  lemma SignupThenWrongPassword(users: seq<User>, nextId: Id, username: string, password: string, wrong: string,
                                b: Bcrypt, nonce: string)
    requires WellFormed(users, nextId)
    requires SignupOutcome(users, nextId, username, password, b, nonce, false, false).result == Redirect("/")
    requires !b.compare(wrong, b.hash(password, Salt(BcryptSaltRounds, nonce)))
    ensures
      var o := SignupOutcome(users, nextId, username, password, b, nonce, false, false);
      LocalVerify(o.users, username, wrong, b, false) == Failure(IncorrectPassword)
  {
    var o := SignupOutcome(users, nextId, username, password, b, nonce, false, false);
    FindFirstAppend(users, o.users[|users|], ByUsername(username));
  }

  /** A second signup with the same username is refused and stores nothing, whatever its password. */
  lemma SignupTwice(users: seq<User>, nextId: Id, username: string, password: string, password2: string,
                    b: Bcrypt, nonce: string, nonce2: string, saveFault2: bool)
    requires WellFormed(users, nextId)
    requires SignupOutcome(users, nextId, username, password, b, nonce, false, false).result == Redirect("/")
    ensures
      var o := SignupOutcome(users, nextId, username, password, b, nonce, false, false);
      SignupOutcome(o.users, o.nextId, username, password2, b, nonce2, false, saveFault2)
      == Outcome(Render(SignupView, if password2 == "" then MissingCredentials else UsernameTaken), o.users, o.nextId)
  {
    var o := SignupOutcome(users, nextId, username, password, b, nonce, false, false);
    assert o.users[|users|].username == Some(username);
  }

  /** Signup keeps usernames and provider IDs unique and every local account hashed. */
  lemma SignupKeepsKeys(users: seq<User>, nextId: Id, username: string, password: string, b: Bcrypt,
                        nonce: string, findFault: bool, saveFault: bool)
    requires WellFormed(users, nextId) && KeysUnique(users) && LocalAccountsHashed(users)
    ensures
      var o := SignupOutcome(users, nextId, username, password, b, nonce, findFault, saveFault);
      KeysUnique(o.users) && LocalAccountsHashed(o.users)
  {
    var o := SignupOutcome(users, nextId, username, password, b, nonce, findFault, saveFault);
    if o.result == Redirect("/") {
      var u := o.users[|users|];
      forall i | 0 <= i < |users|
        ensures !Collide(users[i], u)
      {
        assert users[i].username != Some(username);
      }
      assert forall i :: 0 <= i < |users| ==> o.users[i] == users[i];
    }
  }

  /** With a hasher that never returns its input, the stored password is never the plaintext. */
  lemma SignupNeverStoresPlaintext(users: seq<User>, nextId: Id, username: string, password: string, b: Bcrypt,
                                   nonce: string, findFault: bool, saveFault: bool)
    requires WellFormed(users, nextId) && NeverPlaintext(b)
    ensures
      var o := SignupOutcome(users, nextId, username, password, b, nonce, findFault, saveFault);
      forall j :: |users| <= j < |o.users| ==> o.users[j].password != Some(password)
  {
    var o := SignupOutcome(users, nextId, username, password, b, nonce, findFault, saveFault);
    if o.result == Redirect("/") {
      assert o.users[|users|].password == Some(b.hash(password, Salt(BcryptSaltRounds, nonce)));
    }
  }

  // Login and logout.

  /** The message passport-local fails with when the username or the password is empty. */
  const MissingLoginCredentials := "Missing credentials"

  /**
   * POST /login. passport-local refuses an empty username or password before the verify
   * callback runs; otherwise the local strategy decides: success opens a session and goes
   * to /rooms, failure goes back to /login with the strategy's message as a flash, an
   * error goes to next(err), and an exception thrown inside the callback leaves the
   * request unanswered.
   */
  method Login(session: Session, db: UserCollection, username: string, password: string, b: Bcrypt, fault: bool)
    returns (r: Reply)
    modifies session
    ensures username == "" || password == "" ==>
      r == RedirectFlash("/login", MissingLoginCredentials) && session.principal == old(session.principal)
    ensures username != "" && password != "" ==>
      match LocalVerify(db.users, username, password, b, fault)
      case Success(u) => r == Redirect("/rooms") && session.principal == Some(Serialize(u))
      case Failure(m) => r == RedirectFlash("/login", m) && session.principal == old(session.principal)
      case Error(f) => r == NextError(f) && session.principal == old(session.principal)
      case Uncaught => r == NoReply && session.principal == old(session.principal)
  {
    if username == "" || password == "" {
      return RedirectFlash("/login", MissingLoginCredentials);
    }
    var v := LocalVerify(db.users, username, password, b, fault);
    match v {
      case Success(u) =>
        session.LogIn(u);
        r := Redirect("/rooms");
      case Failure(m) =>
        r := RedirectFlash("/login", m);
      case Error(f) =>
        r := NextError(f);
      case Uncaught =>
        r := NoReply;
    }
  }

  /** GET /logout. */
  method Logout(session: Session) returns (r: Reply)
    modifies session
    ensures session.principal == None && r == Redirect("/login")
  {
    session.LogOut();
    r := Redirect("/login");
  }

  /** After logout, the next request restores no user, and ensureAuthenticated sends it to /login. */
  lemma LogoutEndsSession(users: seq<User>, fault: bool)
    ensures
      var r := RestoreSession(None, users, fault);
      r.user == Ok(None) && r.principal == None && EnsureAuthenticated(r.user.value) == ToLogin
  {
  }

  /** A successful login restores the same document on every later request, and every gate sees a logged-in user. */
  lemma LoginEstablishesPrincipal(users: seq<User>, username: string, password: string, b: Bcrypt)
    requires IdsDistinct(users)
    requires LocalVerify(users, username, password, b, false).Success?
    ensures
      var u := LocalVerify(users, username, password, b, false).user;
      var r := RestoreSession(Some(Serialize(u)), users, false);
      r.user == Ok(Some(u)) && EnsureAuthenticated(r.user.value) == Next
  {
    RestoreAfterLogIn(users, LocalVerify(users, username, password, b, false).user);
  }

  // Access-control gates.

  /** A middleware's decision: call next(), or redirect to /login. */
  datatype Gate = Next | ToLogin

  /** ensureAuthenticated: only a request with a restored user gets through. */
  function EnsureAuthenticated(user: Option<User>): (g: Gate)
    ensures g == Next <==> user.Some?
  {
    if user.Some? then Next else ToLogin
  }

  /** checkRoles(role): a logged-in user whose role is exactly `role`. */
  function CheckRoles(role: string, user: Option<User>): (g: Gate)
    ensures g == Next <==> user.Some? && ParseRole(role) == Some(user.value.role)
  {
    if user.Some? && RoleName(user.value.role) == role then Next else ToLogin
  }

  /**
   * hasRoom, as the room routes should have it: a logged-in user who owns the room, or
   * any ADMIN; a room that does not exist lets nobody through.
   */
  function HasRoom(user: Option<User>, room: Option<Room>): (g: Gate)
    ensures g == Next <==>
      user.Some? && room.Some? && (room.value.owner == user.value.id || user.value.role == ADMIN)
  {
    if user.Some? && room.Some? && (room.value.owner == user.value.id || RoleName(user.value.role) == "ADMIN")
    then Next else ToLogin
  }

  /** Every gate lets through only logged-in users. */
  lemma GatesRequireLogin(role: string, user: Option<User>, room: Option<Room>)
    ensures CheckRoles(role, user) == Next ==> EnsureAuthenticated(user) == Next
    ensures HasRoom(user, room) == Next ==> EnsureAuthenticated(user) == Next
  {
  }

  /** checkRoles is exact, not "at least": checkRoles("ADMIN") refuses a GUEST, and an unknown role admits no one. */
  lemma CheckRolesIsExact(role: string, u: User)
    ensures CheckRoles("ADMIN", Some(u)) == Next <==> u.role == ADMIN
    ensures CheckRoles("GUEST", Some(u)) == Next <==> u.role == GUEST
    ensures role != "ADMIN" && role != "GUEST" ==> CheckRoles(role, Some(u)) == ToLogin
  {
  }

  /** hasRoom admits a room's owner and every ADMIN, and refuses a GUEST who does not own the room. */
  lemma HasRoomAdmits(u: User, room: Room)
    ensures room.owner == u.id ==> HasRoom(Some(u), Some(room)) == Next
    ensures CheckRoles("ADMIN", Some(u)) == Next ==> HasRoom(Some(u), Some(room)) == Next
    ensures u.role == GUEST && room.owner != u.id ==> HasRoom(Some(u), Some(room)) == ToLogin
  {
  }

  /** What hasRoom does as written: pass on, redirect, or throw inside its promise. */
  datatype GateAsWritten = Proceeds | Redirects | Throws

  /**
   * hasRoom as written. It reads `room.owner` before anything checks that the room exists,
   * and compares it with `===` to `req.user._id`: two ObjectId objects, one loaded with the
   * room and one with the user, which are never the same object.
   */
  function HasRoomAsWritten(user: Option<User>, room: Option<Room>): (g: GateAsWritten)
    ensures g == Throws <==> user.Some? && room.None?
    ensures g == Proceeds <==> user.Some? && room.Some? && user.value.role == ADMIN
  {
    if user.None? then Redirects
    else if room.None? then Throws
    else if RoleName(user.value.role) == "ADMIN" then Proceeds
    else Redirects
  }

  /** A logged-in request for a room id that does not exist throws as written; the corrected gate refuses it. */
  lemma MissingRoomThrows(u: User)
    ensures HasRoomAsWritten(Some(u), None) == Throws
    ensures HasRoom(Some(u), None) == ToLogin
  {
  }

  /** As written, a GUEST cannot pass the gate for a room they own; the corrected gate lets them through. */
  lemma OwnerLockedOut(u: User, room: Room)
    requires u.role == GUEST && room.owner == u.id
    ensures HasRoomAsWritten(Some(u), Some(room)) == Redirects
    ensures HasRoom(Some(u), Some(room)) == Next
  {
  }

  // Rooms.

  /** `Room.find({owner})`: the rooms with that owner, in stored order. */
  function OwnedBy(rooms: seq<Room>, owner: Id): (r: seq<Room>)
    ensures forall x :: x in r <==> x in rooms && x.owner == owner
    ensures |r| <= |rooms|
  {
    if rooms == [] then []
    else (if rooms[0].owner == owner then [rooms[0]] else []) + OwnedBy(rooms[1..], owner)
  }

  /** `Room.findById(id)`. */
  function FindRoom(rooms: seq<Room>, id: Id): (r: Option<Room>)
    ensures r.Some? ==> r.value in rooms && r.value.id == id
    ensures r.None? ==> forall x :: x in rooms ==> x.id != id
  {
    if rooms == [] then None
    else if rooms[0].id == id then Some(rooms[0])
    else FindRoom(rooms[1..], id)
  }

  /** `Room.findByIdAndDelete(id)`: every other room stays. */
  function RemoveRoom(rooms: seq<Room>, id: Id): (r: seq<Room>)
    ensures forall x :: x in r <==> x in rooms && x.id != id
  {
    if rooms == [] then []
    else (if rooms[0].id == id then [] else [rooms[0]]) + RemoveRoom(rooms[1..], id)
  }

  ghost predicate RoomIdsDistinct(rooms: seq<Room>)
  {
    forall i, j :: 0 <= i < j < |rooms| ==> rooms[i].id != rooms[j].id
  }

  /** Where room ids are distinct, the first room is the only one with its id. */
  lemma HeadIdUnique(rooms: seq<Room>)
    requires rooms != [] && RoomIdsDistinct(rooms)
    ensures RoomIdsDistinct(rooms[1..])
    ensures forall x :: x in rooms[1..] ==> x.id != rooms[0].id
  {
    forall x | x in rooms[1..] ensures x.id != rooms[0].id {
      var j :| 0 <= j < |rooms[1..]| && rooms[1..][j] == x;
      assert rooms[j + 1] == x;
    }
  }

  /** Where room ids are distinct, deleting by id removes at most one room, and ids stay distinct. */
  lemma {:induction false} RemoveRoomRemovesOne(rooms: seq<Room>, id: Id)
    requires RoomIdsDistinct(rooms)
    ensures RoomIdsDistinct(RemoveRoom(rooms, id))
    ensures |RemoveRoom(rooms, id)| == if FindRoom(rooms, id).Some? then |rooms| - 1 else |rooms|
  {
    if rooms != [] {
      HeadIdUnique(rooms);
      RemoveRoomRemovesOne(rooms[1..], id);
      var rest := RemoveRoom(rooms[1..], id);
      if rooms[0].id != id {
        forall j | 0 <= j < |rest| ensures rest[j].id != rooms[0].id {
          assert rest[j] in rest;
        }
      }
    }
  }

  /** The Room collection. */
  class RoomCollection {
    var rooms: seq<Room>
    var nextId: Id

    /** Every `_id` was handed out before the counter, and no two rooms share one. */
    ghost predicate Valid()
      reads this
    {
      (forall x :: x in rooms ==> x.id < nextId) && RoomIdsDistinct(rooms)
    }

    constructor ()
      ensures Valid() && rooms == []
    {
      rooms := [];
      nextId := 0;
    }
  }

  /** GET /rooms, behind ensureAuthenticated: the current user's rooms. */
  method ListRooms(user: Option<User>, rc: RoomCollection, fault: bool) returns (r: Reply)
    ensures user.None? ==> r == Redirect("/login")
    ensures user.Some? && fault ==> r == NextError(LookupFailed)
    ensures user.Some? && !fault ==>
      r.RenderRooms? && forall x :: x in r.rooms <==> x in rc.rooms && x.owner == user.value.id
  {
    if EnsureAuthenticated(user) == ToLogin {
      return Redirect("/login");
    }
    if fault {
      r := NextError(LookupFailed);
    } else {
      r := RenderRooms(OwnedBy(rc.rooms, user.value.id));
    }
  }

  /** POST /rooms, behind ensureAuthenticated: a new room owned by the current user. */
  method CreateRoom(user: Option<User>, rc: RoomCollection, name: string, desc: string, fault: bool)
    returns (r: Reply)
    requires rc.Valid()
    modifies rc
    ensures rc.Valid()
    ensures user.None? ==> r == Redirect("/login") && rc.rooms == old(rc.rooms)
    ensures user.Some? && fault ==> r == NextError(WriteFailed) && rc.rooms == old(rc.rooms)
    ensures user.Some? && !fault ==>
      r == Redirect("/rooms") && rc.rooms == old(rc.rooms) + [Room(old(rc.nextId), name, desc, user.value.id)]
  {
    if EnsureAuthenticated(user) == ToLogin {
      return Redirect("/login");
    }
    if fault {
      r := NextError(WriteFailed);
    } else {
      rc.rooms := rc.rooms + [Room(rc.nextId, name, desc, user.value.id)];
      rc.nextId := rc.nextId + 1;
      r := Redirect("/rooms");
    }
  }

  /** A room created by a user appears in that user's listing, and in no other user's. */
  lemma CreatedRoomIsListed(rooms: seq<Room>, room: Room, other: Id)
    ensures room in OwnedBy(rooms + [room], room.owner)
    ensures other != room.owner ==> room !in OwnedBy(rooms + [room], other)
  {
  }

  /** GET /rooms/delete/:id, behind hasRoom: the room goes, and either way the user is sent to /rooms. */
  method DeleteRoom(user: Option<User>, rc: RoomCollection, roomId: Id, fault: bool) returns (r: Reply)
    requires rc.Valid()
    modifies rc
    ensures rc.Valid()
    ensures HasRoom(user, FindRoom(old(rc.rooms), roomId)) == ToLogin ==>
      r == Redirect("/login") && rc.rooms == old(rc.rooms)
    ensures HasRoom(user, FindRoom(old(rc.rooms), roomId)) == Next ==>
      r == Redirect("/rooms") && rc.rooms == if fault then old(rc.rooms) else RemoveRoom(old(rc.rooms), roomId)
    ensures HasRoom(user, FindRoom(old(rc.rooms), roomId)) == Next && !fault ==>
      |rc.rooms| == |old(rc.rooms)| - 1
  {
    if HasRoom(user, FindRoom(rc.rooms, roomId)) == ToLogin {
      return Redirect("/login");
    }
    if !fault {
      RemoveRoomRemovesOne(rc.rooms, roomId);
      rc.rooms := RemoveRoom(rc.rooms, roomId);
    }
    r := Redirect("/rooms");
  }

  /** GET /rooms/allrooms, behind checkRoles("ADMIN"): every room. */
  method AllRooms(user: Option<User>, rc: RoomCollection, fault: bool) returns (r: Reply)
    ensures CheckRoles("ADMIN", user) == ToLogin ==> r == Redirect("/login")
    ensures CheckRoles("ADMIN", user) == Next ==> r == if fault then Redirect("/rooms") else RenderRooms(rc.rooms)
  {
    if CheckRoles("ADMIN", user) == ToLogin {
      return Redirect("/login");
    }
    r := if fault then Redirect("/rooms") else RenderRooms(rc.rooms);
  }
}
