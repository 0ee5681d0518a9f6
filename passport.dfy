/**
 * The authentication core of app.js: the session principal (serializeUser and
 * deserializeUser), the local strategy's verify callback, and the Slack, Google and
 * Outlook verify callbacks, which find, create or update a document in the User collection.
 */
module Passport {
  import opened Wrappers
  import opened UserModel
  import opened Crypto

  // The session principal.

  /** What serializeUser leaves in the session store. */
  datatype SessionToken = SessionToken(id: Id)

  function Serialize(u: User): (t: SessionToken)
    ensures t.id == u.id
  {
    SessionToken(u.id)
  }

  /** Two documents give the same session exactly when they share `_id`: nothing else reaches the session. */
  lemma SerializeKeepsOnlyId(u: User, v: User)
    ensures Serialize(u) == Serialize(v) <==> u.id == v.id
  {
  }

  /** What deserializeUser hands passport: the document, null, or the lookup's error. */
  datatype Restored = Restored(user: User) | NoUser | RestoreError(fault: Fault)

  function Deserialize(users: seq<User>, t: SessionToken, fault: bool): (r: Restored)
    ensures fault <==> r == RestoreError(LookupFailed)
    ensures r == NoUser <==> !fault && forall j :: 0 <= j < |users| ==> users[j].id != t.id
    ensures r.Restored? ==> r.user in users && r.user.id == t.id
  {
    match Lookup(users, ById(t.id), fault)
    case Err(f) => RestoreError(f)
    case Ok(None) => NoUser
    case Ok(Some(u)) => Restored(u)
  }

  method DeserializeUser(db: UserCollection, t: SessionToken, fault: bool) returns (r: Restored)
    ensures r == Deserialize(db.users, t, fault)
  {
    var found := db.FindOne(ById(t.id), fault);
    match found
    case Err(f) => r := RestoreError(f);
    case Ok(None) => r := NoUser;
    case Ok(Some(u)) => r := Restored(u);
  }

  /** Deserializing what serializeUser stored gives back the very document. */
  lemma SessionRoundTrip(users: seq<User>, i: nat)
    requires IdsDistinct(users) && i < |users|
    ensures Deserialize(users, Serialize(users[i]), false) == Restored(users[i])
  {
    FindFirstIsOnly(users, ById(users[i].id), i);
  }

  /** What passport.session() makes of a request: the restored `req.user`, and the principal the session keeps. */
  datatype Restoration = Restoration(user: Result<Option<User>, Fault>, principal: Option<SessionToken>)

  /**
   * Restoring a request's principal: no principal means no user; a principal whose
   * document is gone is dropped and the request is anonymous, not an error; a lookup
   * error is passed on.
   */
  function RestoreSession(principal: Option<SessionToken>, users: seq<User>, fault: bool): (r: Restoration)
    ensures principal.None? ==> r == Restoration(Ok(None), None)
    ensures r.user.Err? <==> principal.Some? && fault
    ensures r.user.Ok? && r.user.value.Some? ==>
      principal.Some? && r.principal == principal && r.user.value.value in users
      && Serialize(r.user.value.value) == principal.value
    ensures principal.Some? && !fault && (forall j :: 0 <= j < |users| ==> users[j].id != principal.value.id) ==>
      r == Restoration(Ok(None), None)
  {
    if principal.None? then Restoration(Ok(None), None)
    else
      match Deserialize(users, principal.value, fault)
      case RestoreError(f) => Restoration(Err(f), principal)
      case NoUser => Restoration(Ok(None), None)
      case Restored(u) => Restoration(Ok(Some(u)), principal)
  }

  /** A session opened for a stored document restores that same document on later requests. */
  lemma RestoreAfterLogIn(users: seq<User>, u: User)
    requires IdsDistinct(users) && u in users
    ensures RestoreSession(Some(Serialize(u)), users, false) == Restoration(Ok(Some(u)), Some(Serialize(u)))
  {
    var i :| 0 <= i < |users| && users[i] == u;
    SessionRoundTrip(users, i);
  }

  /** The session store's entry for one browser. */
  class Session {
    var principal: Option<SessionToken>

    constructor ()
      ensures principal == None
    {
      principal := None;
    }

    /** req.logIn(user): serializeUser's token becomes the principal. */
    method LogIn(u: User)
      modifies this
      ensures principal == Some(Serialize(u))
    {
      principal := Some(Serialize(u));
    }

    /** req.logout(): the principal is dropped. */
    method LogOut()
      modifies this
      ensures principal == None
    {
      principal := None;
    }

    /** passport.session() on an incoming request, calling deserializeUser. */
    method Restore(db: UserCollection, fault: bool) returns (user: Result<Option<User>, Fault>)
      modifies this
      ensures Restoration(user, principal) == RestoreSession(old(principal), db.users, fault)
    {
      if principal.None? {
        user := Ok(None);
      } else {
        var r := DeserializeUser(db, principal.value, fault);
        match r
        case RestoreError(f) =>
          user := Err(f);
        case NoUser =>
          user := Ok(None);
          principal := None;
        case Restored(u) =>
          user := Ok(Some(u));
      }
    }
  }

  // Verify callbacks.

  /**
   * What a verify callback passes to `done`: `(null, user)`, `(null, false, {message})` or
   * `(err)`; or `Uncaught` when it throws inside a database callback, where no one catches
   * the exception and `done` is never called.
   */
  datatype Verdict = Success(user: User) | Failure(message: string) | Error(fault: Fault) | Uncaught

  const IncorrectUsername := "Incorrect username"
  const IncorrectPassword := "Incorrect password"

  /**
   * The local strategy: find the document with that username, then compare the password
   * against its hash. compareSync throws when the document has no hash; the exception is
   * raised inside findOne's callback, so it never reaches `done`: the `Uncaught` verdict.
   */
  function LocalVerify(users: seq<User>, username: string, password: string, b: Bcrypt, fault: bool): (v: Verdict)
    ensures fault <==> v == Error(LookupFailed)
    ensures v == Failure(IncorrectUsername) <==>
      !fault && forall j :: 0 <= j < |users| ==> users[j].username != Some(username)
    ensures v.Failure? ==> v.message == IncorrectUsername || v.message == IncorrectPassword
    ensures v.Success? ==>
      v.user in users && v.user.username == Some(username)
      && v.user.password.Some? && b.compare(password, v.user.password.value)
    ensures v == Failure(IncorrectPassword) ==>
      exists u :: u in users && u.username == Some(username) && u.password.Some? && !b.compare(password, u.password.value)
    ensures v.Error? <==> fault
    ensures v == Uncaught ==>
      exists u :: u in users && u.username == Some(username) && u.password.None?
  {
    match Lookup(users, ByUsername(username), fault)
    case Err(f) => Error(f)
    case Ok(None) => Failure(IncorrectUsername)
    case Ok(Some(u)) =>
      if u.password.None? then Uncaught
      else if !b.compare(password, u.password.value) then Failure(IncorrectPassword)
      else Success(u)
  }

  /**
   * Where usernames are unique, the one account with that username decides the verdict:
   * success with that very document exactly when the password matches its hash.
   */
  lemma LocalVerifyDecides(users: seq<User>, i: nat, password: string, b: Bcrypt)
    requires UsernamesUnique(users) && i < |users| && users[i].username.Some?
    ensures LocalVerify(users, users[i].username.value, password, b, false) ==
      if users[i].password.None? then Uncaught
      else if b.compare(password, users[i].password.value) then Success(users[i])
      else Failure(IncorrectPassword)
  {
    FindFirstIsOnly(users, ByUsername(users[i].username.value), i);
  }

  /** In a table where every local account has a hash, compareSync never throws. */
  lemma LocalVerifyNeverThrows(users: seq<User>, username: string, password: string, b: Bcrypt, fault: bool)
    requires LocalAccountsHashed(users)
    ensures LocalVerify(users, username, password, b, fault) != Uncaught
  {
    var k := FindFirst(users, ByUsername(username));
    if !fault && k.Some? {
      assert users[k.value].username.Some?;
    }
  }

  datatype Provider = Slack | Google | Outlook

  /** The document field that holds the provider's `profile.id`. */
  function ExternalId(u: User, p: Provider): Option<string>
  {
    match p
    case Slack => u.slackID
    case Google => u.googleID
    case Outlook => u.outlookID
  }

  /** `{slackID: profile.id}`, `{googleID: profile.id}` or `{outlookID: profile.id}`. */
  function ProviderQuery(p: Provider, extId: string): (q: Query)
    ensures forall u: User :: Matches(u, q) <==> ExternalId(u, p) == Some(extId)
  {
    match p
    case Slack => BySlackID(extId)
    case Google => ByGoogleID(extId)
    case Outlook => ByOutlookID(extId)
  }

  /** The draft User.create receives for a first-time login: the provider's ID and nothing else. */
  function ProviderDraft(p: Provider, extId: string): (d: Draft)
  {
    match p
    case Slack => NoFields.(slackID := Some(extId))
    case Google => NoFields.(googleID := Some(extId))
    case Outlook => NoFields.(outlookID := Some(extId))
  }

  /**
   * A provider's verify callback. A document with that provider ID is returned as it is
   * (Google, Outlook) or after its name is overwritten with `displayName`, the profile's
   * `user.name` (Slack); without one, a document holding only the provider ID is created.
   * Lookup and create errors are passed on; there is no failure verdict, and nothing throws.
   */
  function Resolve(users: seq<User>, nextId: Id, p: Provider, extId: string, displayName: string,
                   findFault: bool, createFault: bool): (o: Outcome<Verdict>)
    requires WellFormed(users, nextId)
    ensures WellFormed(o.users, o.nextId)
    ensures findFault ==> o == Outcome(Error(LookupFailed), users, nextId)
    ensures o.result.Success? || o.result.Error?
    ensures o.result.Success? ==> o.result.user in o.users && ExternalId(o.result.user, p) == Some(extId)
    ensures o.result.Error? ==> o.users == users && o.nextId == nextId
    ensures !findFault && FindFirst(users, ProviderQuery(p, extId)).Some? ==>
      var k := FindFirst(users, ProviderQuery(p, extId)).value;
      && o.nextId == nextId
      && o.users == (if p == Slack then users[k := users[k].(name := Some(displayName))] else users)
      && o.result == Success(o.users[k])
    ensures !findFault && FindFirst(users, ProviderQuery(p, extId)).None? ==>
      if createFault then o == Outcome(Error(WriteFailed), users, nextId)
      else (o.result.Success? && o.users == users + [o.result.user]
            && Carries(o.result.user, nextId, ProviderDraft(p, extId)))
  {
    if findFault then Outcome(Error(LookupFailed), users, nextId)
    else
      match FindFirst(users, ProviderQuery(p, extId))
      case Some(k) =>
        if p == Slack then
          FindFirstIsOnly(users, ById(users[k].id), k);
          var renamed := Rename(users, users[k].id, displayName);
          Outcome(Success(renamed[k]), renamed, nextId)
        else
          Outcome(Success(users[k]), users, nextId)
      case None =>
        var created := Insert(users, nextId, ProviderDraft(p, extId), createFault);
        match created.result
        case Ok(u) => Outcome(Success(u), created.users, created.nextId)
        case Err(f) => Outcome(Error(f), created.users, created.nextId)
  }

  /** The Slack, Google and Outlook verify callbacks, acting on the shared collection. */
  method VerifyProvider(db: UserCollection, p: Provider, extId: string, displayName: string,
                        findFault: bool, createFault: bool) returns (v: Verdict)
    requires db.Valid()
    modifies db
    ensures db.Valid()
    ensures Outcome(v, db.users, db.nextId) == Resolve(old(db.users), old(db.nextId), p, extId, displayName, findFault, createFault)
  {
    var found := db.FindOne(ProviderQuery(p, extId), findFault);
    match found {
      case Err(f) =>
        v := Error(f);
      case Ok(Some(u)) =>
        if p == Slack {
          ghost var k := FindFirst(db.users, ProviderQuery(p, extId)).value;
          FindFirstIsOnly(db.users, ById(u.id), k);
          var updated := db.SetName(u.id, displayName);
          v := Success(updated.value);
        } else {
          v := Success(u);
        }
      case Ok(None) =>
        var created := db.Create(ProviderDraft(p, extId), createFault);
        v := if created.Ok? then Success(created.value) else Error(created.error);
    }
  }

  /**
   * Logging in twice with the same provider ID (and no database error) yields the same
   * document both times, and the second login creates nothing; for Google and Outlook it
   * changes nothing at all.
   */
  lemma ResolveTwice(users: seq<User>, nextId: Id, p: Provider, extId: string, name1: string, name2: string)
    requires WellFormed(users, nextId)
    ensures
      var o1 := Resolve(users, nextId, p, extId, name1, false, false);
      var o2 := Resolve(o1.users, o1.nextId, p, extId, name2, false, false);
      && o1.result.Success? && o2.result.Success?
      && o2.result.user.id == o1.result.user.id
      && |o2.users| == |o1.users| && o2.nextId == o1.nextId
      && (p != Slack ==> o2.users == o1.users)
  {
    var q := ProviderQuery(p, extId);
    var o1 := Resolve(users, nextId, p, extId, name1, false, false);
    match FindFirst(users, q)
    case Some(k) =>
      FindFirstAgrees(users, o1.users, q);
    case None =>
      FindFirstAppend(users, o1.result.user, q);
  }

  /** The find-or-create paths keep usernames and provider IDs unique, and every local account hashed. */
  lemma ResolveKeepsKeys(users: seq<User>, nextId: Id, p: Provider, extId: string, displayName: string,
                         findFault: bool, createFault: bool)
    requires WellFormed(users, nextId) && KeysUnique(users) && LocalAccountsHashed(users)
    ensures
      var o := Resolve(users, nextId, p, extId, displayName, findFault, createFault);
      KeysUnique(o.users) && LocalAccountsHashed(o.users)
  {
    var o := Resolve(users, nextId, p, extId, displayName, findFault, createFault);
    var q := ProviderQuery(p, extId);
    if !findFault && FindFirst(users, q).None? && !createFault {
      var u := o.result.user;
      forall i | 0 <= i < |users|
        ensures !Collide(users[i], u)
      {
        assert !Matches(users[i], q);
      }
    }
  }
}
