/**
 * The User schema of models/User.js, and the collection its documents are stored in:
 * the queries the application issues against it (findOne, findById), and its three
 * writes (create/save, findByIdAndUpdate).
 */
module UserModel {
  import opened Wrappers

  /** A document's `_id`: opaque, assigned when the document is stored. */
  type Id = nat

  /** The values the schema's `role` enum admits. */
  datatype Role = GUEST | ADMIN

  /** The string stored for a role. */
  function RoleName(r: Role): string
  {
    match r
    case GUEST => "GUEST"
    case ADMIN => "ADMIN"
  }

  /** The enum validator: a role string is accepted exactly when it names a role. */
  function ParseRole(s: string): (r: Option<Role>)
    ensures r.Some? ==> RoleName(r.value) == s
    ensures r.None? ==> forall role: Role :: RoleName(role) != s
  {
    if s == "GUEST" then Some(GUEST)
    else if s == "ADMIN" then Some(ADMIN)
    else None
  }

  lemma RoleNameRoundTrip(r: Role)
    ensures ParseRole(RoleName(r)) == Some(r)
  {
  }

  /** A stored user document. Every string field is optional; `role` always holds an enum value. */
  datatype User = User(
    id: Id,
    name: Option<string>,
    username: Option<string>,
    password: Option<string>,
    slackID: Option<string>,
    googleID: Option<string>,
    outlookID: Option<string>,
    role: Role)

  /** The fields handed to `new User({...})` or `User.create({...})`; an absent field is undefined. */
  datatype Draft = Draft(
    name: Option<string>,
    username: Option<string>,
    password: Option<string>,
    slackID: Option<string>,
    googleID: Option<string>,
    outlookID: Option<string>,
    role: Option<string>)

  const NoFields: Draft := Draft(None, None, None, None, None, None, None)

  datatype SchemaError = InvalidRole(value: string)

  /**
   * `u` is the document stored for draft `d` under `_id` `id`: the draft's fields and no
   * others, and the schema's default role GUEST when the draft names none.
   */
  predicate Carries(u: User, id: Id, d: Draft)
  {
    && u.id == id
    && u.name == d.name
    && u.username == d.username
    && u.password == d.password
    && u.slackID == d.slackID
    && u.googleID == d.googleID
    && u.outlookID == d.outlookID
    && (if d.role.None? then u.role == GUEST else RoleName(u.role) == d.role.value)
  }

  /** Casting a draft to a document, with the enum validator and the default applied. */
  function Instantiate(id: Id, d: Draft): (r: Result<User, SchemaError>)
    ensures r.Ok? <==> d.role.None? || d.role.value in {"GUEST", "ADMIN"}
    ensures r.Ok? ==> Carries(r.value, id, d)
    ensures r.Err? ==> r.error == InvalidRole(d.role.value)
  {
    var role := if d.role.None? then Some(GUEST) else ParseRole(d.role.value);
    if role.None? then Err(InvalidRole(d.role.value))
    else Ok(User(id, d.name, d.username, d.password, d.slackID, d.googleID, d.outlookID, role.value))
  }

  /** A draft that names no role always validates, and the document gets role GUEST. */
  lemma DefaultRoleIsGuest(id: Id, d: Draft)
    requires d.role.None?
    ensures Instantiate(id, d).Ok? && Instantiate(id, d).value.role == GUEST
  {
  }

  /** Why a database call did not produce a value. */
  datatype Fault = LookupFailed | WriteFailed | Invalid(err: SchemaError)

  /** The filters the application passes to findOne and findById. */
  datatype Query =
    | ById(id: Id)
    | ByUsername(username: string)
    | BySlackID(slackID: string)
    | ByGoogleID(googleID: string)
    | ByOutlookID(outlookID: string)

  /** A filter `{field: v}` matches a document whose field is present and equal to `v`. */
  predicate Matches(u: User, q: Query)
  {
    match q
    case ById(i) => u.id == i
    case ByUsername(s) => u.username == Some(s)
    case BySlackID(s) => u.slackID == Some(s)
    case ByGoogleID(s) => u.googleID == Some(s)
    case ByOutlookID(s) => u.outlookID == Some(s)
  }

  /** The position of the first document, in insertion order, that the filter matches. */
  function FindFirst(users: seq<User>, q: Query): (r: Option<nat>)
    ensures r.Some? ==> r.value < |users| && Matches(users[r.value], q)
    ensures r.Some? ==> forall j :: 0 <= j < r.value ==> !Matches(users[j], q)
    ensures r.None? ==> forall j :: 0 <= j < |users| ==> !Matches(users[j], q)
  {
    if |users| == 0 then None
    else if Matches(users[0], q) then Some(0)
    else
      match FindFirst(users[1..], q)
      case None => None
      case Some(k) => Some(k + 1)
  }

  /** What findOne(q) / findById(id) hands its callback: an error, null, or a document. */
  function Lookup(users: seq<User>, q: Query, fault: bool): (r: Result<Option<User>, Fault>)
    ensures fault <==> r == Err(LookupFailed)
    ensures r.Ok? && r.value.Some? ==> r.value.value in users && Matches(r.value.value, q)
    ensures r.Ok? ==> (r.value.None? <==> forall j :: 0 <= j < |users| ==> !Matches(users[j], q))
  {
    if fault then Err(LookupFailed)
    else
      match FindFirst(users, q)
      case None => Ok(None)
      case Some(k) => Ok(Some(users[k]))
  }

  /** Appending a document that matches after documents that do not: a lookup finds the new one. */
  lemma {:induction false} FindFirstAppend(users: seq<User>, u: User, q: Query)
    ensures FindFirst(users + [u], q) ==
      if FindFirst(users, q).Some? then FindFirst(users, q)
      else if Matches(u, q) then Some(|users|)
      else None
  {
    if |users| > 0 {
      assert (users + [u])[1..] == users[1..] + [u];
      FindFirstAppend(users[1..], u, q);
    }
  }

  /** A lookup sees only what the filter looks at: tables that agree on it agree on the answer. */
  lemma {:induction false} FindFirstAgrees(a: seq<User>, b: seq<User>, q: Query)
    requires |a| == |b|
    requires forall j :: 0 <= j < |a| ==> (Matches(a[j], q) <==> Matches(b[j], q))
    ensures FindFirst(a, q) == FindFirst(b, q)
  {
    if |a| > 0 {
      FindFirstAgrees(a[1..], b[1..], q);
    }
  }

  // Invariants of the stored table.

  /** Every `_id` was handed out before the counter reached its current value. */
  ghost predicate IdsBelow(users: seq<User>, nextId: Id)
  {
    forall j :: 0 <= j < |users| ==> users[j].id < nextId
  }

  ghost predicate IdsDistinct(users: seq<User>)
  {
    forall i, j :: 0 <= i < j < |users| ==> users[i].id != users[j].id
  }

  /** What the database guarantees of `_id`: fresh on every insert, so never shared. */
  ghost predicate WellFormed(users: seq<User>, nextId: Id)
  {
    IdsBelow(users, nextId) && IdsDistinct(users)
  }

  predicate SameKey(a: Option<string>, b: Option<string>)
  {
    a.Some? && a == b
  }

  /** Two documents that a username, Slack, Google or Outlook lookup cannot tell apart. */
  predicate Collide(u: User, v: User)
  {
    || SameKey(u.username, v.username)
    || SameKey(u.slackID, v.slackID)
    || SameKey(u.googleID, v.googleID)
    || SameKey(u.outlookID, v.outlookID)
  }

  /**
   * No two documents share a username or a provider ID. The schema does not declare this;
   * the signup and find-or-create paths keep it, one request at a time.
   */
  ghost predicate KeysUnique(users: seq<User>)
  {
    forall i, j :: 0 <= i < j < |users| ==> !Collide(users[i], users[j])
  }

  /** No two documents share a username: what the local strategy's lookup needs. */
  ghost predicate UsernamesUnique(users: seq<User>)
  {
    forall i, j :: 0 <= i < j < |users| ==> !SameKey(users[i].username, users[j].username)
  }

  /** Every document with a username has a password hash: the local strategy can compare against it. */
  ghost predicate LocalAccountsHashed(users: seq<User>)
  {
    forall j :: 0 <= j < |users| && users[j].username.Some? ==> users[j].password.Some?
  }

  /** A lookup by an `_id`, or by a key the table keeps unique, finds the one document that has it. */
  lemma FindFirstIsOnly(users: seq<User>, q: Query, i: nat)
    requires i < |users| && Matches(users[i], q)
    requires q.ById? ==> IdsDistinct(users)
    requires q.ByUsername? ==> UsernamesUnique(users)
    requires !q.ById? && !q.ByUsername? ==> KeysUnique(users)
    ensures FindFirst(users, q) == Some(i)
  {
    var k := FindFirst(users, q).value;
    assert k <= i;
    assert Matches(users[k], q);
    if q.ById? {
      assert users[k].id == users[i].id;
    } else if q.ByUsername? {
      assert k < i ==> SameKey(users[k].username, users[i].username);
    } else {
      assert k < i ==> Collide(users[k], users[i]);
    }
  }

  /** A call's answer together with the table and the id counter after it. */
  datatype Outcome<R> = Outcome(result: R, users: seq<User>, nextId: Id)

  /**
   * `User.create(d)` / `new User(d).save()`: the schema validates the draft, then the
   * database stores it under a fresh `_id` unless the write fails.
   */
  function Insert(users: seq<User>, nextId: Id, d: Draft, fault: bool): (o: Outcome<Result<User, Fault>>)
    ensures o.result.Ok? <==> !fault && Instantiate(nextId, d).Ok?
    ensures o.result.Ok? ==> o.users == users + [o.result.value] && o.nextId == nextId + 1
    ensures o.result.Ok? ==> Carries(o.result.value, nextId, d)
    ensures o.result.Err? ==> o.users == users && o.nextId == nextId
    ensures WellFormed(users, nextId) ==> WellFormed(o.users, o.nextId)
  {
    match Instantiate(nextId, d)
    case Err(e) => Outcome(Err(Invalid(e)), users, nextId)
    case Ok(u) =>
      if fault then Outcome(Err(WriteFailed), users, nextId)
      else Outcome(Ok(u), users + [u], nextId + 1)
  }

  /** `findByIdAndUpdate(id, {name})`: the document with that `_id` gets the new name; nothing else changes. */
  function Rename(users: seq<User>, id: Id, name: string): (r: seq<User>)
    ensures |r| == |users|
    ensures forall j :: 0 <= j < |users| ==>
      r[j] == if FindFirst(users, ById(id)) == Some(j) then users[j].(name := Some(name)) else users[j]
  {
    match FindFirst(users, ById(id))
    case None => users
    case Some(k) => users[k := users[k].(name := Some(name))]
  }

  /** The User collection: the table that every strategy and the signup handler share. */
  class UserCollection {
    var users: seq<User>
    var nextId: Id

    ghost predicate Valid()
      reads this
    {
      WellFormed(users, nextId)
    }

    constructor ()
      ensures Valid() && users == []
    {
      users := [];
      nextId := 0;
    }

    /** findOne(q) / findById(id): reads the table and changes nothing. */
    method FindOne(q: Query, fault: bool) returns (r: Result<Option<User>, Fault>)
      ensures r == Lookup(users, q, fault)
    {
      if fault {
        r := Err(LookupFailed);
      } else {
        var k := FindFirst(users, q);
        r := if k.Some? then Ok(Some(users[k.value])) else Ok(None);
      }
    }

    method Create(d: Draft, fault: bool) returns (r: Result<User, Fault>)
      requires Valid()
      modifies this
      ensures Valid()
      ensures Outcome(r, users, nextId) == Insert(old(users), old(nextId), d, fault)
    {
      var built := Instantiate(nextId, d);
      if built.Err? {
        r := Err(Invalid(built.error));
      } else if fault {
        r := Err(WriteFailed);
      } else {
        r := Ok(built.value);
        users := users + [built.value];
        nextId := nextId + 1;
      }
    }

    /** findByIdAndUpdate(id, {name}); answers with the document as now stored, or none. */
    method SetName(id: Id, name: string) returns (r: Option<User>)
      requires Valid()
      modifies this
      ensures Valid() && nextId == old(nextId)
      ensures users == Rename(old(users), id, name)
      ensures r.None? <==> FindFirst(old(users), ById(id)).None?
      ensures r.Some? ==> r.value == users[FindFirst(old(users), ById(id)).value]
    {
      var k := FindFirst(users, ById(id));
      if k.Some? {
        users := users[k.value := users[k.value].(name := Some(name))];
        r := Some(users[k.value]);
      } else {
        r := None;
      }
    }
  }
}
