/**
 * The user service: creating a user, reading one by key or by email, and
 * deleting one, over the users table of a session.  Each operation is a
 * function from the committed tables to a reply (and, for the writes, the new
 * state), and the writes are also methods on a `Session` proved against it.
 */
module UsersService {
  import opened Wrappers
  import opened PyValues
  import opened Models
  import opened Store

  /** What a service call ends in: a value, an `HTTPException` with its status
      and detail, or another exception escaping to the framework. */
  datatype Reply<+T> = Ok(value: T) | HttpError(status: nat, detail: string) | Raised(exc: Exception)

  // ---------------------------------------------------------------- queries

  /** `query(User).filter_by(id=id).first()`, as the position of the row. */
  function IndexById(users: seq<User>, id: nat): (r: Option<nat>)
    ensures r.Some? ==> r.value < |users| && users[r.value].id == Some(id)
    ensures r.None? <==> !HasUser(users, id)
  {
    if users == [] then None
    else if users[0].id == Some(id) then Some(0)
    else
      match IndexById(users[1..], id)
      case Some(k) => Some(k + 1)
      case None =>
        assert forall k :: 0 < k < |users| ==> users[k] == users[1..][k - 1];
        None
  }

  /** True when some user has this email. */
  predicate HasEmail(users: seq<User>, email: string) {
    exists k :: 0 <= k < |users| && users[k].email == email
  }

  /** `query(User).filter_by(email=email).first()`, as the position of the row. */
  function IndexByEmail(users: seq<User>, email: string): (r: Option<nat>)
    ensures r.Some? ==> r.value < |users| && users[r.value].email == email
    ensures r.None? <==> !HasEmail(users, email)
  {
    if users == [] then None
    else if users[0].email == email then Some(0)
    else
      match IndexByEmail(users[1..], email)
      case Some(k) => Some(k + 1)
      case None =>
        assert forall k :: 0 < k < |users| ==> users[k] == users[1..][k - 1];
        None
  }

  /** On a table whose keys and emails are unique, each query finds the one row
      that carries what it asks for. */
  lemma QueriesFindTheRow(users: seq<User>, k: nat)
    requires UserRowsValid(users) && k < |users|
    ensures IndexById(users, users[k].id.value) == Some(k)
    ensures IndexByEmail(users, users[k].email) == Some(k)
  {
  }

  // ---------------------------------------------------------------- get_user_by_id

  /** `get_user_by_id`.  A caller who is not ADMIN passes only for their own
      record; the check reads the found user's key before the not-found check,
      so a non-ADMIN asking for a key no user has gets AttributeError. */
  function GetUserById(users: seq<User>, userId: nat, caller: User): (r: Reply<User>)
    requires caller.id.Some?
    ensures r.Ok? ==> r.value in users && r.value.id == Some(userId)
    ensures || r.Ok? || r == HttpError(401, "Action not permitted") || r == HttpError(404, "User not found")
            || r == Raised(AttributeError)
  {
    var found := IndexById(users, userId);
    if caller.role != ADMIN then
      match found
      case None => Raised(AttributeError)
      case Some(k) =>
        if caller.id != users[k].id then HttpError(401, "Action not permitted") else Ok(users[k])
    else
      match found
      case None => HttpError(404, "User not found")
      case Some(k) => Ok(users[k])
  }

  /** Who sees what: a user record is returned exactly when it exists and the
      caller is ADMIN or is that user; a missing record is 404 for an ADMIN and an
      AttributeError for anyone else; another user's record is 401. */
  lemma GetUserByIdAccess(users: seq<User>, userId: nat, caller: User)
    requires caller.id.Some?
    ensures var r := GetUserById(users, userId, caller);
      && (r.Ok? <==> HasUser(users, userId) && (caller.role == ADMIN || caller.id == Some(userId)))
      && (r.Ok? ==> r.value in users && r.value.id == Some(userId))
      && (r == HttpError(401, "Action not permitted") <==> HasUser(users, userId) && caller.role != ADMIN && caller.id != Some(userId))
      && (r == HttpError(404, "User not found") <==> !HasUser(users, userId) && caller.role == ADMIN)
      && (r == Raised(AttributeError) <==> !HasUser(users, userId) && caller.role != ADMIN)
  {
  }

  // ---------------------------------------------------------------- get_user_by_email

  /** `get_user_by_email`: the user with that email, or 404. */
  function GetUserByEmail(users: seq<User>, email: string): (r: Reply<User>)
    ensures r.Ok? || r == HttpError(404, "User not found")
    ensures r.Ok? <==> HasEmail(users, email)
    ensures r.Ok? ==> r.value in users && r.value.email == email
  {
    match IndexByEmail(users, email)
    case None => HttpError(404, "User not found")
    case Some(k) => Ok(users[k])
  }

  /** On a valid table the lookup by email returns exactly the user with that email. */
  lemma GetUserByEmailExact(users: seq<User>, email: string)
    requires UserRowsValid(users)
    ensures GetUserByEmail(users, email).Ok? <==> HasEmail(users, email)
    ensures forall k :: 0 <= k < |users| && users[k].email == email ==> GetUserByEmail(users, email) == Ok(users[k])
  {
    forall k | 0 <= k < |users| && users[k].email == email
      ensures GetUserByEmail(users, email) == Ok(users[k])
    {
      QueriesFindTheRow(users, k);
    }
  }

  // ---------------------------------------------------------------- create_user

  /** The request `create_user` reads: `role` is None when the request object has
      no `role` attribute, as with every request built from the `CreateUser` schema. */
  datatype CreateUserRequest = CreateUserRequest(username: string, email: string, password: string, role: Option<Role>)

  /** The message prefix of the exception a failed insert raises. */
  const CreateFailed: string := "Failed to create user"

  /** `create_user` on committed tables `t`: the reply and the committed tables
      afterwards.  `hashed` is what the password hasher returned (it salts at
      random, so it is a parameter), `storeFails` says whether the database
      rejects the commit for a reason outside the model. */
  function CreateUser(t: Tables, req: CreateUserRequest, hashed: string, storeFails: bool): (r: (Reply<User>, Tables))
    ensures !r.0.Ok? ==> r.1 == t
    ensures r.0.Ok? ==> r.0.value.id == Some(t.nextUserId) && r.1.users == t.users + [r.0.value]
  {
    match req.role
    case None => (Raised(AttributeError), t)
    case Some(role) =>
      var t' := InsertUser(t, NewUser(req.username, req.email, hashed, role));
      if storeFails || !Constraints(t') then (Raised(PlainException(CreateFailed)), t)
      else (Ok(t'.users[|t'.users| - 1]), t')
  }

  /** A request with a role creates the user exactly when neither its username
      nor its email is taken (and the database does not fail); the new row holds
      what was asked, the hashed password and a fresh key, and can then be found
      by its email. */
  lemma CreateUserOutcome(t: Tables, req: CreateUserRequest, hashed: string)
    requires WellFormed(t) && req.role.Some?
    ensures var r := CreateUser(t, req, hashed, false);
      && (r.0.Ok? <==> forall k :: 0 <= k < |t.users| ==> t.users[k].username != req.username && t.users[k].email != req.email)
      && (r.0.Ok? ==>
            && r.0.value == User(Some(t.nextUserId), req.username, req.email, hashed, req.role.value)
            && WellFormed(r.1)
            && GetUserByEmail(r.1.users, req.email) == Ok(r.0.value))
      && (!r.0.Ok? ==> r.0 == Raised(PlainException(CreateFailed)))
  {
    var u := NewUser(req.username, req.email, hashed, req.role.value);
    InsertUserConstraints(t, u);
    var r := CreateUser(t, req, hashed, false);
    if r.0.Ok? {
      GetUserByEmailExact(r.1.users, req.email);
      assert r.1.users[|r.1.users| - 1] == r.0.value;
    }
  }

  /** As written, a request built from the `CreateUser` schema, which declares no
      `role`, makes `create_user` raise AttributeError and store nothing. */
  lemma CreateUserWithoutRoleRaises(t: Tables, req: CreateUserRequest, hashed: string, storeFails: bool)
    requires req.role.None?
    ensures CreateUser(t, req, hashed, storeFails) == (Raised(AttributeError), t)
  {
  }

  /** `create_user` as evidently intended: a request without a role gets the
      column default, USER. */
  function CreateUserAsIntended(t: Tables, req: CreateUserRequest, hashed: string, storeFails: bool): (r: (Reply<User>, Tables))
    ensures !r.0.Ok? ==> r.1 == t
  {
    CreateUser(t, req.(role := Some(req.role.GetOr(DefaultRole))), hashed, storeFails)
  }

  /** With the default applied, a schema request with a fresh username and email
      creates a USER. */
  lemma CreateUserAsIntendedDefaultsToUser(t: Tables, req: CreateUserRequest, hashed: string)
    requires WellFormed(t) && req.role.None?
    requires forall k :: 0 <= k < |t.users| ==> t.users[k].username != req.username && t.users[k].email != req.email
    ensures var r := CreateUserAsIntended(t, req, hashed, false);
      r.0 == Ok(User(Some(t.nextUserId), req.username, req.email, hashed, USER)) && WellFormed(r.1)
  {
    CreateUserOutcome(t, req.(role := Some(USER)), hashed);
  }

  // ---------------------------------------------------------------- delete_user

  /** `delete_user` on committed tables `t`: the reply and the session's pending
      tables afterwards.  The role check reads the TARGET user's role, before the
      not-found check; a failed commit answers 500 and is not rolled back, so the
      pending state keeps the deletion while the committed state is `t`. */
  function DeleteUser(t: Tables, userId: nat, storeFails: bool): (r: (Reply<string>, Tables))
    ensures r.0 == Raised(AttributeError) <==> !HasUser(t.users, userId)
    ensures r.0.Ok? || r.0 == HttpError(500, "An internal error occurred") ==>
      && HasUser(t.users, userId)
      && |r.1.users| == |t.users| - 1
      && r.1.networks == t.networks && r.1.edges == t.edges
    ensures !r.0.Ok? && r.0 != HttpError(500, "An internal error occurred") ==> r.1 == t
  {
    match IndexById(t.users, userId)
    case None => (Raised(AttributeError), t)
    case Some(k) =>
      if t.users[k].role != ADMIN then (HttpError(401, "Action not permitted"), t)
      else
        var t' := RemoveUserAt(t, k);
        if storeFails || !Constraints(t') then (HttpError(500, "An internal error occurred"), t')
        else (Ok("User deleted successfully"), t')
  }

  /** True when the user owns no network and no edge. */
  predicate OwnsNothing(t: Tables, userId: nat) {
    && (forall j :: 0 <= j < |t.networks| ==> t.networks[j].userId != userId)
    && (forall j :: 0 <= j < |t.edges| ==> t.edges[j].userId != userId)
  }

  /** As written, only ADMIN users can be deleted, whoever asks: deleting any
      other user is refused with 401. */
  lemma DeleteUserRefusesNonAdminTarget(t: Tables, k: nat, storeFails: bool)
    requires WellFormed(t) && k < |t.users| && t.users[k].role != ADMIN
    ensures DeleteUser(t, t.users[k].id.value, storeFails) == (HttpError(401, "Action not permitted"), t)
  {
    QueriesFindTheRow(t.users, k);
  }

  /** As written, a key no user has raises AttributeError: the 404 reply is unreachable. */
  lemma DeleteUserMissingCrashes(t: Tables, userId: nat, storeFails: bool)
    requires !HasUser(t.users, userId)
    ensures DeleteUser(t, userId, storeFails).0 == Raised(AttributeError)
    ensures forall sf :: DeleteUser(t, userId, sf).0 != HttpError(404, "User not found")
  {
  }

  /** Deleting an existing ADMIN is committed exactly when they own nothing (a
      network or edge still pointing at them fails the commit); afterwards the
      user is gone and the tables are still well formed. */
  lemma DeleteUserCommitsExactly(t: Tables, k: nat)
    requires WellFormed(t) && k < |t.users| && t.users[k].role == ADMIN
    ensures var id := t.users[k].id.value;
      var r := DeleteUser(t, id, false);
      && (r.0.Ok? <==> OwnsNothing(t, id))
      && (r.0.Ok? ==> WellFormed(r.1) && !HasUser(r.1.users, id))
      && (r.0.Ok? ==> r.1.users == t.users[..k] + t.users[k + 1..] && r.1.networks == t.networks && r.1.edges == t.edges)
      && (r.0.Ok? ==> forall other: nat :: HasUser(r.1.users, other) <==> HasUser(t.users, other) && other != id)
      && (!r.0.Ok? ==> r.0 == HttpError(500, "An internal error occurred"))
  {
    var id := t.users[k].id.value;
    QueriesFindTheRow(t.users, k);
    RemoveUserConstraints(t, k);
    forall other: nat ensures HasUser(RemoveUserAt(t, k).users, other) <==> HasUser(t.users, other) && other != id {
      RemovedUserPresence(t.users, k, other);
    }
  }

  /** `delete_user` as the API's contract evidently intends: the CALLER must be
      ADMIN, and a missing user is 404. */
  function DeleteUserAsIntended(t: Tables, userId: nat, caller: User, storeFails: bool): (r: (Reply<string>, Tables))
    ensures caller.role != ADMIN ==> r == (HttpError(401, "Action not permitted"), t)
  {
    if caller.role != ADMIN then (HttpError(401, "Action not permitted"), t)
    else
      match IndexById(t.users, userId)
      case None => (HttpError(404, "User not found"), t)
      case Some(k) =>
        var t' := RemoveUserAt(t, k);
        if storeFails || !Constraints(t') then (HttpError(500, "An internal error occurred"), t')
        else (Ok("User deleted successfully"), t')
  }

  /** An ADMIN deletes a user of any role who owns nothing; the user is then gone,
      and reading them back is 404. */
  lemma DeleteUserAsIntendedLetsAdminDelete(t: Tables, k: nat, caller: User)
    requires WellFormed(t) && k < |t.users| && caller.role == ADMIN && caller.id.Some?
    requires OwnsNothing(t, t.users[k].id.value)
    ensures var id := t.users[k].id.value;
      var r := DeleteUserAsIntended(t, id, caller, false);
      && r.0 == Ok("User deleted successfully")
      && WellFormed(r.1)
      && r.1.users == t.users[..k] + t.users[k + 1..] && r.1.networks == t.networks && r.1.edges == t.edges
      && (forall other: nat :: HasUser(r.1.users, other) <==> HasUser(t.users, other) && other != id)
      && GetUserById(r.1.users, id, caller) == HttpError(404, "User not found")
  {
    var id := t.users[k].id.value;
    QueriesFindTheRow(t.users, k);
    RemoveUserConstraints(t, k);
    forall other: nat ensures HasUser(RemoveUserAt(t, k).users, other) <==> HasUser(t.users, other) && other != id {
      RemovedUserPresence(t.users, k, other);
    }
  }

  /** An ADMIN asking to delete a key no user has gets 404 and nothing changes. */
  lemma DeleteUserAsIntendedMissingNotFound(t: Tables, userId: nat, caller: User, storeFails: bool)
    requires caller.role == ADMIN && !HasUser(t.users, userId)
    ensures DeleteUserAsIntended(t, userId, caller, storeFails) == (HttpError(404, "User not found"), t)
  {
  }

  // ---------------------------------------------------------------- on a session

  /** `create_user` on a session: add, commit, and roll back when the commit fails. */
  method CreateUserIn(db: Session, req: CreateUserRequest, hashed: string, storeFails: bool) returns (reply: Reply<User>)
    requires db.Valid() && db.tables == db.committed
    modifies db
    ensures db.Valid() && db.tables == db.committed
    ensures (reply, db.committed) == CreateUser(old(db.committed), req, hashed, storeFails)
  {
    if req.role.None? {
      return Raised(AttributeError);
    }
    var user := NewUser(req.username, req.email, hashed, req.role.value);
    db.AddUser(user);
    var ok := db.Commit(storeFails);
    if !ok {
      db.Rollback();
      return Raised(PlainException(CreateFailed));
    }
    return Ok(db.tables.users[|db.tables.users| - 1]);
  }

  /** `delete_user` on a session: find, check, delete, commit; no rollback. */
  method DeleteUserIn(db: Session, userId: nat, storeFails: bool) returns (reply: Reply<string>)
    requires db.Valid() && db.tables == db.committed
    modifies db
    ensures db.Valid()
    ensures (reply, db.tables) == DeleteUser(old(db.committed), userId, storeFails)
    ensures db.committed == if reply.Ok? then db.tables else old(db.committed)
  {
    var found := IndexById(db.tables.users, userId);
    if found.None? {
      return Raised(AttributeError);
    }
    var k := found.value;
    if db.tables.users[k].role != ADMIN {
      return HttpError(401, "Action not permitted");
    }
    db.DeleteUserAt(k);
    var ok := db.Commit(storeFails);
    if !ok {
      return HttpError(500, "An internal error occurred");
    }
    return Ok("User deleted successfully");
  }
}
