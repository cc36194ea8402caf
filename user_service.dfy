/** Accounts: registration by an administrator, login with a stored refresh token, token
    refresh, logout, self-service and administrative updates, and deletion. Password hashing
    and checking, token minting and token verification are library calls and are passed in:
    `hash`, `checkPassword`, `mintAccess`/`mintRefresh` and `verifyToken`. */
module UserService {
  import opened Common
  import opened Users
  import opened BaseService

  /** A token payload: `sub` (login id), `user_id` and `ibk_id`, each possibly absent. */
  datatype Claims = Claims(sub: Option<string>, userId: Option<nat>, ibkId: Option<string>)

  function ClaimsOf(u: UserRow): Claims {
    Claims(Some(u.loginId), Some(u.id), Some(u.ibkId))
  }

  /** A user to register; `activate` is absent when the caller did not give one. */
  datatype NewUser = NewUser(loginId: string, ibkId: string, name: string, password: string,
                             hiearchy: string, systemRole: string, teamId: Option<int>, activate: Option<string>)

  /** The fields an update sets; an absent field is one the caller did not send. */
  datatype UserChanges = UserChanges(loginId: Option<string>, ibkId: Option<string>, name: Option<string>,
                                     password: Option<string>, hiearchy: Option<string>, systemRole: Option<string>,
                                     teamId: Option<int>, activate: Option<string>)

  datatype LoginReply = LoginReply(accessToken: string, refreshToken: string, tokenType: string,
                                   userId: nat, userName: string, systemRole: string)

  datatype RefreshReply = RefreshReply(accessToken: string, tokenType: string)

  // ---- register_user ----

  /** The checks of `register_user`, in order: administrator, free login id, free IBK id. */
  function RegisterCheck(users: seq<UserRow>, currentUserId: nat, u: NewUser): (r: Outcome)
    ensures CheckSystemAdmin(users, currentUserId).Failure? ==> r == Fail(CheckSystemAdmin(users, currentUserId).error)
    ensures r == Pass <==> CheckSystemAdmin(users, currentUserId).Success?
                           && (forall i :: 0 <= i < |users| ==> users[i].loginId != u.loginId)
                           && (forall i :: 0 <= i < |users| ==> users[i].ibkId != u.ibkId)
    ensures r.Fail? ==> r.error in {ValueError, PermissionError}
    ensures CheckSystemAdmin(users, currentUserId).Success? && r.Fail? ==> r.error == ValueError
  {
    if CheckSystemAdmin(users, currentUserId).Failure? then Fail(CheckSystemAdmin(users, currentUserId).error)
    else if FindByLoginId(users, u.loginId).Some? then Fail(ValueError)
    else if FindByIbkId(users, u.ibkId).Some? then Fail(ValueError)
    else Pass
  }

  /** The row `create_user` inserts: the hashed password, 'T' unless told otherwise, no refresh token. */
  function NewRow(id: nat, u: NewUser, hashed: string): UserRow {
    UserRow(id, u.loginId, u.ibkId, u.name, hashed, u.hiearchy, u.systemRole, u.teamId,
            if u.activate.Some? then u.activate.value else "T", None)
  }

  /** A registration that passes its checks keeps login ids and IBK ids unique. */
  lemma RegisterKeepsUnique(users: seq<UserRow>, currentUserId: nat, u: NewUser, id: nat, hashed: string)
    requires LoginIdsUnique(users) && IbkIdsUnique(users)
    requires RegisterCheck(users, currentUserId, u) == Pass
    ensures LoginIdsUnique(users + [NewRow(id, u, hashed)]) && IbkIdsUnique(users + [NewRow(id, u, hashed)])
  {
    var all := users + [NewRow(id, u, hashed)];
    forall i, j | 0 <= i < j < |all|
      ensures all[i].loginId != all[j].loginId && all[i].ibkId != all[j].ibkId
    {
      if j == |users| {
        assert all[i] == users[i];
      }
    }
  }

  // ---- login_user ----

  /** `login_user`: a known, active account whose password checks out gets fresh tokens. */
  function LoginOutcome(users: seq<UserRow>, loginId: string, password: string,
                        checkPassword: (string, string) -> bool,
                        mintAccess: Claims -> string, mintRefresh: Claims -> string): (r: Result<LoginReply>)
    ensures r.Failure? ==> r.error == HttpError(400)
    ensures r.Success? <==> FindByLoginId(users, loginId).Some?
                            && FindByLoginId(users, loginId).value.activate == "T"
                            && checkPassword(password, FindByLoginId(users, loginId).value.password)
    ensures r.Success? ==>
              var u := FindByLoginId(users, loginId).value;
              && u in users && u.loginId == loginId
              && r.value == LoginReply(mintAccess(ClaimsOf(u)), mintRefresh(ClaimsOf(u)), "bearer", u.id, u.name, u.systemRole)
  {
    match FindByLoginId(users, loginId)
    case None => Failure(HttpError(400))
    case Some(u) =>
      if u.activate != "T" then Failure(HttpError(400))
      else if !checkPassword(password, u.password) then Failure(HttpError(400))
      else Success(LoginReply(mintAccess(ClaimsOf(u)), mintRefresh(ClaimsOf(u)), "bearer", u.id, u.name, u.systemRole))
  }

  // ---- refresh_token ----

  /** `refresh_token`: the token must be non-empty, verify, name an active user, and be the
      token stored for that user; the new access token carries the same claims. */
  function RefreshOutcome(users: seq<UserRow>, token: string, verifyToken: string -> Option<Claims>,
                          mintAccess: Claims -> string): (r: Result<RefreshReply>)
    ensures token == "" ==> r == Failure(HttpError(400))
    ensures token != "" && r.Failure? ==> r.error == HttpError(401)
    ensures r.Success? <==>
              && token != "" && verifyToken(token).Some? && verifyToken(token).value.userId.Some?
              && var user := FindById(users, verifyToken(token).value.userId.value);
                 user.Some? && user.value.activate == "T" && user.value.refreshToken == Some(token)
    ensures r.Success? ==> r.value == RefreshReply(mintAccess(verifyToken(token).value), "bearer")
  {
    if token == "" then Failure(HttpError(400))
    else match verifyToken(token)
      case None => Failure(HttpError(401))
      case Some(claims) =>
        var user := if claims.userId.Some? then FindById(users, claims.userId.value) else None;
        if user.None? || user.value.activate != "T" then Failure(HttpError(401))
        else if user.value.refreshToken != Some(token) then Failure(HttpError(401))
        else Success(RefreshReply(mintAccess(claims), "bearer"))
  }

  /** After a successful login, refreshing with the issued refresh token succeeds, provided
      the token library verifies what it minted. */
  lemma LoginThenRefresh(users: seq<UserRow>, nextId: nat, loginId: string, password: string,
                         checkPassword: (string, string) -> bool, mintAccess: Claims -> string,
                         mintRefresh: Claims -> string, verifyToken: string -> Option<Claims>)
    requires IdsIncreasing(users, nextId)
    requires LoginOutcome(users, loginId, password, checkPassword, mintAccess, mintRefresh).Success?
    requires forall c :: verifyToken(mintRefresh(c)) == Some(c) && mintRefresh(c) != ""
    ensures var reply := LoginOutcome(users, loginId, password, checkPassword, mintAccess, mintRefresh).value;
            var after := UpdateRow(users, reply.userId, WithRefreshToken(Some(reply.refreshToken)));
            RefreshOutcome(after, reply.refreshToken, verifyToken, mintAccess).Success?
  {
    var reply := LoginOutcome(users, loginId, password, checkPassword, mintAccess, mintRefresh).value;
    var u := FindByLoginId(users, loginId).value;
    var i :| 0 <= i < |users| && users[i] == u;
    FindByIdAt(users, nextId, i);
    FindAfterUpdate(users, nextId, reply.userId, WithRefreshToken(Some(reply.refreshToken)));
    assert verifyToken(reply.refreshToken) == Some(ClaimsOf(u));
  }

  /** After logout, no token that names that user refreshes any more. */
  lemma LogoutThenRefreshFails(users: seq<UserRow>, nextId: nat, userId: nat, token: string,
                               verifyToken: string -> Option<Claims>, mintAccess: Claims -> string)
    requires IdsIncreasing(users, nextId)
    requires verifyToken(token).Some? && verifyToken(token).value.userId == Some(userId)
    ensures RefreshOutcome(UpdateRow(users, userId, WithRefreshToken(None)), token, verifyToken, mintAccess).Failure?
  {
    FindAfterUpdate(users, nextId, userId, WithRefreshToken(None));
  }

  // ---- update_user ----

  /** The fields a non-administrator may not change. */
  datatype RestrictedField = SystemRoleField | ActivateField | HiearchyField | TeamIdField

  const RestrictedFields: seq<RestrictedField> := [SystemRoleField, ActivateField, HiearchyField, TeamIdField]

  /** `user_dict.pop(field, None)`. */
  function Pop(c: UserChanges, f: RestrictedField): UserChanges {
    match f
    case SystemRoleField => c.(systemRole := None)
    case ActivateField => c.(activate := None)
    case HiearchyField => c.(hiearchy := None)
    case TeamIdField => c.(teamId := None)
  }

  function PopAll(c: UserChanges, fs: seq<RestrictedField>): UserChanges
    decreases |fs|
  {
    if fs == [] then c else PopAll(Pop(c, fs[0]), fs[1..])
  }

  lemma {:induction false} PopAllAppend(c: UserChanges, fs: seq<RestrictedField>, f: RestrictedField)
    ensures PopAll(c, fs + [f]) == Pop(PopAll(c, fs), f)
    decreases |fs|
  {
    if fs == [] {
      assert [] + [f] == [f];
    } else {
      assert (fs + [f])[1..] == fs[1..] + [f];
      PopAllAppend(Pop(c, fs[0]), fs[1..], f);
    }
  }

  /** Popping the restricted fields clears exactly those four and keeps the rest. */
  lemma PopRestricted(c: UserChanges)
    ensures var d := PopAll(c, RestrictedFields);
            && d.systemRole.None? && d.activate.None? && d.hiearchy.None? && d.teamId.None?
            && d.loginId == c.loginId && d.ibkId == c.ibkId && d.name == c.name && d.password == c.password
  {
    assert RestrictedFields[1..][1..][1..][1..] == [];
  }

  /** The `pop` loop of `update_user` over the restricted field names. */
  method DropRestricted(c: UserChanges) returns (d: UserChanges)
    ensures d == PopAll(c, RestrictedFields)
  {
    d := c;
    var i := 0;
    while i < |RestrictedFields|
      invariant 0 <= i <= |RestrictedFields|
      invariant d == PopAll(c, RestrictedFields[..i])
    {
      PopAllAppend(c, RestrictedFields[..i], RestrictedFields[i]);
      assert RestrictedFields[..i + 1] == RestrictedFields[..i] + [RestrictedFields[i]];
      d := Pop(d, RestrictedFields[i]);
      i := i + 1;
    }
    assert RestrictedFields[..i] == RestrictedFields;
  }

  /** The changes actually sent: restricted fields dropped for a non-administrator, and a
      non-empty password replaced by its hash. */
  function EffectiveChanges(c: UserChanges, isAdmin: bool, hash: string -> string): UserChanges {
    var d := if isAdmin then c else PopAll(c, RestrictedFields);
    if d.password.Some? && d.password.value != "" then d.(password := Some(hash(d.password.value))) else d
  }

  /** The set fields written over a row. */
  function ApplyChanges(c: UserChanges): UserRow -> UserRow {
    (u: UserRow) => UserRow(
      u.id,
      if c.loginId.Some? then c.loginId.value else u.loginId,
      if c.ibkId.Some? then c.ibkId.value else u.ibkId,
      if c.name.Some? then c.name.value else u.name,
      if c.password.Some? then c.password.value else u.password,
      if c.hiearchy.Some? then c.hiearchy.value else u.hiearchy,
      if c.systemRole.Some? then c.systemRole.value else u.systemRole,
      if c.teamId.Some? then c.teamId else u.teamId,
      if c.activate.Some? then c.activate.value else u.activate,
      u.refreshToken)
  }

  /** `update_user`: both users must exist, the caller must be an administrator or the target,
      and the repository update must report success; the reply is the updated row. */
  function UpdateOutcome(users: seq<UserRow>, currentUserId: nat, userId: nat, c: UserChanges,
                         hash: string -> string, updated: bool): (r: Result<UserRow>)
    ensures FindById(users, currentUserId).None? ==> r == Failure(ValueError)
    ensures FindById(users, currentUserId).Some? && FindById(users, userId).None? ==> r == Failure(ValueError)
    ensures r.Failure? ==> r.error in {ValueError, PermissionError}
    ensures FindById(users, currentUserId).Some? && FindById(users, userId).Some?
            && !(FindById(users, currentUserId).value.systemRole == "SYSTEM" || currentUserId == userId)
            ==> r == Failure(PermissionError)
    ensures FindById(users, currentUserId).Some? && FindById(users, userId).Some?
            && (FindById(users, currentUserId).value.systemRole == "SYSTEM" || currentUserId == userId) && !updated
            ==> r == Failure(ValueError)
    ensures r.Success? <==> FindById(users, currentUserId).Some? && FindById(users, userId).Some?
                            && (FindById(users, currentUserId).value.systemRole == "SYSTEM" || currentUserId == userId)
                            && updated
    ensures r.Success? ==> r.value.id == userId
  {
    match FindById(users, currentUserId)
    case None => Failure(ValueError)
    case Some(current) =>
      match FindById(users, userId)
      case None => Failure(ValueError)
      case Some(target) =>
        var isAdmin := current.systemRole == "SYSTEM";
        if !(isAdmin || currentUserId == userId) then Failure(PermissionError)
        else if !updated then Failure(ValueError)
        else Success(ApplyChanges(EffectiveChanges(c, isAdmin, hash))(target))
  }

  /** A user updating themself without the SYSTEM role cannot change role, activation,
      hierarchy or team; a non-empty new password is stored hashed. */
  lemma SelfUpdateKeepsRestricted(users: seq<UserRow>, userId: nat, c: UserChanges, hash: string -> string)
    requires FindById(users, userId).Some? && FindById(users, userId).value.systemRole != "SYSTEM"
    requires UpdateOutcome(users, userId, userId, c, hash, true).Success?
    ensures var before, after := FindById(users, userId).value, UpdateOutcome(users, userId, userId, c, hash, true).value;
            && after.systemRole == before.systemRole && after.activate == before.activate
            && after.hiearchy == before.hiearchy && after.teamId == before.teamId
            && (c.password.Some? && c.password.value != "" ==> after.password == hash(c.password.value))
            && (c.name.Some? ==> after.name == c.name.value)
  {
    PopRestricted(c);
  }

  /** An administrator's update sets every field it names, and hashes a non-empty password. */
  lemma AdminUpdateSetsFields(users: seq<UserRow>, currentUserId: nat, userId: nat, c: UserChanges, hash: string -> string)
    requires UpdateOutcome(users, currentUserId, userId, c, hash, true).Success?
    requires FindById(users, currentUserId).value.systemRole == "SYSTEM"
    ensures var after := UpdateOutcome(users, currentUserId, userId, c, hash, true).value;
            && (c.systemRole.Some? ==> after.systemRole == c.systemRole.value)
            && (c.activate.Some? ==> after.activate == c.activate.value)
            && (c.teamId.Some? ==> after.teamId == c.teamId)
            && (c.password.Some? && c.password.value != "" ==> after.password == hash(c.password.value))
  {
  }

  // ---- delete_user ----

  /** `delete_user`: an administrator may delete another existing user; `deleted` is what
      the repository's delete reports. */
  function DeleteOutcome(users: seq<UserRow>, currentUserId: nat, userId: nat, deleted: bool): (r: Result<bool>)
    ensures r.Success? <==> CheckSystemAdmin(users, currentUserId).Success? && FindById(users, userId).Some?
                            && currentUserId != userId && deleted
    ensures r.Success? ==> r.value
    ensures CheckSystemAdmin(users, currentUserId).Failure? ==> r == Failure(CheckSystemAdmin(users, currentUserId).error)
    ensures CheckSystemAdmin(users, currentUserId).Success? && r.Failure? ==> r.error == ValueError
  {
    if CheckSystemAdmin(users, currentUserId).Failure? then Failure(CheckSystemAdmin(users, currentUserId).error)
    else if FindById(users, userId).None? then Failure(ValueError)
    else if currentUserId == userId then Failure(ValueError)
    else if !deleted then Failure(ValueError)
    else Success(true)
  }

  /** Nobody can delete themself. */
  lemma NoSelfDelete(users: seq<UserRow>, userId: nat, deleted: bool)
    ensures DeleteOutcome(users, userId, userId, deleted).Failure?
  {
  }

  // ---- the user table ----

  class UserStore {
    var users: seq<UserRow>
    var nextId: nat

    ghost predicate Valid()
      reads this
    {
      IdsIncreasing(users, nextId)
    }

    constructor ()
      ensures Valid() && users == []
    {
      users, nextId := [], 1;
    }

    /** `register_user`. `fails` is a database error in `create_user`, which rolls back and
        re-raises it. */
    method Register(currentUserId: nat, u: NewUser, hash: string -> string, fails: bool) returns (r: Outcome)
      requires Valid()
      modifies this
      ensures Valid()
      ensures RegisterCheck(old(users), currentUserId, u) != Pass ==> r == RegisterCheck(old(users), currentUserId, u)
      ensures RegisterCheck(old(users), currentUserId, u) == Pass ==> r == (if fails then Fail(StorageError) else Pass)
      ensures r == Pass ==> users == old(users) + [NewRow(old(nextId), u, hash(u.password))]
      ensures r != Pass ==> users == old(users)
    {
      r := RegisterCheck(users, currentUserId, u);
      if r != Pass {
        return;
      }
      if fails {
        return Fail(StorageError);
      }
      users := users + [NewRow(nextId, u, hash(u.password))];
      nextId := nextId + 1;
    }

    /** `login_user`: on success the issued refresh token is stored on the user's row.
        `fails` is a database error in `update_refresh_token`, which is re-raised, so no
        tokens are returned. */
    method Login(loginId: string, password: string, checkPassword: (string, string) -> bool,
                 mintAccess: Claims -> string, mintRefresh: Claims -> string, fails: bool) returns (r: Result<LoginReply>)
      requires Valid()
      modifies this
      ensures Valid()
      ensures var o := LoginOutcome(old(users), loginId, password, checkPassword, mintAccess, mintRefresh);
              r == if o.Success? && fails then Failure(StorageError) else o
      ensures r.Success? ==> users == UpdateRow(old(users), r.value.userId, WithRefreshToken(Some(r.value.refreshToken)))
      ensures r.Failure? ==> users == old(users)
    {
      r := LoginOutcome(users, loginId, password, checkPassword, mintAccess, mintRefresh);
      if r.Success? && fails {
        return Failure(StorageError);
      }
      if r.Success? {
        UpdateKeepsIds(users, nextId, r.value.userId, WithRefreshToken(Some(r.value.refreshToken)));
        users := UpdateRow(users, r.value.userId, WithRefreshToken(Some(r.value.refreshToken)));
      }
    }

    /** `refresh_token`. */
    function Refresh(token: string, verifyToken: string -> Option<Claims>, mintAccess: Claims -> string): Result<RefreshReply>
      reads this
    {
      RefreshOutcome(users, token, verifyToken, mintAccess)
    }

    /** `logout_user`: a known user's stored refresh token is cleared. `fails` is a database
        error in `update_refresh_token`, which is re-raised. */
    method Logout(userId: nat, fails: bool) returns (r: Outcome)
      requires Valid()
      modifies this
      ensures Valid()
      ensures r == Pass <==> FindById(old(users), userId).Some? && !fails
      ensures FindById(old(users), userId).None? ==> r == Fail(ValueError)
      ensures FindById(old(users), userId).Some? && fails ==> r == Fail(StorageError)
      ensures r.Fail? ==> users == old(users)
      ensures r == Pass ==> users == UpdateRow(old(users), userId, WithRefreshToken(None))
    {
      if FindById(users, userId).None? {
        return Fail(ValueError);
      }
      if fails {
        return Fail(StorageError);
      }
      UpdateKeepsIds(users, nextId, userId, WithRefreshToken(None));
      users := UpdateRow(users, userId, WithRefreshToken(None));
      r := Pass;
    }

    /** `update_user`, with the restricted fields popped one by one for a non-administrator. */
    method UpdateUser(currentUserId: nat, userId: nat, c: UserChanges, hash: string -> string, updated: bool)
      returns (r: Result<UserRow>)
      requires Valid()
      modifies this
      ensures Valid()
      ensures r == UpdateOutcome(old(users), currentUserId, userId, c, hash, updated)
      ensures r.Success? ==> users == UpdateRow(old(users), userId, ApplyChanges(EffectiveChanges(c,
                                FindById(old(users), currentUserId).value.systemRole == "SYSTEM", hash)))
      ensures r.Failure? ==> users == old(users)
    {
      var current := FindById(users, currentUserId);
      if current.None? {
        return Failure(ValueError);
      }
      var target := FindById(users, userId);
      if target.None? {
        return Failure(ValueError);
      }
      var isAdmin := current.value.systemRole == "SYSTEM";
      if !(isAdmin || currentUserId == userId) {
        return Failure(PermissionError);
      }
      var changes := c;
      if !isAdmin {
        changes := DropRestricted(c);
      }
      if changes.password.Some? && changes.password.value != "" {
        changes := changes.(password := Some(hash(changes.password.value)));
      }
      if !updated {
        return Failure(ValueError);
      }
      UpdateKeepsIds(users, nextId, userId, ApplyChanges(changes));
      FindAfterUpdate(users, nextId, userId, ApplyChanges(changes));
      users := UpdateRow(users, userId, ApplyChanges(changes));
      r := Success(ApplyChanges(changes)(target.value));
    }
  }
}
