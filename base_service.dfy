/** The two checks every service runs before it touches a table. Whether an account is
    active is asked of a separate activation lookup, passed in as `activation`. */
module BaseService {
  import opened Common
  import opened Users

  /** `validate_user`: the user must exist, and then must be active. */
  function ValidateUser(users: seq<UserRow>, activation: nat -> bool, userId: nat): (r: Outcome)
    ensures r == Pass <==> FindById(users, userId).Some? && activation(userId)
    ensures FindById(users, userId).None? ==> r == Fail(ValueError)
    ensures FindById(users, userId).Some? && !activation(userId) ==> r == Fail(PermissionError)
  {
    if FindById(users, userId).None? then Fail(ValueError)
    else if !activation(userId) then Fail(PermissionError)
    else Pass
  }

  /** Existence is checked first: a missing user is a ValueError whatever the activation lookup says. */
  lemma MissingUserIgnoresActivation(users: seq<UserRow>, a1: nat -> bool, a2: nat -> bool, userId: nat)
    requires forall i :: 0 <= i < |users| ==> users[i].id != userId
    ensures ValidateUser(users, a1, userId) == ValidateUser(users, a2, userId) == Fail(ValueError)
  {
  }

  /** `check_system_admin`: the user's own row when its role is 'SYSTEM'. */
  function CheckSystemAdmin(users: seq<UserRow>, userId: nat): (r: Result<UserRow>)
    ensures r.Success? <==> FindById(users, userId).Some? && FindById(users, userId).value.systemRole == "SYSTEM"
    ensures r.Success? ==> r.value in users && r.value.id == userId && r.value.systemRole == "SYSTEM"
    ensures FindById(users, userId).None? ==> r == Failure(ValueError)
    ensures FindById(users, userId).Some? && FindById(users, userId).value.systemRole != "SYSTEM"
            ==> r == Failure(PermissionError)
  {
    match FindById(users, userId)
    case None => Failure(ValueError)
    case Some(user) => if user.systemRole != "SYSTEM" then Failure(PermissionError) else Success(user)
  }

  /** With distinct ids, the admin check passes exactly for a listed row whose role is 'SYSTEM'. */
  lemma AdminCheckOfRow(users: seq<UserRow>, nextId: nat, i: nat)
    requires IdsIncreasing(users, nextId) && i < |users|
    ensures CheckSystemAdmin(users, users[i].id).Success? <==> users[i].systemRole == "SYSTEM"
  {
    FindByIdAt(users, nextId, i);
  }
}
