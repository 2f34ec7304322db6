/**
 * The authorisation guards of the user routes. Listing every user needs
 * the ADMIN permission; reading, updating or deleting one user needs the
 * ADMIN permission or being that user. Every denial is the same 403.
 */
module UsersRouter {
  import opened Wrappers
  import opened Http
  import Rbac

  const Allowed: seq<string> := ["ADMIN"]

  const Denied: HttpError := HttpError(Forbidden, "Not enough permissions")

  /** The user-service call a request reaches once its guard passes. */
  datatype ServiceCall = ListUsers | ReadUser(id: Uuid) | WriteUser(user: UserBody) | RemoveUser(id: Uuid)

  /** The body of an update: the id of the user it rewrites and the new display name. */
  datatype UserBody = UserBody(userId: Uuid, username: string)

  /** `set(current_user.permissions) & set(ALLOWED)` is non-empty. */
  predicate SharesAllowed(perms: seq<string>)
  {
    Rbac.PermissionSet(perms) * (set p | p in Allowed) != {}
  }

  /** `any(p in current_user.permissions for p in ALLOWED)`. */
  predicate AnyAllowed(perms: seq<string>)
  {
    exists i :: 0 <= i < |Allowed| && Allowed[i] in perms
  }

  /** Both tests come down to holding the exact permission "ADMIN". */
  lemma AllowedTests(perms: seq<string>)
    ensures SharesAllowed(perms) <==> "ADMIN" in perms
    ensures AnyAllowed(perms) <==> "ADMIN" in perms
  {
    if "ADMIN" in perms {
      assert "ADMIN" in Rbac.PermissionSet(perms) * (set p | p in Allowed);
      assert Allowed[0] in perms;
    }
  }

  /** `get_user`: the list of users, for holders of an allowed permission only; there is no self exemption. */
  function GetUsers(caller: Caller): (r: Result<ServiceCall, HttpError>)
    ensures r.Ok? <==> "ADMIN" in caller.permissions
    ensures r.Ok? ==> r.value == ListUsers
    ensures r.Err? ==> r.error == Denied
  {
    AllowedTests(caller.permissions);
    if !SharesAllowed(caller.permissions) then Err(Denied) else Ok(ListUsers)
  }

  /**
   * `get_me`: the caller's own record, with no guard. None is needed: the
   * guarded single-user read lets every caller read themselves, whatever
   * their permissions, and makes the same call.
   */
  function GetMe(caller: Caller): (r: ServiceCall)
    ensures GetSingleUser(caller, caller.userId) == Ok(r)
  {
    ReadUser(caller.userId)
  }

  /** `has_permission or is_self` for the user `target`. */
  predicate AdminOrSelf(caller: Caller, target: Uuid)
  {
    AnyAllowed(caller.permissions) || caller.userId == target
  }

  /** `get_single_user`: the user with the path id, for an admin or that user. */
  function GetSingleUser(caller: Caller, id: Uuid): (r: Result<ServiceCall, HttpError>)
    ensures r.Ok? <==> "ADMIN" in caller.permissions || caller.userId == id
    ensures r.Ok? ==> r.value == ReadUser(id)
    ensures r.Err? ==> r.error == Denied
  {
    AllowedTests(caller.permissions);
    if !AdminOrSelf(caller, id) then Err(Denied) else Ok(ReadUser(id))
  }

  /** `put_user`: the id checked is the one in the body, which is also the row rewritten. */
  function PutUser(caller: Caller, user: UserBody): (r: Result<ServiceCall, HttpError>)
    ensures r.Ok? <==> "ADMIN" in caller.permissions || caller.userId == user.userId
    ensures r.Ok? ==> r.value == WriteUser(user)
    ensures r.Err? ==> r.error == Denied
  {
    AllowedTests(caller.permissions);
    if !AdminOrSelf(caller, user.userId) then Err(Denied) else Ok(WriteUser(user))
  }

  /** `delete_user`: the user with the path id, for an admin or that user. */
  function DeleteUser(caller: Caller, id: Uuid): (r: Result<ServiceCall, HttpError>)
    ensures r.Ok? <==> "ADMIN" in caller.permissions || caller.userId == id
    ensures r.Ok? ==> r.value == RemoveUser(id)
    ensures r.Err? ==> r.error == Denied
  {
    AllowedTests(caller.permissions);
    if !AdminOrSelf(caller, id) then Err(Denied) else Ok(RemoveUser(id))
  }

  /** Listing users and the role router admit exactly the same callers. */
  lemma ListingAgreesWithRoleRouter(caller: Caller)
    ensures GetUsers(caller).Ok? <==> Rbac.AdminRequired(caller).Ok?
  {
  }

  /** A caller without ADMIN cannot list users, even though they may read, update and delete themselves. */
  lemma NoSelfExemptionForListing(id: Uuid, name: string)
    ensures GetUsers(Caller(id, ["USER"])) == Err(Denied)
    ensures GetSingleUser(Caller(id, ["USER"]), id) == Ok(ReadUser(id))
    ensures PutUser(Caller(id, ["USER"]), UserBody(id, name)) == Ok(WriteUser(UserBody(id, name)))
    ensures DeleteUser(Caller(id, ["USER"]), id) == Ok(RemoveUser(id))
  {
    assert "USER"[0] != "ADMIN"[0];
  }

  /** Updating another user's body is forbidden to a non-admin and allowed to an admin. */
  lemma PutOtherUser(me: Uuid, other: Uuid, name: string)
    requires me != other
    ensures PutUser(Caller(me, []), UserBody(other, name)) == Err(Denied)
    ensures PutUser(Caller(me, ["ADMIN"]), UserBody(other, name)) == Ok(WriteUser(UserBody(other, name)))
  {
  }

  /** Adding permissions never turns an allowed request into a denied one. */
  lemma MorePermissionsNeverDeny(caller: Caller, extra: seq<string>, id: Uuid)
    ensures var more := Caller(caller.userId, caller.permissions + extra);
            (GetUsers(caller).Ok? ==> GetUsers(more).Ok?) &&
            (GetSingleUser(caller, id).Ok? ==> GetSingleUser(more, id).Ok?) &&
            (DeleteUser(caller, id).Ok? ==> DeleteUser(more, id).Ok?)
  {
    if "ADMIN" in caller.permissions {
      var k :| 0 <= k < |caller.permissions| && caller.permissions[k] == "ADMIN";
      assert (caller.permissions + extra)[k] == "ADMIN";
    }
  }
}
