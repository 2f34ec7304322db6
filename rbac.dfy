/**
 * The role-administration router: every route on it depends on
 * `admin_required`, which lets a caller through only when one of their
 * permissions is in the allowed set {"ADMIN"}.
 */
module Rbac {
  import opened Wrappers
  import opened Http

  const AllowedPermissions: set<string> := {"ADMIN"}

  const AdminDetail: string := "You do not have enough permissions to perform this action."

  /** `set(current_user.permissions)`. */
  function PermissionSet(perms: seq<string>): (r: set<string>)
    ensures forall p :: p in r <==> p in perms
  {
    set p | p in perms
  }

  /**
   * `admin_required`: 403 when the caller's permission set and the allowed
   * set are disjoint, the caller unchanged otherwise.
   */
  function AdminRequired(caller: Caller): (r: Result<Caller, HttpError>)
    ensures r.Err? <==> "ADMIN" !in caller.permissions
    ensures r.Err? ==> r.error == HttpError(Forbidden, AdminDetail)
    ensures r.Ok? ==> r.value == caller
  {
    var granted := PermissionSet(caller.permissions) * AllowedPermissions;
    assert "ADMIN" in caller.permissions ==> "ADMIN" in granted;
    if granted == {} then Err(HttpError(Forbidden, AdminDetail)) else Ok(caller)
  }

  /** The routes the router declares. */
  datatype RoleRoute =
    | PostRole | PostRolePermissions | GetRoles | GetRole(id: Uuid)
    | GetRolePermissions(roleId: Uuid) | PutRole | DeleteRole(roleId: Uuid) | GetPermissions

  /** A request to any route: the router dependency runs first, the handler only when it passes. */
  function Dispatch(caller: Caller, route: RoleRoute): (r: Result<RoleRoute, HttpError>)
    ensures r.Ok? <==> AdminRequired(caller).Ok?
    ensures r.Ok? ==> r.value == route
    ensures r.Err? ==> r.error == AdminRequired(caller).error
  {
    match AdminRequired(caller)
    case Err(e) => Err(e)
    case Ok(_) => Ok(route)
  }

  /** Only the set of permissions matters: order and repetitions do not change the verdict. */
  lemma SameSetSameVerdict(id: Uuid, a: seq<string>, b: seq<string>)
    requires forall p :: p in a <==> p in b
    ensures AdminRequired(Caller(id, a)).Ok? == AdminRequired(Caller(id, b)).Ok?
  {
  }

  /** A repeated permission is the same as a single one. */
  lemma DuplicatesIrrelevant(id: Uuid, perms: seq<string>, p: string)
    ensures AdminRequired(Caller(id, perms + [p, p])).Ok? == AdminRequired(Caller(id, perms + [p])).Ok?
  {
    SameSetSameVerdict(id, perms + [p, p], perms + [p]);
  }

  /** Only the exact text "ADMIN" grants access: other case or extra spaces do not. */
  lemma ExactNameOnly(id: Uuid)
    ensures AdminRequired(Caller(id, ["admin", "Admin", " ADMIN", "ADMIN "])).Err?
    ensures AdminRequired(Caller(id, ["USER", "ADMIN"])) == Ok(Caller(id, ["USER", "ADMIN"]))
  {
    var perms := ["admin", "Admin", " ADMIN", "ADMIN "];
    forall i | 0 <= i < |perms|
      ensures perms[i] != "ADMIN"
    {
      assert perms[i][0] != 'A' || |perms[i]| != 5 || perms[i][1] != 'D';
    }
  }

  /** A caller without permissions who posts a role gets 403, and the handler never runs. */
  lemma RegularUserCannotPostRole(id: Uuid)
    ensures Dispatch(Caller(id, []), PostRole) == Err(HttpError(Forbidden, AdminDetail))
  {
  }
}
