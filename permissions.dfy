/** The role checks of the service and the framework checks beside them. */
module Permissions {
  import opened Models

  /** The user a request is made by: authenticated or anonymous, with the
      names of the groups recorded for it. An anonymous user may carry any
      set of groups here, which the checks must ignore. */
  datatype RequestUser = RequestUser(authenticated: bool, id: nat, groups: set<string>)

  /** The permission classes a view can ask for. */
  datatype Permission = AllowAny | IsAuthenticated | IsEmployee | IsRestaurantOwner

  /** IsEmployee.has_permission: the view is not consulted. */
  function IsEmployeeCheck<V>(user: RequestUser, view: V): (r: bool)
    ensures r <==> user.authenticated && EmployeeGroup in user.groups
  {
    user.authenticated && EmployeeGroup in user.groups
  }

  /** IsRestaurantOwner.has_permission: the view is not consulted. */
  function IsRestaurantOwnerCheck<V>(user: RequestUser, view: V): (r: bool)
    ensures r <==> user.authenticated && OwnerGroup in user.groups
  {
    user.authenticated && OwnerGroup in user.groups
  }

  /** has_permission of each permission class. */
  function HasPermission<V>(p: Permission, user: RequestUser, view: V): (r: bool)
    ensures p == AllowAny ==> r
    ensures !user.authenticated ==> (r <==> p == AllowAny)
    ensures user.authenticated ==> (r <==> p.AllowAny? || p.IsAuthenticated?
                                            || (p.IsEmployee? && EmployeeGroup in user.groups)
                                            || (p.IsRestaurantOwner? && OwnerGroup in user.groups))
  {
    match p
    case AllowAny => true
    case IsAuthenticated => user.authenticated
    case IsEmployee => IsEmployeeCheck(user, view)
    case IsRestaurantOwner => IsRestaurantOwnerCheck(user, view)
  }

  /** An anonymous user fails both role checks, whatever groups it carries. */
  lemma AnonymousDenied<V>(user: RequestUser, view: V)
    requires !user.authenticated
    ensures !IsEmployeeCheck(user, view) && !IsRestaurantOwnerCheck(user, view)
  {
  }

  /** A user in both groups passes both role checks. */
  lemma BothRoles<V>(user: RequestUser, view: V)
    requires user.authenticated && EmployeeGroup in user.groups && OwnerGroup in user.groups
    ensures IsEmployeeCheck(user, view) && IsRestaurantOwnerCheck(user, view)
  {
  }

  /** The checks depend on the user only: any two views give the same answer. */
  lemma ViewIgnored<V, W>(p: Permission, user: RequestUser, v: V, w: W)
    ensures HasPermission(p, user, v) == HasPermission(p, user, w)
  {
  }

  /** Each role check implies IsAuthenticated. */
  lemma RolesImplyAuthenticated<V>(p: Permission, user: RequestUser, view: V)
    requires p.IsEmployee? || p.IsRestaurantOwner?
    requires HasPermission(p, user, view)
    ensures HasPermission(IsAuthenticated, user, view)
  {
  }

  /** The implication is strict: a logged-in user without groups passes
      IsAuthenticated and neither role check. */
  lemma NoGroupNoRole<V>(user: RequestUser, view: V)
    requires user.authenticated && user.groups == {}
    ensures HasPermission(IsAuthenticated, user, view)
    ensures !HasPermission(IsEmployee, user, view) && !HasPermission(IsRestaurantOwner, user, view)
  {
  }
}
