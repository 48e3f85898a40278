/** Sign-in state, roles and permissions (frontend/auth.js). Decoding the
    Google credential (a JWT) is outside the model: a credential is its raw
    text together with the payload it decodes to, or `None` when decoding
    throws. Times are milliseconds and "now" is a parameter. */
module Auth {
  import opened Common
  import opened Api

  /** The claims read from a credential's payload; `exp` is in seconds. */
  datatype JwtPayload = JwtPayload(sub: string, email: string, name: string, exp: Option<int>)

  datatype Credential = Credential(raw: string, payload: Option<JwtPayload>)

  /** `currentUser`; `role` is empty until `loadUserRole` has set it. */
  datatype SessionUser = SessionUser(id: string, email: string, name: string, token: Credential, role: string)

  // ---------------------------------------------------------------------------
  // Permissions and roles

  const AdminPermissions := ["read_all", "write_all", "delete_all", "manage_users", "manage_tasks"]
  const SupervisorPermissions := ["read_team", "write_team", "manage_tasks", "view_reports"]
  const EmployeePermissions := ["read_own_tasks", "write_own_tasks", "update_progress"]

  /** `getUserPermissions`: only `read_own_tasks` without a user or a role;
      the role's list for the three known roles; the employee list for any
      other role. */
  function GetUserPermissions(user: Option<SessionUser>): (r: seq<string>)
    ensures user.None? || user.value.role == "" ==> r == ["read_own_tasks"]
    ensures user.Some? && user.value.role == "admin" ==> r == AdminPermissions
    ensures user.Some? && user.value.role == "supervisor" ==> r == SupervisorPermissions
    ensures user.Some? && user.value.role !in {"", "admin", "supervisor"} ==> r == EmployeePermissions
  {
    if user.None? || user.value.role == "" then ["read_own_tasks"]
    else if user.value.role == "admin" then AdminPermissions
    else if user.value.role == "supervisor" then SupervisorPermissions
    else EmployeePermissions
  }

  /** `hasPermission`: the permission is listed, or the list grants
      `write_all`. */
  predicate HasPermission(user: Option<SessionUser>, permission: string) {
    var granted := GetUserPermissions(user);
    permission in granted || "write_all" in granted
  }

  /** `write_all` belongs to administrators alone, so an administrator has
      every permission and anyone else has exactly the listed ones. */
  lemma HasPermissionIff(user: Option<SessionUser>, permission: string)
    ensures HasPermission(user, permission) <==>
              (user.Some? && user.value.role == "admin") || permission in GetUserPermissions(user)
  {
    var granted := GetUserPermissions(user);
    if !(user.Some? && user.value.role == "admin") {
      forall i | 0 <= i < |granted| ensures granted[i] != "write_all" {
        assert granted[i][0] != 'w' || granted[i][6] != 'a';
      }
    }
  }

  /** An employee, or a user whose role is unknown, cannot manage users or
      read everything. */
  lemma EmployeeCannotManageUsers(user: SessionUser)
    requires user.role !in {"admin", "supervisor"}
    ensures !HasPermission(Some(user), "manage_users") && !HasPermission(Some(user), "read_all")
  {
    HasPermissionIff(Some(user), "manage_users");
    HasPermissionIff(Some(user), "read_all");
    var granted := GetUserPermissions(Some(user));
    forall i | 0 <= i < |granted| ensures granted[i] != "manage_users" && granted[i] != "read_all" {
      assert granted[i][0] != 'm';
      assert granted[i][0] != 'r' || granted[i][5] != 'a';
    }
  }

  /** `hasRole`: false without a user or a role, otherwise whether the role
      is the one asked for. */
  predicate HasRole(user: Option<SessionUser>, role: string) {
    user.Some? && user.value.role != "" && user.value.role == role
  }

  /** `hasAnyRole`: false without a user or a role, otherwise whether the
      role is among those asked for. */
  predicate HasAnyRole(user: Option<SessionUser>, roles: seq<string>) {
    user.Some? && user.value.role != "" && user.value.role in roles
  }

  /** Having any of several roles is having one of them. */
  lemma HasAnyRoleIsSomeRole(user: Option<SessionUser>, roles: seq<string>)
    ensures HasAnyRole(user, roles) <==> exists i | 0 <= i < |roles| :: HasRole(user, roles[i])
  {
    if HasAnyRole(user, roles) {
      var i :| 0 <= i < |roles| && roles[i] == user.value.role;
      assert HasRole(user, roles[i]);
    }
  }

  /** No role is held without a loaded role, whatever is asked for. */
  lemma NoRoleBeforeLoad(user: Option<SessionUser>, role: string, roles: seq<string>)
    requires user.None? || user.value.role == ""
    ensures !HasRole(user, role) && !HasAnyRole(user, roles)
    ensures GetUserPermissions(user) == ["read_own_tasks"]
  {
  }

  // ---------------------------------------------------------------------------
  // Navigation

  /** Which of the three navigation entries are shown. */
  datatype NavVisibility = NavVisibility(admin: bool, supervisor: bool, employee: bool)

  /** `updateNavigationForRole`: everything for `admin`; the supervisor and
      employee entries for `supervisor`; only the employee entry otherwise. */
  function NavFor(role: string): (r: NavVisibility)
    ensures r.employee
    ensures r.admin <==> role == "admin"
    ensures r.supervisor <==> role == "admin" || role == "supervisor"
  {
    match role
    case "admin" => NavVisibility(true, true, true)
    case "supervisor" => NavVisibility(false, true, true)
    case _ => NavVisibility(false, false, true)
  }

  /** A visible entry implies every less privileged one is visible too. */
  lemma NavNested(role: string)
    ensures NavFor(role).admin ==> NavFor(role).supervisor
    ensures NavFor(role).supervisor ==> NavFor(role).employee
  {
  }

  // ---------------------------------------------------------------------------
  // Loading the role

  /** The script URL is missing or still the placeholder. */
  predicate Unconfigured(scriptUrl: string) {
    scriptUrl == "" || Contains(scriptUrl, "YOUR_SCRIPT_ID")
  }

  /** The role in `response.data.role` when `response.success` and it are
      truthy. */
  function ReportedRole<T>(response: Reply<T>): (r: Option<string>)
    ensures r.Some? ==> r.value != "" && response.Wrapped? && response.success.Truthy()
                        && response.data.Fields? && Get(response.data.fields, "role") == r
    ensures (response.Wrapped? && response.success.Truthy() && response.data.Fields?
             && Get(response.data.fields, "role").Some? && Get(response.data.fields, "role").value != "")
            ==> r == Get(response.data.fields, "role")
  {
    if response.Wrapped? && response.success.Truthy() && response.data.Fields? then
      match Get(response.data.fields, "role")
      case Some(role) => if role != "" then Some(role) else None
      case None => None
    else None
  }

  /** The role `loadUserRole` settles on: `admin` for an unconfigured backend
      (without asking), the reported role, `admin` when the call throws
      (a `null` answer throws too, reading `.success`), and `employee` for
      any other answer. */
  function ResolvedRole<T>(scriptUrl: string, response: CallResult<T>): (r: string)
    ensures r != ""
    ensures Unconfigured(scriptUrl) ==> r == "admin"
    ensures !Unconfigured(scriptUrl) && (response.Threw? || response.reply.NullReply?) ==> r == "admin"
    ensures (!Unconfigured(scriptUrl) && response.Returned? && ReportedRole(response.reply).Some?)
            ==> r == ReportedRole(response.reply).value
    ensures (!Unconfigured(scriptUrl) && response.Returned? && !response.reply.NullReply?
             && ReportedRole(response.reply).None?) ==> r == "employee"
  {
    if Unconfigured(scriptUrl) then "admin"
    else match response
      case Threw(_) => "admin"
      case Returned(NullReply) => "admin"
      case Returned(reply) => ReportedRole(reply).GetOr("employee")
  }

  /** When the backend cannot be reached, the signed-in user is treated as an
      administrator and so holds every permission. */
  lemma UnreachableBackendGrantsAll<T>(user: SessionUser, scriptUrl: string, response: CallResult<T>,
                                       permission: string)
    requires response.Threw? || response.reply.NullReply?
    ensures HasPermission(Some(user.(role := ResolvedRole(scriptUrl, response))), permission)
  {
    HasPermissionIff(Some(user.(role := ResolvedRole(scriptUrl, response))), permission);
  }

  /** A backend that answers without a role makes the user an employee. */
  lemma NoReportedRoleIsEmployee<T>(user: SessionUser, scriptUrl: string, reply: Reply<T>)
    requires !Unconfigured(scriptUrl) && !reply.NullReply? && ReportedRole(reply).None?
    ensures var u := Some(user.(role := ResolvedRole(scriptUrl, Returned(reply))));
            GetUserPermissions(u) == EmployeePermissions && HasRole(u, "employee")
  {
  }

  /** A configured backend that answers `{success: true, data: {role:
      "supervisor"}}` makes the user a supervisor. */
  lemma ReportedSupervisorIsUsed<T>(scriptUrl: string, error: string)
    requires !Unconfigured(scriptUrl)
    ensures var reply: Reply<T> := Wrapped(Literal(true), error, Fields([("role", "supervisor")]));
            ResolvedRole(scriptUrl, Returned(reply)) == "supervisor"
  {
    GetAt([("role", "supervisor")], 0);
  }

  // ---------------------------------------------------------------------------
  // Session state

  const AuthFailed := "Authentication failed. Please try again."

  /** Whether `getAuthToken` at time `nowMs` finds the signed-in user's
      decodable token expired: its `exp` (seconds) is missing or not after
      now. */
  predicate TokenExpired(user: Option<SessionUser>, nowMs: int) {
    && user.Some? && user.value.token.raw != "" && user.value.token.payload.Some?
    && !(user.value.token.payload.value.exp.Some? && user.value.token.payload.value.exp.value * 1000 > nowMs)
  }

  /** The module's globals `currentUser` and `isSignedIn`, and the navigation
      entries shown. */
  class Session {
    var currentUser: Option<SessionUser>
    var isSignedIn: bool
    var nav: NavVisibility

    constructor ()
      ensures currentUser == None && !isSignedIn && nav == NavVisibility(true, true, true)
    {
      currentUser, isSignedIn := None, false;
      nav := NavVisibility(true, true, true);
    }

    /** `isUserSignedIn`. */
    predicate IsUserSignedIn()
      reads this
    {
      isSignedIn && currentUser.Some?
    }

    /** `handleCredentialResponse`: a credential that decodes signs its user
        in, with no role yet; one that does not reports the generic
        authentication error and changes nothing. */
    method HandleCredentialResponse(credential: Credential) returns (error: Option<string>)
      modifies this
      ensures nav == old(nav)
      ensures credential.payload.None? ==>
                error == Some(AuthFailed) && currentUser == old(currentUser) && isSignedIn == old(isSignedIn)
      ensures credential.payload.Some? ==>
                var p := credential.payload.value;
                && error == None && IsUserSignedIn()
                && currentUser == Some(SessionUser(p.sub, p.email, p.name, credential, ""))
    {
      if credential.payload.None? {
        return Some(AuthFailed);
      }
      var p := credential.payload.value;
      currentUser := Some(SessionUser(p.sub, p.email, p.name, credential, ""));
      isSignedIn := true;
      error := None;
    }

    /** `signOut`. */
    method SignOut()
      modifies this
      ensures currentUser == None && !isSignedIn && nav == old(nav)
      ensures !IsUserSignedIn()
    {
      currentUser := None;
      isSignedIn := false;
    }

    /** `getAuthToken` at time `nowMs`: the token while its expiry lies
        strictly after now; an expired token (or one without `exp`) signs the
        user out; no user, no token or an undecodable token give nothing and
        change nothing. */
    method GetAuthToken(nowMs: int) returns (token: Option<string>)
      modifies this
      ensures nav == old(nav)
      ensures token.Some? <==>
                && old(currentUser).Some? && old(currentUser).value.token.raw != ""
                && old(currentUser).value.token.payload.Some?
                && old(currentUser).value.token.payload.value.exp.Some?
                && old(currentUser).value.token.payload.value.exp.value * 1000 > nowMs
      ensures token.Some? ==> token == Some(old(currentUser).value.token.raw)
      ensures var expired := && old(currentUser).Some? && old(currentUser).value.token.raw != ""
                             && old(currentUser).value.token.payload.Some? && token.None?;
              && (expired ==> currentUser == None && !isSignedIn)
              && (!expired ==> currentUser == old(currentUser) && isSignedIn == old(isSignedIn))
      ensures TokenExpired(old(currentUser), nowMs) <==> old(currentUser).Some? && currentUser.None?
    {
      if currentUser.None? || currentUser.value.token.raw == "" {
        return None;
      }
      var credential := currentUser.value.token;
      if credential.payload.None? {
        return None;
      }
      var exp := credential.payload.value.exp;
      if exp.Some? && exp.value * 1000 > nowMs {
        return Some(credential.raw);
      }
      SignOut();
      token := None;
    }

    /** `updateNavigationForRole`. */
    method UpdateNavigationForRole(role: string)
      modifies this
      ensures currentUser == old(currentUser) && isSignedIn == old(isSignedIn)
      ensures nav == NavFor(role)
    {
      nav := NavFor(role);
    }

    /** `loadUserRole` with the configured script URL and the answer to
        `getUserRole`: without a user nothing happens; otherwise the user
        takes the resolved role and the navigation follows it. `called` says
        whether the backend was asked. */
    method LoadUserRole<T>(scriptUrl: string, response: CallResult<T>) returns (called: bool)
      modifies this
      ensures isSignedIn == old(isSignedIn)
      ensures old(currentUser).None? ==> !called && currentUser == None && nav == old(nav)
      ensures old(currentUser).Some? ==>
                var role := ResolvedRole(scriptUrl, response);
                && called == !Unconfigured(scriptUrl)
                && currentUser == Some(old(currentUser).value.(role := role))
                && nav == NavFor(role)
    {
      if currentUser.None? {
        return false;
      }
      called := !Unconfigured(scriptUrl);
      var role := ResolvedRole(scriptUrl, response);
      currentUser := Some(currentUser.value.(role := role));
      UpdateNavigationForRole(role);
    }
  }
}
