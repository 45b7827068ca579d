/**
 * The route guard of the second client (frontend/src/app/guards/auth.guard.ts):
 * one decision over the stored token, the roles the route allows and the
 * stored user. It writes nothing.
 */
module AuthGuard {
  import opened Common
  import opened SubjectAuth

  /** Let the navigation through, or send it to `path`, with `?returnUrl=` when given. */
  datatype Decision = Allow | Redirect(path: string, returnUrl: Option<string>)

  /** `user && user.tipo && allowedRoles.includes(user.tipo)`. */
  predicate RoleAllowed(u: User, roles: seq<string>)
  {
    u.tipo != "" && u.tipo in roles
  }

  /**
   * `canActivate` for a navigation to `url`. `storedToken` and `storedUser`
   * are the `auth_token` and `user_data` entries of `localStorage`;
   * `allowedRoles` is the route's `data.roles`, possibly undefined.
   */
  function CanActivate(storedToken: Option<string>, allowedRoles: Option<seq<string>>,
                       storedUser: Option<Stored<User>>, url: string): (d: Decision)
    // Never without a token; without one, to the login page remembering where the user was going.
    ensures !Filled(storedToken) ==> d == Redirect(LoginPath, Some(url))
    ensures d.Allow? ==> Filled(storedToken)
    // With a token and no roles to check, always through.
    ensures Filled(storedToken) && (allowedRoles.None? || allowedRoles.value == []) ==> d.Allow?
    // With roles to check, through exactly for a readable stored user of an allowed role.
    ensures Filled(storedToken) && allowedRoles.Some? && allowedRoles.value != [] ==>
      (d.Allow? <==> storedUser.Some? && storedUser.value.Json? && RoleAllowed(storedUser.value.value, allowedRoles.value))
    // Roles to check and no stored user: to the login page, remembering the target.
    ensures Filled(storedToken) && allowedRoles.Some? && allowedRoles.value != [] && !UserEntryTruthy(storedUser) ==>
      d == Redirect(LoginPath, Some(url))
    // Every redirect after a parsed user of the wrong role goes to that role's home; an unparsable one to the login page.
    ensures Filled(storedToken) && allowedRoles.Some? && allowedRoles.value != [] && storedUser.Some? && storedUser.value.Json?
            && !RoleAllowed(storedUser.value.value, allowedRoles.value) ==>
      d == Redirect(RedirectUser(storedUser.value.value.tipo), None)
    ensures Filled(storedToken) && allowedRoles.Some? && allowedRoles.value != [] && storedUser.Some?
            && storedUser.value.Unparsable? && storedUser.value.text != "" ==>
      d == Redirect(LoginPath, None)
  {
    if !Filled(storedToken) then
      Redirect(LoginPath, Some(url))
    else if allowedRoles.None? || allowedRoles.value == [] then
      Allow
    else if !UserEntryTruthy(storedUser) then
      Redirect(LoginPath, Some(url))
    else
      match storedUser.value
      case Unparsable(_) => Redirect(LoginPath, None)
      case Json(u) =>
        if RoleAllowed(u, allowedRoles.value) then Allow
        else if u.tipo == "alumno" then Redirect(StudentDashboard, None)
        else if u.tipo == "doctor" then Redirect(DoctorDashboard, None)
        else Redirect(LoginPath, None)
  }

  /**
   * Whether `localStorage.getItem('user_data')` is truthy: an entry exists
   * and is not the empty string. A user's JSON is never empty.
   */
  predicate UserEntryTruthy(stored: Option<Stored<User>>)
  {
    stored.Some? && stored.value != Unparsable("")
  }

  /**
   * For a route that admits one non-empty role, the guard lets a user with
   * a token through exactly when the service's `hasRole` says yes for the
   * same storage.
   */
  lemma GuardAgreesWithHasRole(storedToken: Option<string>, role: string, storedUser: Option<Stored<User>>, url: string)
    requires Filled(storedToken) && role != ""
    requires !ReadUser(storedUser).Throws?
    ensures CanActivate(storedToken, Some([role]), storedUser, url).Allow? <==> HasRoleIn(storedUser, role) == Returns(true)
  {
  }

  /**
   * The guard never sends a user of the wrong role to a page their login
   * would not have chosen: a wrong-role student or doctor lands on the
   * dashboard `redirectUser` picks at login.
   */
  lemma WrongRoleGoesHome(storedToken: Option<string>, roles: seq<string>, u: User, url: string)
    requires Filled(storedToken) && roles != [] && !RoleAllowed(u, roles)
    requires u.tipo == "alumno" || u.tipo == "doctor"
    ensures CanActivate(storedToken, Some(roles), Some(Json(u)), url) == Redirect(RedirectUser(u.tipo), None)
    ensures RedirectUser(u.tipo) != LoginPath
  {
  }
}
