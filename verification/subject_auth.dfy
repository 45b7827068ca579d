/**
 * The session store of the second client (frontend/src/app/services/auth.service.ts):
 * a user subject and an authenticated flag, with the token and the user
 * written to `localStorage` under `auth_token` and `user_data`, and the
 * role decisions that read them back.
 */
module SubjectAuth {
  import opened Common

  datatype User = User(
    id: Id,
    nombre: string,
    apellido: string,
    email: string,
    tipo: string,
    numeroControl: Option<string>,
    username: Option<string>)

  datatype LoginResponse = LoginResponse(message: string, user: User, token: string, tipo: string)

  const LoginPath := "/login"
  const StudentDashboard := "/student-dashboard"
  const DoctorDashboard := "/doctor-dashboard"

  /** `redirectUser`: each role to its dashboard, any other type to the login page. */
  function RedirectUser(userType: string): (path: string)
    ensures userType == "alumno" ==> path == StudentDashboard
    ensures userType == "doctor" ==> path == DoctorDashboard
    ensures userType != "alumno" && userType != "doctor" ==> path == LoginPath
  {
    if userType == "alumno" then StudentDashboard
    else if userType == "doctor" then DoctorDashboard
    else LoginPath
  }

  /** A role lands on a dashboard exactly when it is one of the two roles. */
  lemma RedirectUserTargets(a: string, b: string)
    ensures RedirectUser(a) != LoginPath <==> a == "alumno" || a == "doctor"
    ensures RedirectUser(a) != LoginPath && RedirectUser(a) == RedirectUser(b) ==> a == b
  {
  }

  /**
   * `getCurrentUser`/`getStoredUser`: a missing or empty entry is null; an
   * entry JSON.parse rejects makes the call throw (there is no try).
   */
  function ReadUser(stored: Option<Stored<User>>): (r: Outcome<Option<User>>)
    ensures r.Throws? <==> stored.Some? && stored.value.Unparsable? && stored.value.text != ""
    ensures r == Returns(None) <==> stored.None? || stored == Some(Unparsable(""))
    ensures stored.Some? && stored.value.Json? ==> r == Returns(Some(stored.value.value))
  {
    match stored
    case None => Returns(None)
    case Some(Json(u)) => Returns(Some(u))
    case Some(Unparsable(text)) => if text == "" then Returns(None) else Throws
  }

  /** `hasRole(role)`: a stored user exists and its `tipo` is `role`; an unreadable entry throws. */
  function HasRoleIn(stored: Option<Stored<User>>, role: string): (r: Outcome<bool>)
    ensures r == Returns(true) <==> stored.Some? && stored.value.Json? && stored.value.value.tipo == role
    ensures r.Throws? <==> ReadUser(stored).Throws?
  {
    match ReadUser(stored)
    case Throws => Throws
    case Returns(u) => Returns(u.Some? && u.value.tipo == role)
  }

  class AuthService {
    /** `userSubject` and `isAuthenticatedSubject`. */
    var user: Option<User>
    var authenticated: bool
    /** The `auth_token` and `user_data` entries of `localStorage`. */
    var storedToken: Option<string>
    var storedUser: Option<Stored<User>>

    /** The flag follows the user, and a user in memory is the one in storage. */
    ghost predicate Valid()
      reads this
    {
      && (authenticated <==> user.Some?)
      && (user.Some? ==> storedUser == Some(Json(user.value)))
    }

    /**
     * Construction: a readable stored user becomes the current user and sets
     * the flag, whether or not a token is stored; storage is not written.
     */
    constructor (savedToken: Option<string>, savedUser: Option<Stored<User>>)
      requires !ReadUser(savedUser).Throws?
      ensures Valid()
      ensures storedToken == savedToken && storedUser == savedUser
      ensures user == ReadUser(savedUser).value
      ensures authenticated <==> savedUser.Some? && savedUser.value.Json?
    {
      storedToken := savedToken;
      storedUser := savedUser;
      var restored := ReadUser(savedUser).value;
      user := restored;
      authenticated := restored.Some?;
    }

    /** `isAuthenticated()`: the flag, which stands for a user being in memory and in storage. */
    function IsAuthenticated(): (b: bool)
      reads this
      ensures Valid() ==> (b <==> user.Some?)
      ensures Valid() && b ==> storedUser.Some? && storedUser.value.Json?
    {
      authenticated
    }

    /** `getToken()`: the stored token. */
    function GetToken(): Option<string>
      reads this
    {
      storedToken
    }

    /**
     * `hasRole(role)`, read from storage rather than from the subject; while
     * a user is in memory, storage agrees with it.
     */
    function HasRole(role: string): (r: Outcome<bool>)
      reads this
      ensures Valid() && user.Some? ==> (r == Returns(true) <==> user.value.tipo == role)
      ensures Valid() && user.Some? ==> !r.Throws?
    {
      HasRoleIn(storedUser, role)
    }

    /**
     * The `tap` of a successful `login`. A response with a truthy token
     * stores token and user, raises the flag, publishes the user and
     * navigates by role; a response without one changes nothing.
     */
    method LoginAnswered(response: LoginResponse) returns (navigation: Option<string>)
      requires Valid()
      modifies this
      ensures Valid()
      ensures response.token != "" ==>
        && storedToken == Some(response.token) && storedUser == Some(Json(response.user))
        && authenticated && user == Some(response.user)
        && navigation == Some(RedirectUser(response.user.tipo))
        && HasRole(response.user.tipo) == Returns(true)
      ensures response.token == "" ==>
        navigation == None && user == old(user) && authenticated == old(authenticated)
        && storedToken == old(storedToken) && storedUser == old(storedUser)
    {
      if response.token != "" {
        storedToken := Some(response.token);
        storedUser := Some(Json(response.user));
        authenticated := true;
        user := Some(response.user);
        navigation := Some(RedirectUser(response.user.tipo));
      } else {
        navigation := None;
      }
    }

    /** `clearAuthData`: both storage keys removed, flag down, no user. */
    method ClearAuthData()
      modifies this
      ensures Valid()
      ensures storedToken == None && storedUser == None && !authenticated && user == None
    {
      storedToken := None;
      storedUser := None;
      authenticated := false;
      user := None;
    }

    /**
     * The answer to the logout request: whether the server succeeded or
     * failed, the session is cleared and the client goes to the login page.
     */
    method LogoutAnswered(serverSucceeded: bool) returns (navigation: string)
      modifies this
      ensures Valid()
      ensures storedToken == None && storedUser == None && !authenticated && user == None
      ensures navigation == LoginPath
      ensures forall role :: HasRole(role) == Returns(false)
    {
      if serverSucceeded {
        ClearAuthData();
      } else {
        ClearAuthData();
      }
      navigation := LoginPath;
    }
  }
}
