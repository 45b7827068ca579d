/**
 * The session store of the first client (FrontEnd/src/app/services/auth.service.ts):
 * a token signal and a user signal, two derived views, and two effects
 * that mirror each signal into `localStorage` under `yoltec_token` and
 * `yoltec_user`.
 *
 * The effects run after every change of their signal; the model applies
 * them at the end of each method, so `Valid()` (storage mirrors the
 * signals) holds between calls.
 */
module SignalAuth {
  import opened Common

  datatype AuthUser = AuthUser(
    id: Id,
    nombre: string,
    apellido: string,
    email: string,
    tipo: string,
    numeroControl: Option<string>,
    username: Option<string>)

  datatype LoginResponse = LoginResponse(message: string, user: AuthUser, token: string, tipo: string)

  /** What the token effect leaves in storage: the token when it is truthy, otherwise no key. */
  function PersistedToken(token: Option<string>): (s: Option<string>)
    ensures s.Some? <==> Filled(token)
    ensures s.Some? ==> s == token
  {
    if Filled(token) then token else None
  }

  /** What the user effect leaves in storage: the user's JSON when there is a user, otherwise no key. */
  function PersistedUser(user: Option<AuthUser>): (s: Option<Stored<AuthUser>>)
    ensures s.Some? <==> user.Some?
    ensures user.Some? ==> s == Some(Json(user.value))
  {
    if user.Some? then Some(Json(user.value)) else None
  }

  /** `restoreUser`: null for a missing or empty entry and for text JSON.parse rejects. */
  function RestoreUser(raw: Option<Stored<AuthUser>>): (u: Option<AuthUser>)
    ensures raw.None? ==> u.None?
    ensures raw.Some? && raw.value.Unparsable? ==> u.None?
    ensures raw.Some? && raw.value.Json? ==> u == Some(raw.value.value)
  {
    match raw
    case None => None
    case Some(Unparsable(_)) => None
    case Some(Json(user)) => Some(user)
  }

  /**
   * A page reload restores what the effects saved: the same user, and the
   * token exactly when it was truthy (an empty-string token is dropped).
   */
  lemma ReloadRestoresSession(token: Option<string>, user: Option<AuthUser>)
    ensures RestoreUser(PersistedUser(user)) == user
    ensures Filled(token) ==> PersistedToken(token) == token
    ensures !Filled(token) ==> PersistedToken(token) == None
  {
  }

  class AuthService {
    /** `tokenSignal` and `userSignal`. */
    var token: Option<string>
    var user: Option<AuthUser>
    /** The `yoltec_token` and `yoltec_user` entries of `localStorage`. */
    var storedToken: Option<string>
    var storedUser: Option<Stored<AuthUser>>

    /** The effects have run: each storage key mirrors its signal. */
    ghost predicate Valid()
      reads this
    {
      storedToken == PersistedToken(token) && storedUser == PersistedUser(user)
    }

    /**
     * `isAuthenticated`: `!!token`, so an empty token does not count; with
     * the effects run, exactly when the token key is in storage.
     */
    function IsAuthenticated(): (b: bool)
      reads this
      ensures Valid() ==> (b <==> storedToken.Some?)
    {
      Filled(token)
    }

    /** `currentRole`: the user's `tipo`, or null without a user; with the effects run, the role of the stored user. */
    function CurrentRole(): (role: Option<string>)
      reads this
      ensures role.Some? <==> user.Some?
      ensures Valid() && role.Some? ==> storedUser == Some(Json(user.value)) && role.value == user.value.tipo
    {
      if user.Some? then Some(user.value.tipo) else None
    }

    /**
     * Construction: the signals start from whatever storage holds (the
     * token as read, the user through `restoreUser`), then the effects
     * write them back, dropping an empty token and an unreadable user.
     */
    constructor (savedToken: Option<string>, savedUser: Option<Stored<AuthUser>>)
      ensures Valid()
      ensures token == savedToken && user == RestoreUser(savedUser)
    {
      token := savedToken;
      user := RestoreUser(savedUser);
      storedToken := PersistedToken(savedToken);
      storedUser := PersistedUser(RestoreUser(savedUser));
    }

    method SetSession(t: string, u: AuthUser)
      requires Valid()
      modifies this
      ensures Valid()
      ensures token == Some(t) && user == Some(u)
      ensures CurrentRole() == Some(u.tipo) && (IsAuthenticated() <==> t != "")
    {
      token := Some(t);
      user := Some(u);
      storedToken := PersistedToken(token);
      storedUser := PersistedUser(user);
    }

    /** A successful `login` hands the response's token and user to `setSession`. */
    method Login(response: LoginResponse)
      requires Valid()
      modifies this
      ensures Valid()
      ensures token == Some(response.token) && user == Some(response.user)
    {
      SetSession(response.token, response.user);
    }

    /** `logout`: both signals null, both storage keys gone. */
    method Logout()
      requires Valid()
      modifies this
      ensures Valid()
      ensures token == None && user == None
      ensures storedToken == None && storedUser == None
      ensures !IsAuthenticated() && CurrentRole() == None
    {
      token := None;
      user := None;
      storedToken := PersistedToken(token);
      storedUser := PersistedUser(user);
    }

    /** `updateUser`: the user changes, the token and its storage entry do not. */
    method UpdateUser(u: AuthUser)
      requires Valid()
      modifies this`user, this`storedUser
      ensures Valid()
      ensures user == Some(u) && CurrentRole() == Some(u.tipo)
    {
      user := Some(u);
      storedUser := PersistedUser(user);
    }
  }
}
