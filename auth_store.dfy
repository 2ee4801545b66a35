/**
 * The `auth` store: the session token, the "remember me" flag and the path
 * the user was heading for before being sent to the login page.
 */
module AuthStore {
  import opened Wrappers

  /** The store's state, and the payload `login` receives. */
  datatype AuthState = AuthState(token: Option<string>, remember: bool, originalPath: Option<string>)

  /** The state a fresh store starts from. */
  const InitialAuth := AuthState(None, false, None)

  class Store {
    var token: Option<string>
    var remember: bool
    var originalPath: Option<string>

    /** The whole state, as one record. */
    function State(): AuthState
      reads this
    {
      AuthState(token, remember, originalPath)
    }

    constructor ()
      ensures State() == InitialAuth
    {
      token := None;
      remember := false;
      originalPath := None;
    }

    method SetToken(t: Option<string>)
      modifies this
      ensures State() == old(State()).(token := t)
    {
      token := t;
    }

    method ClearToken()
      modifies this
      ensures State() == old(State()).(token := None)
    {
      token := None;
    }

    method SetRemember(r: bool)
      modifies this
      ensures State() == old(State()).(remember := r)
    {
      remember := r;
    }

    method SetOriginalPath(path: Option<string>)
      modifies this
      ensures State() == old(State()).(originalPath := path)
    {
      originalPath := path;
    }

    /** Takes the token and the flag from the payload; its path is ignored. */
    method Login(payload: AuthState)
      modifies this
      ensures State() == old(State()).(token := payload.token, remember := payload.remember)
    {
      SetToken(payload.token);
      SetRemember(payload.remember);
    }

    /** Forgets the token and the saved path; the flag stays. */
    method Logout()
      modifies this
      ensures State() == old(State()).(token := None, originalPath := None)
    {
      ClearToken();
      SetOriginalPath(None);
    }

    function GetToken(): (t: Option<string>)
      reads this
      ensures t == State().token
    {
      token
    }

    function GetRemember(): (r: bool)
      reads this
      ensures r == State().remember
    {
      remember
    }

    function GetOriginalPath(): (p: Option<string>)
      reads this
      ensures p == State().originalPath
    {
      originalPath
    }
  }

  /** A login followed by a logout leaves no token and no path, and keeps the new flag. */
  method LoginThenLogout(store: Store, payload: AuthState)
    modifies store
    ensures store.State() == AuthState(None, payload.remember, None)
  {
    store.Login(payload);
    store.Logout();
  }
}
