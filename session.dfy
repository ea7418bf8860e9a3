/** The admin client's session: the provider that holds the token, the signed-in
    user and the loading flag, backed by the browser's key-value storage, and
    the guard in front of every protected page. The `/auth/me` request is a
    parameter: its answer is passed to the method that consumes it. */
module Session {
  import opened Base

  /** The storage key the token is kept under. */
  const TokenKey := "ancient_token"
  const LoginPath := "/login"

  /** The user record the client keeps. */
  datatype SessionUser = SessionUser(id: string, email: string, name: string, role: string)

  /** The answer to `GET /auth/me`: a body (null for an unknown account) or an error. */
  datatype MeAnswer = MeOk(body: Option<SessionUser>) | MeFailed

  /** The token a storage holds, if any. */
  function StoredToken(storage: map<string, string>): Option<string> {
    if TokenKey in storage then Some(storage[TokenKey]) else None
  }

  class AuthProvider {
    var user: Option<SessionUser>
    var token: Option<string>
    var loading: bool
    var storage: map<string, string>

    /** Mounting: the token is read from storage, no user is known yet and
        the provider is loading. */
    constructor (stored: map<string, string>)
      ensures storage == stored
      ensures token == StoredToken(stored) && user == None && loading
    {
      storage := stored;
      token := StoredToken(stored);
      user := None;
      loading := true;
    }

    /** `login`: the token is stored and both values are set. */
    method Login(newToken: string, newUser: SessionUser)
      modifies this
      ensures storage == old(storage)[TokenKey := newToken]
      ensures token == Some(newToken) && user == Some(newUser)
      ensures loading == old(loading)
    {
      storage := storage[TokenKey := newToken];
      token := Some(newToken);
      user := Some(newUser);
    }

    /** `logout`: the key is removed and both values are cleared. */
    method Logout()
      modifies this
      ensures storage == old(storage) - {TokenKey}
      ensures token == None && user == None
      ensures loading == old(loading)
    {
      storage := storage - {TokenKey};
      token := None;
      user := None;
    }

    /** `initAuth`, run for the current token: with a (non-empty) token the
        answer to `/auth/me` either sets the user or logs out; without one
        nothing else changes. Loading ends in every case. */
    method InitAuth(me: MeAnswer)
      modifies this
      ensures !loading
      ensures !Truthy(old(token)) ==>
        token == old(token) && user == old(user) && storage == old(storage)
      ensures Truthy(old(token)) && me.MeOk? ==>
        user == me.body && token == old(token) && storage == old(storage)
      ensures Truthy(old(token)) && me.MeFailed? ==>
        user == None && token == None && storage == old(storage) - {TokenKey}
    {
      if Truthy(token) {
        match me
        case MeOk(body) =>
          user := body;
        case MeFailed =>
          Logout();
      }
      loading := false;
    }

    /** What the guard shows right now. */
    function View(): GuardView
      reads this
    {
      Guard(loading, token)
    }
  }

  /** Signing in and then out leaves no token, no user and no stored key,
      while every other stored entry is kept. */
  method LoginThenLogout(p: AuthProvider, t: string, u: SessionUser)
    modifies p
    ensures p.token == None && p.user == None && TokenKey !in p.storage
    ensures p.storage == old(p.storage) - {TokenKey}
    ensures StoredToken(p.storage) == None
  {
    p.Login(t, u);
    p.Logout();
  }

  /** A provider started from a storage without a token ends loading signed
      out, and its guard sends the visitor to the login page. */
  method StartWithoutToken(stored: map<string, string>, me: MeAnswer) returns (v: GuardView)
    requires TokenKey !in stored
    ensures v == Redirect(LoginPath)
  {
    var p := new AuthProvider(stored);
    p.InitAuth(me);
    v := p.View();
  }

  /** A provider whose stored token the server rejects ends signed out, with
      the key removed, and its guard redirects. */
  method StartWithRejectedToken(stored: map<string, string>) returns (v: GuardView, left: map<string, string>)
    requires TokenKey in stored && stored[TokenKey] != ""
    ensures v == Redirect(LoginPath)
    ensures left == stored - {TokenKey}
  {
    var p := new AuthProvider(stored);
    p.InitAuth(MeFailed);
    v := p.View();
    left := p.storage;
  }

  // ---------------------------------------------------------------------------
  // ProtectedRoute

  datatype GuardView = LoadingScreen | Redirect(to: string) | Children

  /** The guard: the loading screen while loading, a redirect to the login page
      without a (non-empty) token, the protected page otherwise. */
  function Guard(loading: bool, token: Option<string>): (v: GuardView)
    ensures loading ==> v == LoadingScreen
    ensures !loading && !Truthy(token) ==> v == Redirect(LoginPath)
    ensures !loading && Truthy(token) ==> v == Children
  {
    if loading then LoadingScreen
    else if !Truthy(token) then Redirect(LoginPath)
    else Children
  }

  /** The page is shown exactly when loading is over and a token is held; the
      user record plays no part, so a token whose user is unknown still opens
      the page. */
  lemma GuardShowsChildren(loading: bool, token: Option<string>)
    ensures Guard(loading, token) == Children <==> !loading && token.Some? && token.value != ""
  {
  }
}
