/** The client session: the `token` slot of the browser's local storage,
    the fetched user and the loading flag of the auth provider. */
module AuthContext {
  import opened Wrappers
  import opened Types

  /** The browser's local-storage slot under the key "token", shared by
      every component that reads or writes it. */
  class TokenStore {
    var token: Option<string>

    constructor (token: Option<string>)
      ensures this.token == token
    {
      this.token := token;
    }
  }

  /** Where a component sends a visitor without a stored token. */
  const LoginRoute := "/login"

  /** The observable session: storage slot, user slot, loading flag. */
  datatype Session = Session(token: Option<string>, user: Option<User>, loading: bool)

  predicate IsAuthenticated(s: Session) {
    s.user.Some?
  }

  /** A mounted provider: the user is unknown and loading is on. */
  function Mounted(token: Option<string>): (s: Session)
    ensures s.token == token && !IsAuthenticated(s) && s.loading
  {
    Session(token, None, true)
  }

  /** `logout`: the token is removed and the user cleared. */
  function LoggedOut(s: Session): (r: Session)
    ensures r.token == None && !IsAuthenticated(r)
    ensures r.loading == s.loading
  {
    s.(token := None, user := None)
  }

  /** `fetchUser`, run once on mount. With no truthy token nothing but the loading
      flag changes; with one, an ok reply sets the user and any failure
      removes the token and clears the user. Loading ends in every case. */
  function Restored(s: Session, reply: Fetch<User>): (r: Session)
    ensures !r.loading
    ensures !Present(s.token) ==> r.token == s.token && r.user == s.user
    ensures Present(s.token) && reply.Ok? ==> r.token == s.token && r.user == Some(reply.data)
    ensures Present(s.token) && !reply.Ok? ==> r.token == None && r.user == None
  {
    if !Present(s.token) then s.(loading := false)
    else match reply
      case Ok(u) => s.(user := Some(u), loading := false)
      case _ => s.(token := None, user := None, loading := false)
  }

  /** `login(token)`: the token is stored before the user fetch; an ok reply
      sets the user, any failure ends as `logout` would. */
  function LoggedIn(s: Session, token: string, reply: Fetch<User>): (r: Session)
    ensures r.loading == s.loading
    ensures reply.Ok? ==> r.token == Some(token) && r.user == Some(reply.data)
    ensures !reply.Ok? ==> r == LoggedOut(s)
  {
    var stored := s.(token := Some(token));
    match reply
    case Ok(u) => stored.(user := Some(u))
    case _ => LoggedOut(stored)
  }

  /** A signed-in user always comes with a stored token. */
  predicate Consistent(s: Session) {
    IsAuthenticated(s) ==> s.token.Some?
  }

  /** Every transition keeps `Consistent`, starting from the mounted state. */
  lemma TransitionsKeepConsistent(s: Session, token: string, reply: Fetch<User>, stored: Option<string>)
    requires Consistent(s)
    ensures Consistent(Mounted(stored))
    ensures Consistent(Restored(s, reply))
    ensures Consistent(LoggedIn(s, token, reply))
    ensures Consistent(LoggedOut(s))
  {
  }

  /** After the mount-time restore the session is authenticated exactly when a
      truthy token was stored and the user fetch answered ok. */
  lemma RestoreAuthenticates(stored: Option<string>, reply: Fetch<User>)
    ensures IsAuthenticated(Restored(Mounted(stored), reply)) <==> Present(stored) && reply.Ok?
    ensures !Restored(Mounted(stored), reply).loading
  {
  }

  /** A failed login leaves the same state as logging out, whatever was there before. */
  lemma FailedLoginIsLogout(s: Session, t1: string, t2: string, reply: Fetch<User>)
    requires !reply.Ok?
    ensures LoggedIn(s, t1, reply) == LoggedIn(s, t2, reply) == LoggedOut(s)
    ensures LoggedOut(LoggedOut(s)) == LoggedOut(s)
  {
  }

  /** `AuthProvider`: the user and loading state of the provider, over the
      shared storage slot. */
  class AuthProvider {
    const storage: TokenStore
    var user: Option<User>
    var loading: bool

    function State(): Session
      reads this, storage
    {
      Session(storage.token, user, loading)
    }

    function Authenticated(): (b: bool)
      reads this
      ensures b <==> user.Some?
    {
      user != None
    }

    constructor (storage: TokenStore)
      ensures this.storage == storage
      ensures State() == Mounted(storage.token)
    {
      this.storage := storage;
      user := None;
      loading := true;
    }

    /** The mount-time restore. `reply` is what `/api/v1/users/me` answers;
        it is not consulted when no token is stored. */
    method FetchUser(reply: Fetch<User>)
      modifies this, storage
      ensures State() == Restored(old(State()), reply)
    {
      var token := storage.token;
      if token.Some? && token.value != "" {
        match reply {
          case Ok(data) =>
            user := Some(data);
          case NotOk =>
            storage.token := None;
            user := None;
          case Thrown =>
            storage.token := None;
            user := None;
        }
      }
      loading := false;
    }

    method Login(token: string, reply: Fetch<User>)
      modifies this, storage
      ensures State() == LoggedIn(old(State()), token, reply)
    {
      storage.token := Some(token);
      if reply.Ok? {
        user := Some(reply.data);
      } else {
        Logout();
      }
    }

    method Logout()
      modifies this, storage
      ensures State() == LoggedOut(old(State()))
    {
      storage.token := None;
      user := None;
    }
  }
}
