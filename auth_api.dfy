/** The backend's account endpoints: registration with a unique email and
    login that issues a bearer token. Password hashing, password checking and
    token signing are parameters: `hash`, `verify` and `sign`. */
module AuthApi {
  import opened Wrappers
  import opened Database

  const AccessTokenExpireMinutes := 30
  const BearerType := "bearer"

  /** What the access token is signed over: `{"sub": email}` and the expiry. */
  datatype TokenClaims = TokenClaims(sub: string, expiresMinutes: nat)

  /** The `Token` response. */
  datatype Token = Token(accessToken: string, tokenType: string)

  /** `db.users.find_one({"email": email})`: the first user with that email. */
  function FindUserByEmail(users: seq<UserDoc>, email: string): (r: Option<UserDoc>)
    ensures r.Some? ==> r.value in users && r.value.email == email
    ensures r.None? ==> forall k :: 0 <= k < |users| ==> users[k].email != email
    ensures r.Some? ==> exists k :: 0 <= k < |users| && users[k] == r.value &&
                                    forall j :: 0 <= j < k ==> users[j].email != email
  {
    if users == [] then None
    else if users[0].email == email then Some(users[0])
    else
      var rest := FindUserByEmail(users[1..], email);
      assert forall k :: 1 <= k < |users| ==> users[k] == users[1..][k - 1];
      assert rest.Some? ==> exists k :: 1 <= k < |users| && users[k] == rest.value &&
                                        forall j :: 0 <= j < k ==> users[j].email != email by {
        if rest.Some? {
          var k :| 0 <= k < |users[1..]| && users[1..][k] == rest.value &&
                   forall j :: 0 <= j < k ==> users[1..][j].email != email;
          assert users[k + 1] == rest.value;
        }
      }
      rest
  }

  /** No two users share an email. */
  predicate EmailsUnique(users: seq<UserDoc>) {
    forall i, j :: 0 <= i < j < |users| ==> users[i].email != users[j].email
  }

  /** An appended user whose email is new is the one found by that email. */
  lemma {:induction false} FindAppendedUser(users: seq<UserDoc>, u: UserDoc)
    requires FindUserByEmail(users, u.email).None?
    ensures FindUserByEmail(users + [u], u.email) == Some(u)
  {
    if users == [] {
      assert users + [u] == [u];
    } else {
      assert (users + [u])[0] == users[0];
      assert (users + [u])[1..] == users[1..] + [u];
      FindAppendedUser(users[1..], u);
    }
  }

  /** Appending a user with a new email keeps emails unique. */
  lemma AppendKeepsEmailsUnique(users: seq<UserDoc>, u: UserDoc)
    requires EmailsUnique(users) && FindUserByEmail(users, u.email).None?
    ensures EmailsUnique(users + [u])
  {
    var all := users + [u];
    forall i, j | 0 <= i < j < |all| ensures all[i].email != all[j].email {
      assert all[i] == users[i];
      if j < |users| {
        assert all[j] == users[j];
      }
    }
  }

  /** The store's invariant survives appending a user with the next id. */
  lemma AppendUserKeepsValid(
    users: seq<UserDoc>, goals: seq<GoalDoc>, habits: seq<HabitDoc>, todos: seq<TodoDoc>, nextId: Id, u: UserDoc)
    requires ValidState(users, goals, habits, todos, nextId) && u.id == nextId
    ensures ValidState(users + [u], goals, habits, todos, nextId + 1)
  {
    var all := users + [u];
    forall k | 0 <= k < |all| ensures all[k].id < nextId + 1 {
      if k < |users| {
        assert all[k] == users[k];
      }
    }
  }

  /** `db.users.insert_one`: the user gets the next id. */
  method InsertUser(db: Store, email: string, hashedPassword: string, createdAt: int) returns (u: UserDoc)
    modifies db`users, db`nextId
    ensures u == UserDoc(old(db.nextId), email, hashedPassword, createdAt)
    ensures db.users == old(db.users) + [u] && db.nextId == old(db.nextId) + 1
  {
    u := UserDoc(db.nextId, email, hashedPassword, createdAt);
    db.users := db.users + [u];
    db.nextId := db.nextId + 1;
  }

  /** `register_user`: a 400 for an email already stored; otherwise one new
      user document holding the email, `hash(password)` and the time `now`,
      which is returned. The password itself is stored nowhere. */
  method RegisterUser(db: Store, email: string, password: string, hash: string -> string, now: int)
    returns (r: Result<UserDoc, HttpError>)
    requires db.Valid()
    modifies db`users, db`nextId
    ensures db.Valid()
    ensures EmailsUnique(old(db.users)) ==> EmailsUnique(db.users)
    ensures FindUserByEmail(old(db.users), email).Some? ==>
      r == Failure(HttpError(400, "Email already registered"))
      && db.users == old(db.users) && db.nextId == old(db.nextId)
    ensures FindUserByEmail(old(db.users), email).None? ==>
      var u := UserDoc(old(db.nextId), email, hash(password), now);
      && r == Success(u)
      && db.users == old(db.users) + [u] && db.nextId == old(db.nextId) + 1
      && FindUserByEmail(db.users, email) == Some(u)
  {
    if FindUserByEmail(db.users, email).Some? {
      return Failure(HttpError(400, "Email already registered"));
    }
    ghost var users0 := db.users;
    var u := InsertUser(db, email, hash(password), now);
    AppendUserKeepsValid(users0, db.goals, db.habits, db.todos, u.id, u);
    FindAppendedUser(users0, u);
    if EmailsUnique(users0) {
      AppendKeepsEmailsUnique(users0, u);
    }
    r := Success(u);
  }

  /** `login_for_access_token`: a 401 for an unknown email or a password
      `verify` rejects; otherwise a bearer token signed over the user's email
      and the 30-minute expiry. */
  function LoginForAccessToken(
    users: seq<UserDoc>, username: string, password: string,
    verify: (string, string) -> bool, sign: TokenClaims -> string): (r: Result<Token, HttpError>)
    ensures r.Failure? <==>
      FindUserByEmail(users, username).None? || !verify(password, FindUserByEmail(users, username).value.hashedPassword)
    ensures r.Failure? ==> r.error == HttpError(401, "Incorrect username or password")
    ensures r.Success? ==>
      && r.value.tokenType == BearerType
      && r.value.accessToken == sign(TokenClaims(username, AccessTokenExpireMinutes))
  {
    var user := FindUserByEmail(users, username);
    if user.None? || !verify(password, user.value.hashedPassword) then
      Failure(HttpError(401, "Incorrect username or password"))
    else
      Success(Token(sign(TokenClaims(user.value.email, AccessTokenExpireMinutes)), BearerType))
  }

  /** Right after registering, logging in with the same email and password
      succeeds whenever `verify` accepts a password against its own hash. */
  lemma RegisteredUserCanLogIn(
    users: seq<UserDoc>, u: UserDoc, password: string, hash: string -> string,
    verify: (string, string) -> bool, sign: TokenClaims -> string)
    requires FindUserByEmail(users, u.email).None?
    requires u.hashedPassword == hash(password) && verify(password, hash(password))
    ensures LoginForAccessToken(users + [u], u.email, password, verify, sign)
      == Success(Token(sign(TokenClaims(u.email, AccessTokenExpireMinutes)), BearerType))
  {
    FindAppendedUser(users, u);
  }

  /** A rejected password never yields a token, whoever registered. */
  lemma WrongPasswordIsRejected(
    users: seq<UserDoc>, username: string, password: string,
    verify: (string, string) -> bool, sign: TokenClaims -> string)
    requires forall k :: 0 <= k < |users| && users[k].email == username ==> !verify(password, users[k].hashedPassword)
    ensures LoginForAccessToken(users, username, password, verify, sign)
      == Failure(HttpError(401, "Incorrect username or password"))
  {
    var user := FindUserByEmail(users, username);
    if user.Some? {
      var k :| 0 <= k < |users| && users[k] == user.value;
    }
  }
}
