/** `POST /api/signup`, `POST /api/login` and `POST /api/logout`: sign-up
    stores a username with the hash of its password, login checks a password
    against the stored hash and sets a session cookie, logout clears it.
    The `users` table is the state; bcrypt is passed in as a pair of functions. */
module Auth {
  import opened Common

  /** A row of `users`: the id the store generated and the password hash. */
  datatype Account = Account(id: nat, hash: string)

  /** bcrypt as the handlers use it: `hash(password)` and `compare(password, hash)`.
      Nothing is assumed about them unless a lemma says so. */
  datatype Crypto = Crypto(hash: string -> string, compare: (string, string) -> bool)

  /** What a response does to the `token` cookie: nothing, set it to a token
      for a user id (signed, one hour), or clear it. */
  datatype Cookie = NoCookie | SetToken(userId: nat) | ClearToken

  /** A response: status, the `message` of its JSON body, and its cookie. */
  datatype Reply = Reply(status: int, message: string, cookie: Cookie)

  /** The `users` table keyed by username, and the id the store hands out next. */
  datatype Users = Users(accounts: map<string, Account>, nextId: nat)

  /** Ids were handed out by the store: each is below the next one and no two users share one. */
  predicate ValidUsers(u: Users) {
    (forall n :: n in u.accounts ==> u.accounts[n].id < u.nextId)
    && (forall n, m :: n in u.accounts && m in u.accounts && n != m ==> u.accounts[n].id != u.accounts[m].id)
  }

  const MissingFields := "Username and password are required."
  const AlreadyExists := "Username already exists."
  const Registered := "User registered successfully."
  const ServerError := "Internal server error."
  const BadCredentials := "Invalid credentials."
  const LoggedIn := "Login successful."
  const LoggedOut := "Logged out successfully."

  /** Sign-up against `users`; `online` is false when the store's queries fail.
      It answers 201 and adds exactly the new username, or answers 400 or 500
      and leaves the table as it was. */
  function SignUp(users: Users, online: bool, username: Option<string>, password: Option<string>,
                  crypto: Crypto): (out: (Reply, Users))
    ensures out.0.status == 201 <==>
      Supplied(username) && Supplied(password) && online && username.value !in users.accounts
    ensures out.0.status != 201 ==> out.1 == users && out.0.status in {400, 500}
    ensures out.0.status == 400 <==>
      !Supplied(username) || !Supplied(password) || (online && username.value in users.accounts)
    ensures out.0.status == 201 ==>
      out.1.accounts.Keys == users.accounts.Keys + {username.value}
      && out.1.accounts[username.value] == Account(users.nextId, crypto.hash(password.value))
      && (forall n :: n in users.accounts ==> out.1.accounts[n] == users.accounts[n])
      && out.1.nextId == users.nextId + 1
    ensures out.0.status == 400 ==>
      out.0.message == (if !Supplied(username) || !Supplied(password) then MissingFields else AlreadyExists)
    ensures out.0.status == 500 ==> out.0.message == ServerError
    ensures out.0.cookie == NoCookie
  {
    if !Supplied(username) || !Supplied(password) then (Reply(400, MissingFields, NoCookie), users)
    else if !online then (Reply(500, ServerError, NoCookie), users)
    else if username.value in users.accounts then (Reply(400, AlreadyExists, NoCookie), users)
    else
      var account := Account(users.nextId, crypto.hash(password.value));
      (Reply(201, Registered, NoCookie), Users(users.accounts[username.value := account], users.nextId + 1))
  }

  /** Login against `users`: 200 and a token for the user's id exactly when the
      user exists and the password matches its hash. */
  function Login(users: Users, online: bool, username: Option<string>, password: Option<string>,
                 crypto: Crypto): (r: Reply)
    ensures r.status == 200 <==>
      Supplied(username) && Supplied(password) && online && username.value in users.accounts
      && crypto.compare(password.value, users.accounts[username.value].hash)
    ensures r.status == 200 ==> r == Reply(200, LoggedIn, SetToken(users.accounts[username.value].id))
    ensures r.status != 200 ==> r.cookie == NoCookie && r.status in {400, 500}
    ensures !Supplied(username) || !Supplied(password) ==> r == Reply(400, MissingFields, NoCookie)
    ensures r.status == 500 <==> Supplied(username) && Supplied(password) && !online
    ensures r.status == 500 ==> r.message == ServerError
  {
    if !Supplied(username) || !Supplied(password) then Reply(400, MissingFields, NoCookie)
    else if !online then Reply(500, ServerError, NoCookie)
    else if username.value !in users.accounts then Reply(400, BadCredentials, NoCookie)
    else if !crypto.compare(password.value, users.accounts[username.value].hash) then Reply(400, BadCredentials, NoCookie)
    else Reply(200, LoggedIn, SetToken(users.accounts[username.value].id))
  }

  /** Logout answers 200 and clears the cookie; nothing on the server changes. */
  function Logout(): (r: Reply)
    ensures r.status == 200 && r.cookie == ClearToken
  {
    Reply(200, LoggedOut, ClearToken)
  }

  /** The session a browser holds after a response: the user id its token was issued for, if any. */
  function Session(held: Option<nat>, c: Cookie): (s: Option<nat>)
    ensures c.SetToken? ==> s == Some(c.userId)
    ensures c.ClearToken? ==> s == None
    ensures c.NoCookie? ==> s == held
  {
    match c
    case NoCookie => held
    case SetToken(id) => Some(id)
    case ClearToken => None
  }

  /** Sign-up keeps the ids unique and below the next one. */
  lemma SignUpKeepsValid(users: Users, online: bool, username: Option<string>, password: Option<string>, crypto: Crypto)
    requires ValidUsers(users)
    ensures ValidUsers(SignUp(users, online, username, password, crypto).1)
  {
    var after := SignUp(users, online, username, password, crypto).1;
    if after != users {
      var u := username.value;
      forall n | n in after.accounts ensures after.accounts[n].id < after.nextId {
        if n != u {
          assert after.accounts[n] == users.accounts[n];
        }
      }
      forall n, m | n in after.accounts && m in after.accounts && n != m
        ensures after.accounts[n].id != after.accounts[m].id
      {
        if n == u {
          assert after.accounts[m] == users.accounts[m];
        } else if m == u {
          assert after.accounts[n] == users.accounts[n];
        } else {
          assert after.accounts[n] == users.accounts[n] && after.accounts[m] == users.accounts[m];
        }
      }
    }
  }

  /** Two sign-ups in a row with the same username never both succeed: after a
      201 the second one is told the name exists (or fails with the store). */
  lemma NoDoubleSignUp(users: Users, online1: bool, online2: bool, username: Option<string>,
                       password1: Option<string>, password2: Option<string>, crypto: Crypto)
    ensures var (first, after) := SignUp(users, online1, username, password1, crypto);
            var (second, _) := SignUp(after, online2, username, password2, crypto);
            first.status == 201 ==>
              second.status != 201
              && (online2 && Supplied(password2) ==> second == Reply(400, AlreadyExists, NoCookie))
  {
  }

  /** With the store up, two sign-ups of a new name give one 201 and then one 400. */
  lemma SignUpTwiceFreshName(users: Users, username: string, password1: string, password2: string, crypto: Crypto)
    requires username != "" && password1 != "" && password2 != ""
    requires username !in users.accounts
    ensures var (first, after) := SignUp(users, true, Some(username), Some(password1), crypto);
            var (second, final) := SignUp(after, true, Some(username), Some(password2), crypto);
            first.status == 201 && second == Reply(400, AlreadyExists, NoCookie) && final == after
  {
  }

  /** An unknown user and a wrong password get the very same response. */
  lemma LoginFailuresIdentical(users: Users, username: string, password: string, crypto: Crypto)
    requires username != "" && password != ""
    requires username !in users.accounts || !crypto.compare(password, users.accounts[username].hash)
    ensures Login(users, true, Some(username), Some(password), crypto) == Reply(400, BadCredentials, NoCookie)
  {
  }

  /** A user who just signed up can log in with the same password, provided
      bcrypt accepts a password against its own hash, and gets a token for the
      id the store generated. */
  lemma SignUpThenLogin(users: Users, username: string, password: string, crypto: Crypto)
    requires username != "" && password != "" && username !in users.accounts
    requires crypto.compare(password, crypto.hash(password))
    ensures var (_, after) := SignUp(users, true, Some(username), Some(password), crypto);
            Login(after, true, Some(username), Some(password), crypto) == Reply(200, LoggedIn, SetToken(users.nextId))
  {
    var (_, after) := SignUp(users, true, Some(username), Some(password), crypto);
    assert after.accounts[username] == Account(users.nextId, crypto.hash(password));
  }

  /** A sign-up changes no other user's login. */
  lemma SignUpKeepsOtherLogins(users: Users, online: bool, username: Option<string>, password: Option<string>,
                               other: Option<string>, otherPassword: Option<string>, crypto: Crypto)
    requires Supplied(other) && (!Supplied(username) || other.value != username.value)
    ensures var (_, after) := SignUp(users, online, username, password, crypto);
            Login(after, online, other, otherPassword, crypto) == Login(users, online, other, otherPassword, crypto)
  {
    var (r, after) := SignUp(users, online, username, password, crypto);
    if r.status == 201 {
      assert other.value in after.accounts <==> other.value in users.accounts;
      if other.value in users.accounts {
        assert after.accounts[other.value] == users.accounts[other.value];
      }
    }
  }

  /** After a successful login the browser holds a session for that user;
      after logout it holds none, whatever it held before. */
  lemma LoginThenLogoutSession(users: Users, username: string, password: string, crypto: Crypto, held: Option<nat>)
    requires username in users.accounts && Login(users, true, Some(username), Some(password), crypto).status == 200
    ensures Session(held, Login(users, true, Some(username), Some(password), crypto).cookie)
            == Some(users.accounts[username].id)
    ensures Session(Session(held, Login(users, true, Some(username), Some(password), crypto).cookie), Logout().cookie)
            == None
  {
  }

  /** The token a successful login sets identifies the user: two logins that
      both succeed and set the same token were for the same username. */
  lemma TokenIdentifiesUser(users: Users, username1: Option<string>, password1: Option<string>,
                            username2: Option<string>, password2: Option<string>, crypto: Crypto)
    requires ValidUsers(users)
    requires Login(users, true, username1, password1, crypto).status == 200
    requires Login(users, true, username2, password2, crypto).status == 200
    requires Login(users, true, username1, password1, crypto).cookie == Login(users, true, username2, password2, crypto).cookie
    ensures username1.value == username2.value
  {
  }

  /** The `users` table as the handlers reach it through `db.query`. */
  class UserStore {
    var accounts: map<string, Account>
    var nextId: nat
    /** False when the store cannot be reached: every query then throws. */
    var online: bool

    function State(): Users
      reads this
    {
      Users(accounts, nextId)
    }

    ghost predicate Valid()
      reads this
    {
      ValidUsers(State())
    }

    /** An empty table whose ids start at 1. */
    constructor (online: bool)
      ensures Valid() && State() == Users(map[], 1) && this.online == online
    {
      accounts := map[];
      nextId := 1;
      this.online := online;
    }

    /** `SELECT * FROM users WHERE username = $1`. */
    method FindUser(username: string) returns (result: DbResult<seq<Account>>)
      ensures result.Rows? <==> online
      ensures result.Rows? ==> (|result.rows| > 0 <==> username in accounts)
      ensures result.Rows? && |result.rows| > 0 ==> result.rows[0] == accounts[username]
    {
      if !online {
        return DbError;
      }
      if username in accounts {
        result := Rows([accounts[username]]);
      } else {
        result := Rows([]);
      }
    }

    /** `INSERT INTO users (username, password) VALUES ($1, $2)`: a new row with
        the next generated id. The handler only inserts a name it has just
        found absent. */
    method Insert(username: string, hash: string) returns (ok: bool)
      requires Valid() && username !in accounts
      modifies this
      ensures Valid()
      ensures ok == online && online == old(online)
      ensures ok ==> State() == Users(old(accounts)[username := Account(old(nextId), hash)], old(nextId) + 1)
      ensures !ok ==> State() == old(State())
    {
      ok := online;
      if ok {
        accounts := accounts[username := Account(nextId, hash)];
        nextId := nextId + 1;
      }
    }
  }

  /** The sign-up handler: check the fields, look the name up, hash, insert. */
  method SignUpHandler(store: UserStore, username: Option<string>, password: Option<string>, crypto: Crypto)
    returns (reply: Reply)
    requires store.Valid()
    modifies store
    ensures store.Valid() && store.online == old(store.online)
    ensures (reply, store.State()) == SignUp(old(store.State()), old(store.online), username, password, crypto)
  {
    if !Supplied(username) || !Supplied(password) {
      return Reply(400, "Username and password are required.", NoCookie);
    }
    var userExists := store.FindUser(username.value);
    if userExists.DbError? {
      return Reply(500, "Internal server error.", NoCookie);
    }
    if |userExists.rows| > 0 {
      return Reply(400, "Username already exists.", NoCookie);
    }
    var hashedPassword := crypto.hash(password.value);
    ghost var before := store.State();
    var inserted := store.Insert(username.value, hashedPassword);
    if !inserted {
      return Reply(500, "Internal server error.", NoCookie);
    }
    SignUpKeepsValid(before, true, username, password, crypto);
    return Reply(201, "User registered successfully.", NoCookie);
  }

  /** The login handler: check the fields, look the name up, compare, issue the token. */
  method LoginHandler(store: UserStore, username: Option<string>, password: Option<string>, crypto: Crypto)
    returns (reply: Reply)
    ensures reply == Login(store.State(), store.online, username, password, crypto)
  {
    if !Supplied(username) || !Supplied(password) {
      return Reply(400, "Username and password are required.", NoCookie);
    }
    var user := store.FindUser(username.value);
    if user.DbError? {
      return Reply(500, "Internal server error.", NoCookie);
    }
    if |user.rows| == 0 {
      return Reply(400, "Invalid credentials.", NoCookie);
    }
    var validPassword := crypto.compare(password.value, user.rows[0].hash);
    if !validPassword {
      return Reply(400, "Invalid credentials.", NoCookie);
    }
    return Reply(200, "Login successful.", SetToken(user.rows[0].id));
  }
}
