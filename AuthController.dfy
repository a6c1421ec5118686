/**
 * Registration and login (Backend/src/controller/authController.js) over
 * the user table, a map from username to the stored account.
 */
module AuthController {
  import opened Wrappers
  import opened Types
  import opened JsString
  import opened Crypto
  import opened Http

  /** A stored account: the hash of the password, never the password. */
  datatype Account = Account(id: int, username: string, passwordHash: string)

  const MissingCredentials := Response(400, Message("Username and password are required"))
  const UserExists := Response(400, Message("User already exists"))
  const UserNotFound := Response(404, Message("User not found"))
  const InvalidPassword := Response(401, Message("Invalid password"))

  /** The user table; `nextId` is the store's autoincrement counter. */
  class UserStore {
    var accounts: map<string, Account>
    var nextId: int

    /** Each account sits under its own username and ids are distinct and already issued. */
    ghost predicate Valid()
      reads this
    {
      && nextId >= 1
      && (forall u :: u in accounts ==> accounts[u].username == u && 1 <= accounts[u].id < nextId)
      && (forall u, v :: u in accounts && v in accounts && accounts[u].id == accounts[v].id ==> u == v)
    }

    constructor ()
      ensures Valid() && accounts == map[] && nextId == 1
    {
      accounts := map[];
      nextId := 1;
    }

    /**
     * `register` for the request body `{ username, password }`; `salt` is
     * the randomness bcrypt draws. Missing fields are checked before the
     * duplicate, and only a fresh username is stored, with the password's
     * hash; the response carries the id and username only.
     */
    method Register(hasher: Hasher, username: Option<string>, password: Option<string>, salt: Salt)
      returns (resp: Response)
      requires Valid()
      modifies this
      ensures Valid()
      ensures !Truthy(username) || !Truthy(password) ==>
        resp == MissingCredentials && accounts == old(accounts) && nextId == old(nextId)
      ensures Truthy(username) && Truthy(password) && username.value in old(accounts) ==>
        resp == UserExists && accounts == old(accounts) && nextId == old(nextId)
      ensures Truthy(username) && Truthy(password) && username.value !in old(accounts) ==>
        && resp == Response(201, UserJson(User(old(nextId), username.value)))
        && accounts == old(accounts)[username.value := Account(old(nextId), username.value, hasher.hash(password.value, salt))]
        && nextId == old(nextId) + 1
    {
      if !Truthy(username) || !Truthy(password) {
        return MissingCredentials;
      }
      if username.value in accounts {
        return UserExists;
      }
      var hashed := hasher.hash(password.value, salt);
      var id := nextId;
      accounts := accounts[username.value := Account(id, username.value, hashed)];
      nextId := nextId + 1;
      resp := Response(201, UserJson(User(id, username.value)));
    }
  }

  /**
   * `login` against the user table at clock reading `now` (seconds): 400,
   * 404 and 401 in that order, else 200 with a token signed over the
   * account's id that expires an hour later. It only reads the table.
   */
  function Login(accounts: map<string, Account>, hasher: Hasher, ts: TokenService,
                 username: Option<string>, password: Option<string>, now: int): (resp: Response)
    ensures !Truthy(username) || !Truthy(password) ==> resp == MissingCredentials
    ensures Truthy(username) && Truthy(password) && username.value !in accounts ==> resp == UserNotFound
    ensures Truthy(username) && Truthy(password) && username.value in accounts ==>
      resp == if hasher.compare(password.value, accounts[username.value].passwordHash)
              then Response(200, TokenJson(ts.sign(LoginClaims(accounts[username.value].id, now))))
              else InvalidPassword
  {
    if !Truthy(username) || !Truthy(password) then MissingCredentials
    else if username.value !in accounts then UserNotFound
    else
      var account := accounts[username.value];
      if !hasher.compare(password.value, account.passwordHash) then InvalidPassword
      else Response(200, TokenJson(ts.sign(LoginClaims(account.id, now))))
  }

  /**
   * Logging in with the credentials an account was registered with succeeds,
   * because a password matches any hash of itself.
   */
  lemma LoginAfterRegister(accounts: map<string, Account>, hasher: Hasher, ts: TokenService,
                           username: string, password: string, id: int, salt: Salt, now: int)
    requires HashRoundTrip(hasher)
    requires username != "" && password != ""
    ensures var registered := accounts[username := Account(id, username, hasher.hash(password, salt))];
      Login(registered, hasher, ts, Some(username), Some(password), now)
        == Response(200, TokenJson(ts.sign(LoginClaims(id, now))))
  {
  }
}
