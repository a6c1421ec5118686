/**
 * The client's session store (Frontend/src/features/auth/authSlice.ts):
 * the reducers' field updates, with the browser's persisted "token" entry
 * kept as a field of the store. The thunks' HTTP calls are not modelled;
 * their payloads are the methods' arguments.
 */
module AuthSlice {
  import opened Wrappers
  import opened Types
  import opened ThunkErrors

  /** The two thunks whose lifecycle actions the slice handles. */
  datatype AuthThunk = LoginUser | RegisterUser

  /** The error a rejection without a message leaves. */
  function RejectFallback(thunk: AuthThunk): (m: string)
    ensures m != ""
  {
    match thunk
    case LoginUser => "Login failed"
    case RegisterUser => "Registration failed"
  }

  /** A fulfilled payload `{ user, token }`; the server may leave either out. */
  datatype AuthPayload = AuthPayload(user: Option<User>, token: Option<string>)

  /** The `auth` slice of the client's store, and the persisted token. */
  class AuthStore {
    var user: Option<User>
    var token: Option<string>
    var loading: bool
    var error: Option<string>
    /** `localStorage.getItem("token")`. */
    var storedToken: Option<string>

    /** `initialState`: no user, no error, not loading, and the token read back from storage. */
    constructor (stored: Option<string>)
      ensures user == None && token == stored && !loading && error == None
      ensures storedToken == stored
    {
      user := None;
      token := stored;
      loading := false;
      error := None;
      storedToken := stored;
    }

    /** `logout`: storage and session are cleared; the loading flag is left alone. */
    method Logout()
      modifies this
      ensures storedToken == None && user == None && token == None && error == None
      ensures loading == old(loading)
    {
      storedToken := None;
      user := None;
      token := None;
      error := None;
    }

    /** `loginUser.pending` and `registerUser.pending`: loading, and the last error cleared. */
    method Pending(thunk: AuthThunk)
      modifies this
      ensures loading && error == None
      ensures user == old(user) && token == old(token) && storedToken == old(storedToken)
    {
      loading := true;
      error := None;
    }

    /**
     * `loginUser.fulfilled` and `registerUser.fulfilled`: user and token are
     * copied from the payload as they are, absent ones included.
     */
    method Fulfilled(thunk: AuthThunk, payload: AuthPayload)
      modifies this
      ensures !loading && user == payload.user && token == payload.token
      ensures error == old(error) && storedToken == old(storedToken)
    {
      loading := false;
      token := payload.token;
      user := payload.user;
    }

    /** `loginUser.rejected` and `registerUser.rejected`: the rejection's message, or the thunk's fallback. */
    method Rejected(thunk: AuthThunk, payload: Option<string>)
      modifies this
      ensures !loading && error == Some(RejectionMessage(payload, RejectFallback(thunk)))
      ensures user == old(user) && token == old(token) && storedToken == old(storedToken)
    {
      loading := false;
      error := Some(RejectionMessage(payload, RejectFallback(thunk)));
    }

    /**
     * A successful `loginUser`: the thunk writes the returned token to
     * storage (an absent one is written as the text "undefined"), then the
     * fulfilled reducer runs. Registration stores nothing.
     */
    method LoginSucceeded(payload: AuthPayload)
      modifies this
      ensures storedToken == Some(if payload.token.Some? then payload.token.value else "undefined")
      ensures !loading && user == payload.user && token == payload.token && error == old(error)
    {
      storedToken := Some(if payload.token.Some? then payload.token.value else "undefined");
      Fulfilled(LoginUser, payload);
    }
  }
}
