/**
 * `AuthContext`: the client's session state machine over the signed-in user,
 * the authenticated flag, the loading flag and the two browser-storage keys
 * that cache the credential.
 */
module AuthContext {
  import opened Wrappers

  /** The user record the server sends and the client caches. */
  datatype UserInfo = UserInfo(id: int, username: string, email: string)

  /** The two storage keys the session uses: `'token'` and `'user'`. */
  datatype Key = TokenKey | UserKey

  /** The browser's storage, as far as the session reads or writes it. */
  type Storage = map<Key, string>

  /** `localStorage.getItem(k)` is truthy: the key is present and its text non-empty. */
  predicate Truthy(storage: Storage, k: Key)
  {
    k in storage && storage[k] != ""
  }

  /** A cached credential: both keys truthy, as `checkAuthStatus` tests them. */
  predicate Cached(storage: Storage)
  {
    Truthy(storage, TokenKey) && Truthy(storage, UserKey)
  }

  /** Storage after `removeItem('token')` and `removeItem('user')`. */
  function Cleared(storage: Storage): (s: Storage)
    ensures TokenKey !in s && UserKey !in s
    ensures forall k :: k in s ==> k in storage && s[k] == storage[k]
  {
    storage - {TokenKey, UserKey}
  }

  /** Clearing twice is clearing once: `logout` is idempotent on storage. */
  lemma ClearedIdempotent(storage: Storage)
    ensures Cleared(Cleared(storage)) == Cleared(storage)
  {
    var once := Cleared(storage);
    assert forall k :: k in Cleared(once) <==> k in once;
  }

  /** What `JSON.parse` made of the stored user text: a value (possibly `null`), or it threw. */
  datatype Parse = Parsed(value: Option<UserInfo>) | Threw

  /** How the background `/auth/me` call ended: the server's user, or an error with its status, if any. */
  datatype Verification = Verified(data: Option<UserInfo>) | Rejected(status: Option<int>)

  /** A 401 or 403: the only verification failure that ends the session. */
  predicate Denied(v: Verification)
  {
    v.Rejected? && (v.status == Some(401) || v.status == Some(403))
  }

  /** How a login or register call ended: the token and user, or an error with the server's message. */
  datatype AuthResponse =
    | Accepted(token: string, userDto: Option<UserInfo>, userText: string)  // userText: JSON.stringify(userDto)
    | Refused(message: Option<string>)

  /** The `{ success, user }` or `{ success: false, error }` object returned to the caller. */
  datatype AuthResult = SignedIn(user: Option<UserInfo>) | NotSignedIn(error: string)

  /** `error.response?.data?.message || fallback`. */
  function FailureText(message: Option<string>, fallback: string): (t: string)
    ensures message.Some? && message.value != "" ==> t == message.value
    ensures message.None? || message.value == "" ==> t == fallback
  {
    if message.Some? && message.value != "" then message.value else fallback
  }

  class Session {
    var user: Option<UserInfo>
    var isAuthenticated: bool
    var loading: bool
    var storage: Storage
    /** How many `checkAuthStatus` calls are suspended on their background verification. */
    var pendingChecks: nat

    /** Authenticated only while both credential keys are stored. */
    ghost predicate Valid()
      reads this
    {
      isAuthenticated ==> TokenKey in storage && UserKey in storage
    }

    /** The provider's initial state over whatever the browser has stored. */
    constructor (stored: Storage)
      ensures Valid()
      ensures user == None && !isAuthenticated && loading && storage == stored && pendingChecks == 0
    {
      user, isAuthenticated, loading, storage, pendingChecks := None, false, true, stored, 0;
    }

    /**
     * `checkAuthStatus()` up to its `await`. With a cached credential the
     * cached user is installed and the session is authenticated before any
     * answer from the server, and a verification is left pending. Without one,
     * or when the cached text does not parse, the session is signed out and
     * loading ends; storage is never touched.
     */
    method CheckAuthStatus(parse: Parse)
      requires Valid()
      modifies this
      ensures Valid()
      ensures storage == old(storage)
      ensures Cached(storage) && parse.Parsed? ==>
                && user == parse.value && isAuthenticated && loading == old(loading)
                && pendingChecks == old(pendingChecks) + 1
      ensures !Cached(storage) || parse.Threw? ==>
                user == None && !isAuthenticated && !loading && pendingChecks == old(pendingChecks)
    {
      if Cached(storage) {
        match parse {
          case Parsed(value) =>
            user := value;
            isAuthenticated := true;
            pendingChecks := pendingChecks + 1;
          case Threw =>
            user := None;
            isAuthenticated := false;
            loading := false;
        }
      } else {
        user := None;
        isAuthenticated := false;
        loading := false;
      }
    }

    /**
     * The rest of a suspended `checkAuthStatus()`, once `/auth/me` answers.
     * Success replaces the in-memory user only; a 401 or 403 logs out; any
     * other failure keeps the session as it is. Loading ends on every path,
     * the early return included, because the `finally` runs.
     */
    method CompleteVerification(v: Verification)
      requires Valid() && pendingChecks > 0
      modifies this
      ensures Valid()
      ensures pendingChecks == old(pendingChecks) - 1 && !loading
      ensures v.Verified? ==>
                user == v.data && isAuthenticated == old(isAuthenticated) && storage == old(storage)
      ensures Denied(v) ==> user == None && !isAuthenticated && storage == Cleared(old(storage))
      ensures v.Rejected? && !Denied(v) ==>
                user == old(user) && isAuthenticated == old(isAuthenticated) && storage == old(storage)
    {
      match v {
        case Verified(data) =>
          user := data;
        case Rejected(status) =>
          if status == Some(401) || status == Some(403) {
            Logout();
          }
      }
      pendingChecks := pendingChecks - 1;
      loading := false;
    }

    /** The shared body of `login` and `register`; `fallback` is the call's own failure text. */
    method SignIn(response: AuthResponse, fallback: string) returns (r: AuthResult)
      requires Valid()
      modifies this
      ensures Valid()
      ensures !loading && pendingChecks == old(pendingChecks)
      ensures response.Accepted? ==>
                && r == SignedIn(response.userDto)
                && storage == old(storage)[TokenKey := response.token][UserKey := response.userText]
                && user == response.userDto && isAuthenticated
      ensures response.Refused? ==>
                && r == NotSignedIn(FailureText(response.message, fallback))
                && storage == old(storage) && user == old(user) && isAuthenticated == old(isAuthenticated)
    {
      loading := true;
      match response {
        case Accepted(token, userDto, userText) =>
          storage := storage[TokenKey := token];
          storage := storage[UserKey := userText];
          user := userDto;
          isAuthenticated := true;
          r := SignedIn(userDto);
        case Refused(message) =>
          r := NotSignedIn(FailureText(message, fallback));
      }
      loading := false;
    }

    /** `login(credentials)`, failing with 'Login failed' when the server gives no message. */
    method Login(response: AuthResponse) returns (r: AuthResult)
      requires Valid()
      modifies this
      ensures Valid()
      ensures !loading && pendingChecks == old(pendingChecks)
      ensures response.Accepted? ==>
                && r == SignedIn(response.userDto)
                && storage == old(storage)[TokenKey := response.token][UserKey := response.userText]
                && user == response.userDto && isAuthenticated
      ensures response.Refused? ==>
                && r == NotSignedIn(FailureText(response.message, "Login failed"))
                && storage == old(storage) && user == old(user) && isAuthenticated == old(isAuthenticated)
    {
      r := SignIn(response, "Login failed");
    }

    /** `register(userData)`, failing with 'Registration failed' when the server gives no message. */
    method Register(response: AuthResponse) returns (r: AuthResult)
      requires Valid()
      modifies this
      ensures Valid()
      ensures !loading && pendingChecks == old(pendingChecks)
      ensures response.Accepted? ==>
                && r == SignedIn(response.userDto)
                && storage == old(storage)[TokenKey := response.token][UserKey := response.userText]
                && user == response.userDto && isAuthenticated
      ensures response.Refused? ==>
                && r == NotSignedIn(FailureText(response.message, "Registration failed"))
                && storage == old(storage) && user == old(user) && isAuthenticated == old(isAuthenticated)
    {
      r := SignIn(response, "Registration failed");
    }

    /** `logout()`: both keys removed, no user, not authenticated; loading is left alone. */
    method Logout()
      modifies this
      ensures Valid()
      ensures storage == Cleared(old(storage)) && user == None && !isAuthenticated
      ensures loading == old(loading) && pendingChecks == old(pendingChecks)
    {
      storage := Cleared(storage);
      user := None;
      isAuthenticated := false;
    }
  }

  /**
   * A verification that answers after a logout still installs the server's
   * user: nothing discards a stale answer, so the session ends with a user
   * but not authenticated.
   */
  method LateVerificationAfterLogout(u: UserInfo) returns (s: Session)
    ensures s.user == Some(u) && !s.isAuthenticated && s.storage == map[]
  {
    s := new Session(map[TokenKey := "t", UserKey := "u"]);
    s.CheckAuthStatus(Parsed(Some(u)));
    s.Logout();
    s.CompleteVerification(Verified(Some(u)));
    assert s.storage == Cleared(map[TokenKey := "t", UserKey := "u"]);
  }
}
