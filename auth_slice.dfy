/**
 * The authentication slice of the web client's store: the initial state read
 * back from browser storage, `logout`, `clearError`, and the pending,
 * fulfilled and rejected cases of the login and register requests.
 */
module AuthSlice {
  import opened Wrappers

  /** The user record the client keeps. */
  datatype User = User(id: string, username: string, email: string)

  /** The body of a successful login or register response. */
  datatype AuthResponse = AuthResponse(accessToken: string, user: User)

  /** `AuthState`. */
  datatype AuthState = AuthState(
    user: Option<User>,
    token: Option<string>,
    isAuthenticated: bool,
    isLoading: bool,
    error: Option<string>)

  /** The state of a signed-out client with nothing in flight. */
  const SignedOut := AuthState(None, None, false, false, None)

  /** The client counts as signed in exactly when it holds both a token and a user. */
  predicate Consistent(s: AuthState) {
    s.isAuthenticated <==> s.token.Some? && s.user.Some?
  }

  /** A stored item JavaScript reads as truthy: present and not the empty string. */
  predicate Truthy(item: Option<string>) {
    item.Some? && item.value != []
  }

  /**
   * `loadAuthState`: outside a browser, or unless both the token and the user
   * are stored, the client starts signed out; otherwise it starts signed in
   * with the stored token and the parsed user.
   */
  function LoadAuthState(hasWindow: bool, storedToken: Option<string>, storedUser: Option<string>,
                         parse: string -> User): (s: AuthState)
    ensures Consistent(s) && !s.isLoading && s.error == None
    ensures s.isAuthenticated <==> hasWindow && Truthy(storedToken) && Truthy(storedUser)
    ensures s.isAuthenticated ==> s.token == storedToken && s.user == Some(parse(storedUser.value))
    ensures !s.isAuthenticated ==> s == SignedOut
  {
    if !hasWindow then SignedOut
    else if Truthy(storedToken) && Truthy(storedUser) then
      AuthState(Some(parse(storedUser.value)), storedToken, true, false, None)
    else SignedOut
  }

  /** With empty storage the client starts signed out. */
  lemma EmptyStorageSignedOut(hasWindow: bool, parse: string -> User)
    ensures LoadAuthState(hasWindow, None, None, parse) == SignedOut
  {
  }

  /** An empty stored token counts as no token, whatever user is stored. */
  lemma EmptyTokenSignedOut(storedUser: Option<string>, parse: string -> User)
    ensures LoadAuthState(true, Some(""), storedUser, parse) == SignedOut
  {
  }

  /** The slice state. */
  class AuthSlice {
    var user: Option<User>
    var token: Option<string>
    var isAuthenticated: bool
    var isLoading: bool
    var error: Option<string>

    /** The fields as one record. */
    function State(): AuthState
      reads this
    {
      AuthState(user, token, isAuthenticated, isLoading, error)
    }

    ghost predicate Valid()
      reads this
    {
      Consistent(State())
    }

    /** The slice created with the state `loadAuthState` returned. */
    constructor (initial: AuthState)
      requires Consistent(initial)
      ensures Valid() && State() == initial
    {
      user := initial.user;
      token := initial.token;
      isAuthenticated := initial.isAuthenticated;
      isLoading := initial.isLoading;
      error := initial.error;
    }

    /** `logout`: user, token and the flag are cleared; loading and error stay. */
    method Logout()
      requires Valid()
      modifies this
      ensures Valid()
      ensures State() == old(State()).(user := None, token := None, isAuthenticated := false)
    {
      user := None;
      token := None;
      isAuthenticated := false;
    }

    /** `clearError`. */
    method ClearError()
      requires Valid()
      modifies this
      ensures Valid()
      ensures State() == old(State()).(error := None)
    {
      error := None;
    }

    /** The `pending` case of login and register. */
    method Pending()
      requires Valid()
      modifies this
      ensures Valid()
      ensures State() == old(State()).(isLoading := true, error := None)
    {
      isLoading := true;
      error := None;
    }

    /** The `fulfilled` case of login and register: signed in with the response's user and token. */
    method Fulfilled(response: AuthResponse)
      requires Valid()
      modifies this
      ensures Valid() && isAuthenticated
      ensures State() == old(State()).(isLoading := false, isAuthenticated := true,
                                       user := Some(response.user), token := Some(response.accessToken))
    {
      isLoading := false;
      isAuthenticated := true;
      user := Some(response.user);
      token := Some(response.accessToken);
    }

    /** The `rejected` case of login and register: the payload is the error message; the session stays. */
    method Rejected(message: string)
      requires Valid()
      modifies this
      ensures Valid()
      ensures State() == old(State()).(isLoading := false, error := Some(message))
    {
      isLoading := false;
      error := Some(message);
    }
  }
}
