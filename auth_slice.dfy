/** The mobile auth slice (mobile-expo/src/store/auth/authSlice.ts): the signed-in user,
    the token pair and the flags, and the guards of the two thunks that read stored
    tokens. */
module AuthSlice {
  import opened Wrappers
  import opened ClientNotes

  /** An access token and a refresh token. */
  datatype Tokens = Tokens(accessToken: string, refreshToken: string)

  /** What login, registration and refresh answer. */
  datatype LoginResponse = LoginResponse(tokens: Tokens, user: User)

  /** `error.message || fallback`. */
  function MessageOr(message: string, fallback: string): (m: string)
    ensures message != "" ==> m == message
    ensures message == "" ==> m == fallback
  {
    if message != "" then message else fallback
  }

  /** `loginUser` and `registerUser`: the response, or the thrown message with the
      thunk's fallback text. */
  function CredentialsResult(reply: Result<LoginResponse>, fallback: string): (r: ThunkResult<LoginResponse>)
    ensures r.Fulfilled? <==> reply.Ok?
    ensures r.Fulfilled? ==> r.value == reply.value
    ensures r.Rejected? ==> r.payload == Some(MessageOr(reply.message, fallback))
  {
    match reply
    case Ok(response) => Fulfilled(response)
    case Err(message) => Rejected(Some(MessageOr(message, fallback)))
  }

  /** `refreshToken`: with no stored refresh token (absent or empty) it rejects before
      calling the API; otherwise it passes on what the API answers for that token. */
  function RefreshTokenResult(stored: Option<string>, reply: Result<LoginResponse>): (r: ThunkResult<LoginResponse>)
    ensures stored.None? || stored.value == "" ==> r == Rejected(Some("No refresh token available"))
    ensures stored.Some? && stored.value != "" ==> r == CredentialsResult(reply, "Token refresh failed")
    ensures r.Fulfilled? ==> stored.Some? && stored.value != "" && reply.Ok?
  {
    if stored.None? || stored.value == "" then Rejected(Some("No refresh token available"))
    else CredentialsResult(reply, "Token refresh failed")
  }

  /** `loadUserFromStorage`: fulfils with the stored pair exactly when both tokens are
      present and non-empty. */
  function LoadUserResult(access: Option<string>, refresh: Option<string>): (r: ThunkResult<Tokens>)
    ensures r.Fulfilled? <==> access.Some? && access.value != "" && refresh.Some? && refresh.value != ""
    ensures r.Fulfilled? ==> r.value == Tokens(access.value, refresh.value)
    ensures r.Rejected? ==> r.payload == Some("No stored tokens")
  {
    if access.Some? && access.value != "" && refresh.Some? && refresh.value != "" then
      Fulfilled(Tokens(access.value, refresh.value))
    else
      Rejected(Some("No stored tokens"))
  }

  datatype AuthView = AuthView(
    user: Option<User>,
    accessToken: Option<string>,
    refreshToken: Option<string>,
    isLoading: bool,
    error: Option<string>,
    isAuthenticated: bool)

  class AuthState {
    var user: Option<User>
    var accessToken: Option<string>
    var refreshToken: Option<string>
    var isLoading: bool
    var error: Option<string>
    var isAuthenticated: bool

    ghost function View(): AuthView
      reads this
    {
      AuthView(user, accessToken, refreshToken, isLoading, error, isAuthenticated)
    }

    /** Signed in exactly when an access token is held, and the two tokens are held or
        dropped together. */
    predicate Valid()
      reads this
    {
      (isAuthenticated <==> accessToken.Some?) && (accessToken.Some? <==> refreshToken.Some?)
    }

    constructor ()
      ensures Valid()
      ensures View() == AuthView(None, None, None, false, None, false)
    {
      user := None;
      accessToken := None;
      refreshToken := None;
      isLoading := false;
      error := None;
      isAuthenticated := false;
    }

    /** Forgets the user and both tokens. */
    method Logout()
      modifies this
      ensures Valid()
      ensures View() == old(View()).(user := None, accessToken := None, refreshToken := None,
                                     isAuthenticated := false, error := None)
    {
      user := None;
      accessToken := None;
      refreshToken := None;
      isAuthenticated := false;
      error := None;
    }

    method ClearError()
      requires Valid()
      modifies this
      ensures Valid()
      ensures View() == old(View()).(error := None)
    {
      error := None;
    }

    /** Stores a token pair without touching the user. */
    method SetTokens(tokens: Tokens)
      modifies this
      ensures Valid()
      ensures View() == old(View()).(accessToken := Some(tokens.accessToken),
                                     refreshToken := Some(tokens.refreshToken), isAuthenticated := true)
    {
      accessToken := Some(tokens.accessToken);
      refreshToken := Some(tokens.refreshToken);
      isAuthenticated := true;
    }

    /** `loginUser.pending` and `registerUser.pending`. */
    method CredentialsPending()
      requires Valid()
      modifies this
      ensures Valid()
      ensures View() == old(View()).(isLoading := true, error := None)
    {
      isLoading := true;
      error := None;
    }

    /** `loginUser.fulfilled` and `registerUser.fulfilled`. */
    method CredentialsFulfilled(response: LoginResponse)
      modifies this
      ensures Valid()
      ensures View() == AuthView(Some(response.user), Some(response.tokens.accessToken),
                                 Some(response.tokens.refreshToken), false, None, true)
    {
      isLoading := false;
      user := Some(response.user);
      accessToken := Some(response.tokens.accessToken);
      refreshToken := Some(response.tokens.refreshToken);
      isAuthenticated := true;
      error := None;
    }

    /** `loginUser.rejected` and `registerUser.rejected`: the tokens and the signed-in
        flag stay. */
    method CredentialsRejected(payload: Option<string>)
      requires Valid()
      modifies this
      ensures Valid()
      ensures View() == old(View()).(isLoading := false, error := payload)
    {
      isLoading := false;
      error := payload;
    }

    /** `refreshToken.fulfilled`: the new pair, the user and the loading flag untouched. */
    method RefreshFulfilled(response: LoginResponse)
      modifies this
      ensures Valid()
      ensures View() == old(View()).(accessToken := Some(response.tokens.accessToken),
                                     refreshToken := Some(response.tokens.refreshToken), isAuthenticated := true)
    {
      accessToken := Some(response.tokens.accessToken);
      refreshToken := Some(response.tokens.refreshToken);
      isAuthenticated := true;
    }

    /** `loadUserFromStorage.fulfilled`. */
    method LoadUserFulfilled(tokens: Tokens)
      modifies this
      ensures Valid()
      ensures View() == old(View()).(accessToken := Some(tokens.accessToken),
                                     refreshToken := Some(tokens.refreshToken), isAuthenticated := true)
    {
      accessToken := Some(tokens.accessToken);
      refreshToken := Some(tokens.refreshToken);
      isAuthenticated := true;
    }

    /** `refreshToken.rejected` and `loadUserFromStorage.rejected`: signed out, with the
        error and the loading flag untouched. */
    method SessionRejected()
      modifies this
      ensures Valid()
      ensures View() == old(View()).(user := None, accessToken := None, refreshToken := None, isAuthenticated := false)
    {
      user := None;
      accessToken := None;
      refreshToken := None;
      isAuthenticated := false;
    }
  }
}
