/**
 * The authentication store. Its sign-in actions are mocks: success is
 * decided by plain tests on the email or the token, and the user and token
 * are made up locally. Each `Date.now()` reading appears as an opaque
 * stamp string; the simulated waits and the logging are not modelled.
 */
module AuthStore {
  import opened JsText

  datatype User = User(
    id: string,
    email: string,
    displayName: Option<string>,
    provider: string,
    avatarUrl: Option<string>)

  datatype LoginCredentials = LoginCredentials(email: string, password: string)

  datatype RegisterData = RegisterData(email: string, password: string, displayName: Option<string>)

  const OAuthTokenPrefix: string := "simulated-oauth-token-"
  const LoginFailed: string := "Login failed: Invalid credentials (mock)"
  const RegistrationFailed: string := "Registration failed: Email already exists (mock)"
  const OAuthFailed: string := "Failed to validate OAuth session or invalid token received."

  /** The mock login accepts a non-empty email that does not contain "fail". */
  function LoginAccepted(email: string): (b: bool)
    ensures email == "" ==> !b
    ensures Includes(email, "fail") ==> !b
    ensures b || email == "" || Includes(email, "fail")
  {
    email != "" && !Includes(email, "fail")
  }

  /**
   * The mock registration also turns away emails that contain "exist", so
   * it accepts exactly the emails login accepts that do not contain "exist".
   */
  function RegisterAccepted(email: string): (b: bool)
    ensures b ==> LoginAccepted(email)
    ensures Includes(email, "exist") ==> !b
    ensures LoginAccepted(email) && !Includes(email, "exist") ==> b
  {
    email != "" && !Includes(email, "exist") && !Includes(email, "fail")
  }

  /** Only tokens that start with the simulated prefix are accepted. */
  function OAuthAccepted(token: string): (b: bool)
    ensures b <==> |token| >= |OAuthTokenPrefix| && token[..|OAuthTokenPrefix|] == OAuthTokenPrefix
  {
    token != "" && StartsWith(token, OAuthTokenPrefix)
  }

  /**
   * `User ${email.split('@')[0]}`: "User " followed by the email's local
   * part, the text before its first '@' (the whole email when there is none).
   */
  function DefaultDisplayName(email: string): (name: string)
    ensures |name| >= 5 && name[..5] == "User "
    ensures name[5..] <= email
    ensures Avoids(name[5..], {'@'})
    ensures |name| - 5 == |email| || email[|name| - 5] == '@'
  {
    FirstPartIsHead(email, {'@'});
    var local := FirstPart(email, {'@'});
    assert ("User " + local)[5..] == local;
    "User " + local
  }

  /** The mock user made by login and registration. */
  function LocalUser(email: string, displayName: string, stamp: string): (u: User)
    ensures u.email == email && u.provider == "local" && u.displayName == Some(displayName)
  {
    User("user-local-" + stamp, email, Some(displayName), "local", Some("https://i.pravatar.cc/150?u=" + email))
  }

  /** The provider an OAuth token names: "google" when it contains "google", else "github". */
  function OAuthProvider(token: string): (p: string)
    ensures p == "google" <==> Includes(token, "google")
    ensures p == "google" || p == "github"
  {
    if Includes(token, "google") then "google" else "github"
  }

  /** `c.toUpperCase()` on ASCII letters. */
  function UpperCase(c: char): char
  {
    if 'a' <= c <= 'z' then (c as int - 32) as char else c
  }

  /** `s.charAt(0).toUpperCase() + s.slice(1)` */
  function Capitalize(s: string): (r: string)
    ensures |r| == |s|
    ensures s != "" ==> r[0] == UpperCase(s[0]) && r[1..] == s[1..]
  {
    if s == "" then "" else [UpperCase(s[0])] + s[1..]
  }

  /** The mock user made for an accepted OAuth token. */
  function OAuthUser(provider: string): (u: User)
    ensures u.provider == provider && u.avatarUrl == None
    ensures provider <= u.email && u.displayName.Some?
    ensures |u.displayName.value| == |provider| + 5
  {
    User("user-" + provider + "-123", provider + "user@example.com", Some(Capitalize(provider) + " User"), provider, None)
  }

  /** The OAuth user is "Google User" for Google tokens and "Github User" otherwise. */
  lemma OAuthDisplayName(token: string)
    ensures OAuthUser(OAuthProvider(token)).displayName ==
      Some(if Includes(token, "google") then "Google User" else "Github User")
    ensures OAuthUser(OAuthProvider(token)).provider == OAuthProvider(token)
  {
    if Includes(token, "google") {
      assert Capitalize("google") == "Google" by {
        assert UpperCase('g') == 'G';
        assert "google"[1..] == "oogle";
      }
      assert "Google" + " User" == "Google User";
    } else {
      assert Capitalize("github") == "Github" by {
        assert UpperCase('g') == 'G';
        assert "github"[1..] == "ithub";
      }
      assert "Github" + " User" == "Github User";
    }
  }

  class Store {
    var user: Option<User>
    var token: Option<string>
    var isAuthenticated: bool
    var isLoading: bool
    var error: Option<string>

    /** `isAuthenticated` is true exactly when a user is set. */
    ghost predicate Valid()
      reads this
    {
      isAuthenticated <==> user.Some?
    }

    constructor ()
      ensures user == None && token == None && !isAuthenticated && !isLoading && error == None
      ensures Valid()
    {
      user := None;
      token := None;
      isAuthenticated := false;
      isLoading := false;
      error := None;
    }

    /** `setUser(u)` sets the user and derives `isAuthenticated` from it. */
    method SetUser(u: Option<User>)
      modifies this
      ensures Valid()
      ensures user == u && isAuthenticated == u.Some?
      ensures token == old(token) && isLoading == old(isLoading) && error == old(error)
    {
      user := u;
      isAuthenticated := u.Some?;
    }

    /** `setToken(t)`: storing the token securely is not implemented in the store either. */
    method SetToken(t: Option<string>)
      requires Valid()
      modifies this
      ensures Valid()
      ensures token == t
      ensures user == old(user) && isAuthenticated == old(isAuthenticated)
      ensures isLoading == old(isLoading) && error == old(error)
    {
      token := t;
    }

    method SetIsLoading(loading: bool)
      requires Valid()
      modifies this
      ensures Valid()
      ensures isLoading == loading
      ensures user == old(user) && token == old(token) && isAuthenticated == old(isAuthenticated) && error == old(error)
    {
      isLoading := loading;
    }

    /** `setError(e)` records the error and always ends loading. */
    method SetError(e: Option<string>)
      requires Valid()
      modifies this
      ensures Valid()
      ensures error == e && !isLoading
      ensures user == old(user) && token == old(token) && isAuthenticated == old(isAuthenticated)
    {
      error, isLoading := e, false;
    }

    /** `clearAuthError()` clears the error and nothing else. */
    method ClearAuthError()
      requires Valid()
      modifies this
      ensures Valid()
      ensures error == None
      ensures user == old(user) && token == old(token) && isAuthenticated == old(isAuthenticated)
      ensures isLoading == old(isLoading)
    {
      error := None;
    }

    /**
     * The mock `login`: `idStamp` and `tokenStamp` stand for the two
     * `Date.now()` readings put in the made-up id and token.
     */
    method Login(credentials: LoginCredentials, idStamp: string, tokenStamp: string)
      requires Valid()
      modifies this
      ensures Valid()
      ensures !isLoading
      ensures LoginAccepted(credentials.email) ==>
        && user == Some(LocalUser(credentials.email, DefaultDisplayName(credentials.email), idStamp))
        && token == Some("mock-jwt-" + tokenStamp)
        && isAuthenticated && error == None
      ensures !LoginAccepted(credentials.email) ==>
        user == None && token == None && !isAuthenticated && error == Some(LoginFailed)
    {
      isLoading, error := true, None;
      if credentials.email != "" && !Includes(credentials.email, "fail") {
        var mockUser := User("user-local-" + idStamp, credentials.email, Some(DefaultDisplayName(credentials.email)),
                             "local", Some("https://i.pravatar.cc/150?u=" + credentials.email));
        SetUser(Some(mockUser));
        SetToken(Some("mock-jwt-" + tokenStamp));
        isLoading := false;
      } else {
        SetUser(None);
        SetToken(None);
        error, isLoading := Some(LoginFailed), false;
      }
    }

    /** The mock `register`: a given truthy display name wins over the one made from the email. */
    method Register(data: RegisterData, idStamp: string, tokenStamp: string)
      requires Valid()
      modifies this
      ensures Valid()
      ensures !isLoading
      ensures RegisterAccepted(data.email) ==>
        && user == Some(LocalUser(data.email, OrElse(data.displayName, DefaultDisplayName(data.email)), idStamp))
        && token == Some("mock-jwt-register-" + tokenStamp)
        && isAuthenticated && error == None
      ensures !RegisterAccepted(data.email) ==>
        user == None && token == None && !isAuthenticated && error == Some(RegistrationFailed)
    {
      isLoading, error := true, None;
      if data.email != "" && !Includes(data.email, "exist") && !Includes(data.email, "fail") {
        var mockUser := User("user-local-" + idStamp, data.email,
                             Some(OrElse(data.displayName, DefaultDisplayName(data.email))),
                             "local", Some("https://i.pravatar.cc/150?u=" + data.email));
        SetUser(Some(mockUser));
        SetToken(Some("mock-jwt-register-" + tokenStamp));
        isLoading := false;
      } else {
        SetUser(None);
        SetToken(None);
        error, isLoading := Some(RegistrationFailed), false;
      }
    }

    /** `loginWithGoogle()` only starts loading; the main-process side is not implemented. */
    method LoginWithGoogle()
      requires Valid()
      modifies this
      ensures Valid()
      ensures isLoading && error == None
      ensures user == old(user) && token == old(token) && isAuthenticated == old(isAuthenticated)
    {
      isLoading, error := true, None;
    }

    /** `loginWithGitHub()` only starts loading, like loginWithGoogle. */
    method LoginWithGitHub()
      requires Valid()
      modifies this
      ensures Valid()
      ensures isLoading && error == None
      ensures user == old(user) && token == old(token) && isAuthenticated == old(isAuthenticated)
    {
      isLoading, error := true, None;
    }

    /** `handleOAuthToken(oauthToken)`: an accepted token signs in the provider's mock user. */
    method HandleOAuthToken(oauthToken: string, stamp: string)
      requires Valid()
      modifies this
      ensures Valid()
      ensures !isLoading
      ensures OAuthAccepted(oauthToken) ==>
        && user == Some(OAuthUser(OAuthProvider(oauthToken)))
        && token == Some("mock-app-jwt-for-" + OAuthProvider(oauthToken) + "-" + stamp)
        && isAuthenticated && error == None
      ensures !OAuthAccepted(oauthToken) ==>
        user == None && token == None && !isAuthenticated && error == Some(OAuthFailed)
    {
      isLoading, error := true, None;
      if oauthToken != "" && StartsWith(oauthToken, OAuthTokenPrefix) {
        var provider := if Includes(oauthToken, "google") then "google" else "github";
        var mockUser := User("user-" + provider + "-123", provider + "user@example.com",
                             Some(Capitalize(provider) + " User"), provider, None);
        SetToken(Some("mock-app-jwt-for-" + provider + "-" + stamp));
        SetUser(Some(mockUser));
        isLoading := false;
      } else {
        SetToken(None);
        SetUser(None);
        error, isLoading := Some(OAuthFailed), false;
      }
    }

    /** `logout()` clears the user and the token; loading and error are left as they are. */
    method Logout()
      requires Valid()
      modifies this
      ensures Valid()
      ensures user == None && token == None && !isAuthenticated
      ensures isLoading == old(isLoading) && error == old(error)
    {
      SetUser(None);
      SetToken(None);
    }

    /**
     * `loadUserFromToken()`, given what secure storage holds: with no token
     * nothing changes; with one, loading starts (and, as in the store, is
     * never ended, since validating the token is not implemented).
     */
    method LoadUserFromToken(storedToken: Option<string>)
      requires Valid()
      modifies this
      ensures Valid()
      ensures !Truthy(storedToken) ==> isLoading == old(isLoading)
      ensures Truthy(storedToken) ==> isLoading
      ensures user == old(user) && token == old(token) && isAuthenticated == old(isAuthenticated)
      ensures error == old(error)
    {
      if Truthy(storedToken) {
        isLoading := true;
      }
    }
  }
}
