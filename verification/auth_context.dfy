/**
 * The browser-side session of the application: the signed-in `user`, the `isLoading` flag and
 * the two cookies `auth-token` and `user-data` that carry the session across page loads.
 *
 * The request to the login route, `JSON.parse` and `JSON.stringify` are parameters: `reply` is
 * the parsed JSON answer of the route, or `None` when the request or the parsing threw.
 */
module AuthContext {
  import opened Types

  /** A cookie's value and its lifetime in days (`None`: a session cookie). */
  datatype Cookie = Cookie(value: string, expiresDays: Option<int>)

  /** What `JSON.parse` makes of the stored profile: it throws, or yields a user or `null`. */
  datatype Parsed = ParseError | Parsed(user: Option<User>)

  /** The JSON answer of the login route, as far as the provider reads it. */
  datatype LoginReply = LoginReply(success: bool, user: Option<User>, token: Option<string>)

  const AuthToken: string := "auth-token"
  const UserData: string := "user-data"
  const CookieDays: int := 7
  const LoginPath: string := "/login"

  /** `Cookies.get(name)`: the value, or `None` when the cookie is not set. */
  function CookieValue(jar: map<string, Cookie>, name: string): (v: Option<string>)
    ensures v.Some? <==> name in jar
    ensures v.Some? ==> v.value == jar[name].value
  {
    if name in jar then Some(jar[name].value) else None
  }

  class AuthProvider {
    var user: Option<User>
    var isLoading: bool
    var cookies: map<string, Cookie>
    /** The page `window.location.href` was last sent to, if any. */
    var location: Option<string>

    /** A signed-in user is always backed by both cookies. */
    predicate Valid()
      reads this
    {
      user.Some? ==> AuthToken in cookies && UserData in cookies
    }

    /** `isAuthenticated: !!user`. */
    function IsAuthenticated(): (signedIn: bool)
      reads this
      ensures signedIn <==> user.Some?
      ensures signedIn && Valid() ==> AuthToken in cookies && UserData in cookies
    {
      user.Some?
    }

    /** The first render: no user yet and the initial check pending, with the browser's cookies. */
    constructor (jar: map<string, Cookie>)
      ensures Valid()
      ensures user == None && isLoading && cookies == jar && location == None
    {
      user := None;
      isLoading := true;
      cookies := jar;
      location := None;
    }

    /**
     * `checkAuth`, run once after the first render: with both cookies set, the stored profile is
     * parsed and becomes the user; when parsing throws, both cookies are removed.  Either way
     * loading ends.
     */
    method CheckAuth(parse: string -> Parsed)
      modifies this
      requires user.None?
      ensures Valid()
      ensures !isLoading && location == old(location)
      ensures !(Truthy(CookieValue(old(cookies), AuthToken)) && Truthy(CookieValue(old(cookies), UserData)))
              ==> user == None && cookies == old(cookies)
      ensures Truthy(CookieValue(old(cookies), AuthToken)) && Truthy(CookieValue(old(cookies), UserData))
              ==> match parse(old(cookies)[UserData].value)
                  case ParseError => user == None && cookies == old(cookies) - {AuthToken, UserData}
                  case Parsed(u) => user == u && cookies == old(cookies)
    {
      var token := CookieValue(cookies, AuthToken);
      var userData := CookieValue(cookies, UserData);
      if Truthy(token) && Truthy(userData) {
        var parsed := parse(userData.value);
        if parsed.ParseError? {
          cookies := cookies - {AuthToken};
          cookies := cookies - {UserData};
          assert cookies == old(cookies) - {AuthToken, UserData};
        } else {
          user := parsed.user;
        }
      }
      isLoading := false;
    }

    /** The start of `login`: loading is shown while the request is in flight. */
    method BeginLogin()
      modifies this
      ensures isLoading
      ensures user == old(user) && cookies == old(cookies) && location == old(location)
      ensures old(Valid()) ==> Valid()
    {
      isLoading := true;
    }

    /**
     * The end of `login`: a successful reply carrying a user and a token stores both cookies for
     * seven days and signs the user in; anything else changes nothing.  Loading ends either way.
     */
    method FinishLogin(reply: Option<LoginReply>, stringify: User -> string) returns (ok: bool)
      modifies this
      requires Valid()
      ensures Valid()
      ensures !isLoading && location == old(location)
      ensures ok <==> reply.Some? && reply.value.success && reply.value.user.Some? && Truthy(reply.value.token)
      ensures ok ==> && user == reply.value.user
                     && cookies == old(cookies)[AuthToken := Cookie(reply.value.token.value, Some(CookieDays))]
                                               [UserData := Cookie(stringify(reply.value.user.value), Some(CookieDays))]
      ensures !ok ==> user == old(user) && cookies == old(cookies)
    {
      if reply.Some? && reply.value.success && reply.value.user.Some? && Truthy(reply.value.token) {
        var data := reply.value;
        cookies := cookies[AuthToken := Cookie(data.token.value, Some(CookieDays))];
        cookies := cookies[UserData := Cookie(stringify(data.user.value), Some(CookieDays))];
        user := data.user;
        ok := true;
      } else {
        ok := false;
      }
      isLoading := false;
    }

    /** `logout`: both cookies removed, no user, and the browser sent to the login page. */
    method Logout()
      modifies this
      ensures Valid()
      ensures user == None && cookies == old(cookies) - {AuthToken, UserData}
      ensures isLoading == old(isLoading) && location == Some(LoginPath)
    {
      cookies := cookies - {AuthToken};
      cookies := cookies - {UserData};
      assert cookies == old(cookies) - {AuthToken, UserData};
      user := None;
      location := Some(LoginPath);
    }
  }

  /**
   * A whole visit: the first render, the initial check, a login and a logout.  After the logout
   * nobody is signed in and the next page load finds neither cookie.
   */
  method Visit(jar: map<string, Cookie>, parse: string -> Parsed, reply: Option<LoginReply>,
               stringify: User -> string)
    returns (signedInAfterLogin: bool, signedInAfterLogout: bool, jarAfterLogout: map<string, Cookie>)
    ensures signedInAfterLogin <==>
              || (reply.Some? && reply.value.success && reply.value.user.Some? && Truthy(reply.value.token))
              || (&& Truthy(CookieValue(jar, AuthToken)) && Truthy(CookieValue(jar, UserData))
                  && parse(jar[UserData].value).Parsed? && parse(jar[UserData].value).user.Some?)
    ensures !signedInAfterLogout
    ensures AuthToken !in jarAfterLogout && UserData !in jarAfterLogout
  {
    var provider := new AuthProvider(jar);
    provider.CheckAuth(parse);
    provider.BeginLogin();
    var ok := provider.FinishLogin(reply, stringify);
    signedInAfterLogin := provider.IsAuthenticated();
    provider.Logout();
    signedInAfterLogout := provider.IsAuthenticated();
    jarAfterLogout := provider.cookies;
  }
}
