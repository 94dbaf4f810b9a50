/**
 * The session as the pages see it: a predicate on the cookie string. Every
 * gated page and the header panel ask whether the cookie is non-empty and
 * free of the `loggedout` marker; the admin shell only asks for the latter.
 * Login writes `jwt=<token>`, logout overwrites it with `jwt=loggedout`.
 */
module Session {
  import opened JsText
  import opened AxiosClient

  /** The marker a logged-out cookie carries. */
  const LoggedOut: string := "loggedout"

  /** `cookie && !cookie.includes('loggedout')` */
  predicate LoggedIn(cookie: string) {
    cookie != "" && !Contains(cookie, LoggedOut)
  }

  /** The admin shell's test, `!document.cookie.includes('loggedout')`. */
  predicate AdminAdmits(cookie: string) {
    !Contains(cookie, LoggedOut)
  }

  /** The cookie written after a successful login, `jwt=<token>`. */
  function LoginCookie(token: string): (c: string)
    ensures StartsWith(c, "jwt=") && c[4..] == token
  {
    "jwt=" + token
  }

  /** The cookie written at logout, `jwt=loggedout`. */
  const LogoutCookie: string := LoginCookie(LoggedOut)

  /** The admin shell admits every logged-in cookie and, unlike the other
      gates, the empty cookie as well; nothing else. */
  lemma AdminAdmitsIff(cookie: string)
    ensures AdminAdmits(cookie) <==> LoggedIn(cookie) || cookie == ""
    ensures AdminAdmits("") && !LoggedIn("")
  {
  }

  /** After logout no gate lets the visitor through, yet the interceptor
      still finds a token and sends `Bearer loggedout`. */
  lemma LogoutEndsSession()
    ensures !LoggedIn(LogoutCookie) && !AdminAdmits(LogoutCookie)
    ensures TokenOf(LogoutCookie) == LoggedOut
  {
    assert LoggedOut[0] !in "jwt=" && StartsWith(LoggedOut, LoggedOut);
    ContainsSkipsPrefix("jwt=", LoggedOut, LoggedOut);
    assert ';' !in LoggedOut && '=' !in LoggedOut && !IsSpace(LoggedOut[|LoggedOut| - 1]);
    LoginCookieToken(LoggedOut);
  }

  /** A login leaves the visitor logged in exactly when the token does not
      itself hold the marker. */
  lemma LoginCookieSession(token: string)
    ensures LoggedIn(LoginCookie(token)) <==> !Contains(token, LoggedOut)
  {
    assert LoggedOut[0] !in "jwt=";
    ContainsSkipsPrefix("jwt=", token, LoggedOut);
  }
}
