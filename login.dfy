/**
 * The login page: both fields must be filled in; on success the token is
 * written as the `jwt` cookie and the visitor is sent home, and on failure
 * the server's message (or a fallback) is shown.
 */
module Login {
  import opened Wrappers
  import opened JsText
  import opened Http
  import opened AxiosClient
  import opened Session

  const MissingCredentials: string := "Missing email or password"
  const LoginFailed: string := "An error occurred"

  /** What `authApi.login` is sent. */
  datatype Credentials = Credentials(email: string, password: string)

  class Form {
    var email: string
    var password: string
    var errors: string
    var isLoading: bool

    constructor ()
      ensures email == "" && password == "" && errors == "" && !isLoading
    {
      email, password, errors := "", "", "";
      isLoading := false;
    }

    method Edit(email: string, password: string)
      modifies this
      ensures this.email == email && this.password == password
      ensures errors == old(errors) && isLoading == old(isLoading)
    {
      this.email, this.password := email, password;
    }

    /** `validateForm`: refused, with one message, when either field is blank. */
    method ValidateForm() returns (ok: bool)
      modifies this
      ensures ok <==> !IsBlank(email) && !IsBlank(password)
      ensures !ok ==> errors == MissingCredentials
      ensures ok ==> errors == old(errors)
      ensures email == old(email) && password == old(password) && isLoading == old(isLoading)
    {
      ok := true;
      if IsBlank(email) || IsBlank(password) {
        errors := MissingCredentials;
        ok := false;
      }
    }

    /** The first half of `handleSubmit`. The button is not disabled while
        loading, so a second submission is possible. */
    method Submit() returns (request: Option<Credentials>)
      modifies this
      ensures request.Some? <==> !IsBlank(email) && !IsBlank(password)
      ensures request.Some? ==> request.value == Credentials(email, password) && isLoading && errors == old(errors)
      ensures request.None? ==> errors == MissingCredentials && isLoading == old(isLoading)
      ensures email == old(email) && password == old(password)
    {
      var ok := ValidateForm();
      if !ok {
        return None;
      }
      isLoading := true;
      return Some(Credentials(email, password));
    }

    /** The second half: the token becomes the `jwt` cookie and the visitor
        goes home (loading is not reset), or the caught error is shown and
        loading ends. */
    method LoginReply(reply: Reply<string>, browser: Browser)
      modifies this, browser
      ensures reply.Ok? ==>
        && errors == "" && isLoading == old(isLoading)
        && browser.cookie == LoginCookie(reply.value)
        && browser.history == old(browser.history) + [Navigation("/", NoState)]
      ensures reply.Fail? ==>
        && errors == CaughtMessage(reply.error, LoginFailed) && !isLoading
        && browser.cookie == old(browser.cookie) && browser.history == old(browser.history)
      ensures browser.alerts == old(browser.alerts)
      ensures email == old(email) && password == old(password)
    {
      match reply {
        case Ok(token) =>
          errors := "";
          browser.SetCookie(LoginCookie(token));
          browser.Navigate(Navigation("/", NoState));
        case Fail(e) =>
          errors := CaughtMessage(e, LoginFailed);
          isLoading := false;
      }
    }
  }

  /** The cookie a login writes starts a session, and the request
      interceptor reads back the very token the server issued, as long as the
      token has no `;` or `=`, no trailing white space, and does not spell
      `loggedout`. */
  lemma LoginStartsSession(token: string)
    requires ';' !in token && '=' !in token
    requires token == "" || !IsSpace(token[|token| - 1])
    requires !Contains(token, LoggedOut)
    ensures LoggedIn(LoginCookie(token))
    ensures TokenOf(LoginCookie(token)) == token
  {
    LoginCookieSession(token);
    LoginCookieToken(token);
  }
}
