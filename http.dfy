/**
 * The boundary of the client: what a server call answers, and the browser
 * state the pages read and write (the cookie string, the router's
 * navigations and the `alert` pop-ups).
 */
module Http {
  import opened Wrappers

  /** What a rejected request carries. An `AxiosError` has the decoded
      `response.data.message` when the server sent one; anything else thrown
      on the way (a `TypeError`, a `RangeError`) is `OtherError`. */
  datatype HttpError = AxiosError(message: Option<string>) | OtherError

  /** The settled promise of one server call. */
  datatype Reply<T> = Ok(value: T) | Fail(error: HttpError)

  /** `err.response?.data?.message || fallback`: the server's message when it
      is present and non-empty, the fallback otherwise. */
  function MessageOr(e: HttpError, fallback: string): (r: string)
    ensures r == fallback || (e.AxiosError? && e.message == Some(r) && r != "")
    ensures e.AxiosError? && e.message.Some? && e.message.value != "" ==> r == e.message.value
    ensures fallback != "" ==> r != ""
  {
    match e
    case AxiosError(Some(m)) => if m != "" then m else fallback
    case _ => fallback
  }

  const UnexpectedError: string := "An unexpected error occurred"

  /** The `catch` of the login and signup pages: an `AxiosError` shows the
      server's message or `fallback`, anything else a generic message. */
  function CaughtMessage(e: HttpError, fallback: string): (r: string)
    ensures e.OtherError? ==> r == UnexpectedError
    ensures e.AxiosError? ==> r == fallback || (e.message == Some(r) && r != "")
    ensures fallback != "" ==> r != ""
  {
    if e.AxiosError? then MessageOr(e, fallback) else UnexpectedError
  }

  /** The `state` handed to `navigate`. */
  datatype NavState = NoState | FromPath(from: string) | Notice(message: string)

  /** One call of the router's `navigate(path, { state })`. */
  datatype Navigation = Navigation(path: string, state: NavState)

  /** Where a gated page sends a visitor who is not logged in. */
  function LoginRedirect(from: string): (n: Navigation)
    ensures n.path == "/login" && n.state.FromPath? && n.state.from == from
  {
    Navigation("/login", FromPath(from))
  }

  /** The browser around the client: `document.cookie`, the navigations the
      router was asked for, and the `alert` messages shown, oldest first. */
  class Browser {
    var cookie: string
    var history: seq<Navigation>
    var alerts: seq<string>

    constructor (cookie: string)
      ensures this.cookie == cookie && history == [] && alerts == []
    {
      this.cookie := cookie;
      history := [];
      alerts := [];
    }

    /** `document.cookie = c`; the model keeps one cookie string, so the
        write replaces it. */
    method SetCookie(c: string)
      modifies this
      ensures cookie == c && history == old(history) && alerts == old(alerts)
    {
      cookie := c;
    }

    /** `navigate(path, { state })` */
    method Navigate(n: Navigation)
      modifies this
      ensures history == old(history) + [n]
      ensures cookie == old(cookie) && alerts == old(alerts)
    {
      history := history + [n];
    }

    /** `alert(message)` */
    method Alert(message: string)
      modifies this
      ensures alerts == old(alerts) + [message]
      ensures cookie == old(cookie) && history == old(history)
    {
      alerts := alerts + [message];
    }
  }
}
