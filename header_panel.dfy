/**
 * The menu in the page header: it re-reads the session on every change of
 * location, shows either a Login link or a Logout button, and logs out by
 * asking the server first and only then overwriting the cookie.
 */
module HeaderPanel {
  import opened Http
  import opened JsText
  import opened Session

  class Panel {
    var isOpen: bool
    var isLoggedIn: bool

    constructor ()
      ensures !isOpen && !isLoggedIn
    {
      isOpen := false;
      isLoggedIn := false;
    }

    /** The effect run on every location change. */
    method OnLocation(browser: Browser)
      modifies this
      ensures isLoggedIn == LoggedIn(browser.cookie)
      ensures isOpen == old(isOpen)
    {
      if browser.cookie != "" && !Contains(browser.cookie, LoggedOut) {
        isLoggedIn := true;
      } else {
        isLoggedIn := false;
      }
    }

    /** A click on the panel. */
    method Toggle()
      modifies this
      ensures isOpen == !old(isOpen) && isLoggedIn == old(isLoggedIn)
    {
      isOpen := !isOpen;
    }

    /** `handleLogout`, once the server's logout call has settled. When it
        resolves: logged out, the cookie overwritten with `jwt=loggedout`,
        and a navigation to `/`. When it rejects, the handler stops at the
        `await` and nothing changes. The Logout button sits inside the panel,
        so the click that starts a logout also toggles the panel: a Logout
        click is `Toggle` followed, once the call settles, by `Logout`. */
    method Logout(reply: Reply<()>, browser: Browser)
      modifies this, browser
      ensures reply.Ok? ==>
        && !isLoggedIn
        && browser.cookie == LogoutCookie
        && browser.history == old(browser.history) + [Navigation("/", NoState)]
      ensures reply.Fail? ==>
        && isLoggedIn == old(isLoggedIn)
        && browser.cookie == old(browser.cookie)
        && browser.history == old(browser.history)
      ensures browser.alerts == old(browser.alerts) && isOpen == old(isOpen)
    {
      if reply.Fail? {
        return;
      }
      isLoggedIn := false;
      browser.SetCookie(LogoutCookie);
      browser.Navigate(Navigation("/", NoState));
    }

    predicate ShowsLogin()
      reads this
    {
      !isLoggedIn
    }

    predicate ShowsLogout()
      reads this
    {
      isLoggedIn
    }
  }

  /** Once a logout has gone through, the next location change still finds
      the visitor logged out. */
  method LogoutThenNavigate(p: Panel, browser: Browser)
    modifies p, browser
    ensures !p.isLoggedIn && !p.ShowsLogout() && p.ShowsLogin()
  {
    p.Logout(Ok(()), browser);
    LogoutEndsSession();
    p.OnLocation(browser);
  }
}
