/**
 * The page listing the visitor's own activities. It is gated on the session,
 * loads the list only for a logged-in visitor, and deletes an activity only
 * after the visitor confirms and the server agrees.
 */
module MyActivities {
  import opened Wrappers
  import opened JsText
  import opened Http
  import opened Entities
  import opened Session

  const LoadFailed: string := "Failed to load your activities"
  const DeleteFailed: string := "Failed to delete activity. Please try again."

  class Page {
    var activities: seq<Activity>
    var loading: bool
    var error: Option<string>
    var isLoggedIn: bool

    constructor ()
      ensures activities == [] && loading && error.None? && !isLoggedIn
    {
      activities := [];
      loading := true;
      error := None;
      isLoggedIn := false;
    }

    /** The session effect: a visitor who is not logged in is sent to the
        login page, remembering this one. */
    method CheckLogin(browser: Browser)
      modifies this, browser
      ensures isLoggedIn == LoggedIn(old(browser.cookie))
      ensures !isLoggedIn ==> browser.history == old(browser.history) + [LoginRedirect("/my-activities")]
      ensures isLoggedIn ==> browser.history == old(browser.history)
      ensures browser.cookie == old(browser.cookie) && browser.alerts == old(browser.alerts)
      ensures activities == old(activities) && loading == old(loading) && error == old(error)
    {
      var cookie := browser.cookie;
      if cookie != "" && !Contains(cookie, LoggedOut) {
        isLoggedIn := true;
      } else {
        isLoggedIn := false;
        browser.Navigate(LoginRedirect("/my-activities"));
      }
    }

    /** The page shows nothing but the redirect to a visitor who is not logged in. */
    predicate Renders()
      reads this
    {
      isLoggedIn
    }

    /** The start of the fetch effect: it runs only for a logged-in visitor. */
    method StartLoad() returns (requested: bool)
      modifies this
      ensures requested == isLoggedIn
      ensures requested ==> loading
      ensures !requested ==> loading == old(loading)
      ensures activities == old(activities) && error == old(error) && isLoggedIn == old(isLoggedIn)
    {
      if !isLoggedIn {
        return false;
      }
      loading := true;
      return true;
    }

    /** The end of the fetch: the list is replaced, or the load error shown. */
    method LoadReply(reply: Reply<seq<Activity>>)
      modifies this
      ensures reply.Ok? ==> activities == reply.value && error == old(error)
      ensures reply.Fail? ==> activities == old(activities) && error == Some(LoadFailed)
      ensures !loading && isLoggedIn == old(isLoggedIn)
    {
      match reply {
        case Ok(acts) => activities := acts;
        case Fail(_) => error := Some(LoadFailed);
      }
      loading := false;
    }

    /** `handleDeleteActivity(id)`: `confirmed` is the visitor's answer to
        the confirmation and `reply` the server's answer to the delete. A
        declined confirmation sends nothing; a confirmed delete that succeeds
        drops every entry with the id and keeps the others in order; one that
        fails leaves the list and shows an alert. */
    method DeleteActivity(id: string, confirmed: bool, reply: Reply<()>, browser: Browser) returns (sent: bool)
      modifies this, browser
      ensures sent == confirmed
      ensures sent && reply.Ok? ==> activities == WithoutId(old(activities), ActivityId, id)
                                    && browser.alerts == old(browser.alerts)
      ensures !(sent && reply.Ok?) ==> activities == old(activities)
      ensures sent && reply.Fail? ==> browser.alerts == old(browser.alerts) + [DeleteFailed]
      ensures !sent ==> browser.alerts == old(browser.alerts)
      ensures browser.cookie == old(browser.cookie) && browser.history == old(browser.history)
      ensures loading == old(loading) && error == old(error) && isLoggedIn == old(isLoggedIn)
    {
      if !confirmed {
        return false;
      }
      match reply {
        case Ok(_) => activities := WithoutId(activities, ActivityId, id);
        case Fail(_) => browser.Alert(DeleteFailed);
      }
      return true;
    }
  }
}
