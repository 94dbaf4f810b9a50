/**
 * The page listing the visitor's own donations: gated on the session, it
 * loads the list only for a logged-in visitor and shows each donation with
 * a short id, then the total donated and the count of donations.
 */
module MyDonations {
  import opened Wrappers
  import opened JsText
  import opened Http
  import opened Entities
  import opened Session

  const LoadFailed: string := "Failed to load your donations"

  /** The length of the id shown on each row. */
  const ShortIdLength: nat := 8

  /** `donation._id.substring(0, 8)` */
  function ShortId(d: Donation): (r: string)
    ensures StartsWith(d.id, r)
    ensures |r| == if |d.id| < ShortIdLength then |d.id| else ShortIdLength
  {
    Prefix(d.id, ShortIdLength)
  }

  /** The word after the count: singular for exactly one donation. */
  function DonationNoun(count: nat): (r: string)
    ensures StartsWith(r, "donation")
    ensures r == "donation" <==> count == 1
    ensures r != "donation" ==> r == "donation" + "s"
  {
    "donation" + if count != 1 then "s" else ""
  }

  /** What the page draws. */
  datatype View =
    | Nothing
    | Spinner
    | ErrorText(message: string)
    | EmptyState
    | History(rows: seq<Donation>, total: real, noun: string)

  class Page {
    var donations: seq<Donation>
    var loading: bool
    var error: Option<string>
    var isLoggedIn: bool

    constructor ()
      ensures donations == [] && loading && error.None? && !isLoggedIn
    {
      donations := [];
      loading := true;
      error := None;
      isLoggedIn := false;
    }

    /** The session effect: a visitor who is not logged in is sent to the
        login page, remembering this one. */
    method CheckLogin(browser: Browser)
      modifies this, browser
      ensures isLoggedIn == LoggedIn(old(browser.cookie))
      ensures !isLoggedIn ==> browser.history == old(browser.history) + [LoginRedirect("/my-donations")]
      ensures isLoggedIn ==> browser.history == old(browser.history)
      ensures browser.cookie == old(browser.cookie) && browser.alerts == old(browser.alerts)
      ensures donations == old(donations) && loading == old(loading) && error == old(error)
    {
      var cookie := browser.cookie;
      if cookie != "" && !Contains(cookie, LoggedOut) {
        isLoggedIn := true;
      } else {
        isLoggedIn := false;
        browser.Navigate(LoginRedirect("/my-donations"));
      }
    }

    /** The start of the fetch effect: it runs only for a logged-in visitor. */
    method StartLoad() returns (requested: bool)
      modifies this
      ensures requested == isLoggedIn
      ensures requested ==> loading
      ensures !requested ==> loading == old(loading)
      ensures donations == old(donations) && error == old(error) && isLoggedIn == old(isLoggedIn)
    {
      if !isLoggedIn {
        return false;
      }
      loading := true;
      return true;
    }

    method LoadReply(reply: Reply<seq<Donation>>)
      modifies this
      ensures reply.Ok? ==> donations == reply.value && error == old(error)
      ensures reply.Fail? ==> donations == old(donations) && error == Some(LoadFailed)
      ensures !loading && isLoggedIn == old(isLoggedIn)
    {
      match reply {
        case Ok(ds) => donations := ds;
        case Fail(_) => error := Some(LoadFailed);
      }
      loading := false;
    }

    /** The render: nothing for a visitor who is not logged in, then the
        spinner, the error, the empty state for no donations, and otherwise
        the rows with their total and count. */
    function View(): (v: View)
      reads this
      ensures v.Nothing? <==> !isLoggedIn
      ensures v.Spinner? <==> isLoggedIn && loading
      ensures v.ErrorText? <==> isLoggedIn && !loading && error.Some?
      ensures v.ErrorText? ==> v.message == error.value
      ensures v.History? <==> isLoggedIn && !loading && error.None? && donations != []
      ensures v.EmptyState? <==> isLoggedIn && !loading && error.None? && donations == []
      ensures v.History? ==>
        && v.rows == donations && v.rows != []
        && v.total == TotalAmount(donations) && v.noun == DonationNoun(|donations|)
    {
      if !isLoggedIn then Nothing
      else if loading then Spinner
      else if error.Some? then ErrorText(error.value)
      else if donations == [] then EmptyState
      else History(donations, TotalAmount(donations), DonationNoun(|donations|))
    }
  }

  /** A history of positive donations shows a positive total. */
  lemma HistoryTotalPositive(p: Page)
    requires p.View().History?
    requires forall k :: 0 <= k < |p.donations| ==> p.donations[k].amount > 0.0
    ensures p.View().total > 0.0
  {
    TotalAmountPositive(p.donations);
  }
}
