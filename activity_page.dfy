/**
 * The page of one activity: it loads the activity, shows its funding
 * progress, and runs the donation dialog. A donation is validated, sent,
 * and on success added to the total shown, without reloading the activity.
 *
 * `handleDonationSubmit` awaits the server, so it is cut in two:
 * `SubmitDonation` runs up to the request and `DonationReply` runs once the
 * request has settled.
 */
module ActivityPage {
  import opened Wrappers
  import opened JsText
  import opened Http
  import opened Entities
  import opened Session

  const LoadFailed: string := "Failed to load activity details"
  const InvalidAmount: string := "Please enter a valid donation amount"
  const DonationFailed: string := "Failed to process your donation. Please try again."
  const Thanks: string := "Thank you for your donation!"

  /** "Created by": the creator's two names, or "Unknown" when there is no creator. */
  function CreatorLabel(a: Activity): (r: string)
    ensures a.creator.None? ==> r == "Unknown"
    ensures a.creator.Some? ==> r == a.creator.value.firstName + " " + a.creator.value.lastName
  {
    match a.creator
    case None => "Unknown"
    case Some(c) => c.firstName + " " + c.lastName
  }

  /** The activity after a donation of `value`: only the total moves. */
  function Donated(a: Activity, value: real): (b: Activity)
    ensures b.totalDonations == a.totalDonations + value
    ensures b.(totalDonations := a.totalDonations) == a
  {
    a.(totalDonations := a.totalDonations + value)
  }

  /** A donation never shrinks the progress bar. */
  lemma DonationGrowsBar(a: Activity, value: real)
    requires a.goalAmount > 0.0 && value > 0.0
    ensures ProgressPercent(Donated(a, value)) > ProgressPercent(a)
    ensures BarWidth(Donated(a, value)) >= BarWidth(a)
  {
    var b := Donated(a, value);
    var g := a.goalAmount;
    assert ProgressPercent(b) * g == b.totalDonations * 100.0;
    assert ProgressPercent(a) * g == a.totalDonations * 100.0;
    assert (ProgressPercent(b) - ProgressPercent(a)) * g == value * 100.0;
  }

  class Page {
    const id: string
    var activity: Option<Activity>
    var loading: bool
    var error: Option<string>
    var isLoggedIn: bool
    var showDonationModal: bool
    var donationAmount: string
    var donationLoading: bool
    var donationError: Option<string>

    constructor (id: string)
      ensures this.id == id && activity.None? && loading && error.None? && !isLoggedIn
      ensures !showDonationModal && donationAmount == "" && !donationLoading && donationError.None?
    {
      this.id := id;
      activity := None;
      loading := true;
      error := None;
      isLoggedIn := false;
      showDonationModal := false;
      donationAmount := "";
      donationLoading := false;
      donationError := None;
    }

    /** The session effect. */
    method CheckLogin(cookie: string)
      modifies this
      ensures isLoggedIn == LoggedIn(cookie)
      ensures activity == old(activity) && loading == old(loading) && error == old(error)
      ensures showDonationModal == old(showDonationModal) && donationAmount == old(donationAmount)
      ensures donationLoading == old(donationLoading) && donationError == old(donationError)
    {
      isLoggedIn := cookie != "" && !Contains(cookie, LoggedOut);
    }

    /** The start of `fetchActivity`: without an id nothing is requested
        (and the spinner stays). */
    method StartLoad() returns (requested: bool)
      modifies this
      ensures requested <==> id != ""
      ensures requested ==> loading
      ensures !requested ==> loading == old(loading)
      ensures activity == old(activity) && error == old(error) && isLoggedIn == old(isLoggedIn)
      ensures showDonationModal == old(showDonationModal) && donationAmount == old(donationAmount)
      ensures donationLoading == old(donationLoading) && donationError == old(donationError)
    {
      if id == "" {
        return false;
      }
      loading := true;
      return true;
    }

    /** The end of `fetchActivity`. */
    method LoadReply(reply: Reply<Activity>)
      modifies this
      ensures reply.Ok? ==> activity == Some(reply.value) && error == old(error)
      ensures reply.Fail? ==> activity == old(activity) && error == Some(LoadFailed)
      ensures !loading && isLoggedIn == old(isLoggedIn)
      ensures showDonationModal == old(showDonationModal) && donationAmount == old(donationAmount)
      ensures donationLoading == old(donationLoading) && donationError == old(donationError)
    {
      match reply {
        case Ok(a) => activity := Some(a);
        case Fail(_) => error := Some(LoadFailed);
      }
      loading := false;
    }

    /** `handleDonationButton`: a visitor who is not logged in is sent to the
        login page, remembering this activity; otherwise the dialog opens. */
    method DonateButton(browser: Browser)
      modifies this, browser
      ensures !isLoggedIn ==>
        browser.history == old(browser.history) + [LoginRedirect("/activity/" + id)]
        && showDonationModal == old(showDonationModal)
      ensures isLoggedIn ==> browser.history == old(browser.history) && showDonationModal
      ensures browser.cookie == old(browser.cookie) && browser.alerts == old(browser.alerts)
      ensures activity == old(activity) && loading == old(loading) && error == old(error)
      ensures isLoggedIn == old(isLoggedIn) && donationAmount == old(donationAmount)
      ensures donationLoading == old(donationLoading) && donationError == old(donationError)
    {
      if !isLoggedIn {
        browser.Navigate(LoginRedirect("/activity/" + id));
        return;
      }
      showDonationModal := true;
    }

    /** The amount input. */
    method SetDonationAmount(text: string)
      modifies this
      ensures donationAmount == text
      ensures activity == old(activity) && loading == old(loading) && error == old(error)
      ensures isLoggedIn == old(isLoggedIn) && showDonationModal == old(showDonationModal)
      ensures donationLoading == old(donationLoading) && donationError == old(donationError)
    {
      donationAmount := text;
    }

    /** The Cancel button. */
    method CloseModal()
      modifies this
      ensures !showDonationModal
      ensures activity == old(activity) && loading == old(loading) && error == old(error)
      ensures isLoggedIn == old(isLoggedIn) && donationAmount == old(donationAmount)
      ensures donationLoading == old(donationLoading) && donationError == old(donationError)
    {
      showDonationModal := false;
    }

    /** The first half of `handleDonationSubmit`; `amount` is
        `Number(donationAmount)`. The submit button is disabled while a
        donation is pending. An empty, non-numeric or non-positive amount sets
        the error and requests nothing; otherwise the amount is sent. */
    method SubmitDonation(amount: JsNumber) returns (request: Option<real>)
      requires !donationLoading
      modifies this
      ensures !PositiveNumber(donationAmount, amount) ==>
        request.None? && donationError == Some(InvalidAmount) && !donationLoading
      ensures PositiveNumber(donationAmount, amount) ==>
        request == Some(amount.value) && donationError.None? && donationLoading
      ensures activity == old(activity) && loading == old(loading) && error == old(error)
      ensures isLoggedIn == old(isLoggedIn) && showDonationModal == old(showDonationModal)
      ensures donationAmount == old(donationAmount)
    {
      if donationAmount == "" || amount.NaN? || amount.value <= 0.0 {
        donationError := Some(InvalidAmount);
        return None;
      }
      donationLoading := true;
      donationError := None;
      return Some(amount.value);
    }

    /** The second half, once the donation request for `value` has settled;
        the caller passes as `value` the amount SubmitDonation returned.
        On success the total grows by `value` and nothing else of the
        activity changes, the input is cleared, the dialog closes and a thank
        you is shown. On failure (or with no activity loaded, where reading
        its total throws) the dialog stays open with the failure message.
        Either way the pending flag drops. */
    method DonationReply(value: real, reply: Reply<()>, browser: Browser)
      requires donationLoading
      modifies this, browser
      ensures reply.Ok? && old(activity).Some? ==>
        && activity == Some(Donated(old(activity).value, value))
        && donationAmount == "" && !showDonationModal && donationError == old(donationError)
        && browser.alerts == old(browser.alerts) + [Thanks]
      ensures reply.Fail? || old(activity).None? ==>
        && activity == old(activity)
        && donationAmount == old(donationAmount) && showDonationModal == old(showDonationModal)
        && donationError == Some(DonationFailed)
        && browser.alerts == old(browser.alerts)
      ensures !donationLoading
      ensures loading == old(loading) && error == old(error) && isLoggedIn == old(isLoggedIn)
      ensures browser.cookie == old(browser.cookie) && browser.history == old(browser.history)
    {
      if reply.Ok? && activity.Some? {
        var newTotalDonations := activity.value.totalDonations + value;
        activity := Some(activity.value.(totalDonations := newTotalDonations));
        donationAmount := "";
        showDonationModal := false;
        browser.Alert(Thanks);
      } else {
        donationError := Some(DonationFailed);
      }
      donationLoading := false;
    }
  }

  /** One visit after logging in with `token`: the total is 250 of a 1000
      goal, "-5" is refused without a request, then 50 goes through and the
      total becomes 300. */
  method DonationScenario(token: string) returns (refused: Option<real>, sent: Option<real>, total: real, width: real)
    requires !Contains(token, LoggedOut)
    ensures refused.None? && sent == Some(50.0)
    ensures total == 300.0 && width == 30.0
  {
    var browser := new Browser(LoginCookie(token));
    var page := new Page("a1");
    var a := Activity("a1", None, "Clean water", "Wells", 1000.0, 250.0, Open, "2030-01-01", None);
    page.LoadReply(Ok(a));
    LoginCookieSession(token);
    page.CheckLogin(browser.cookie);
    page.DonateButton(browser);
    page.SetDonationAmount("-5");
    refused := page.SubmitDonation(Num(-5.0));
    page.SetDonationAmount("50");
    sent := page.SubmitDonation(Num(50.0));
    page.DonationReply(50.0, Ok(()), browser);
    total := page.activity.value.totalDonations;
    width := BarWidth(page.activity.value);
  }
}
