/**
 * The form that creates an activity. Only a logged-in visitor sees it. The
 * form is checked by the chain of early returns; a valid form is sent with
 * fixed defaults (no donations yet, open, the default image when none is
 * given), and success opens the new activity's page.
 *
 * `handleSubmit` awaits the server, so it is cut in two: `Submit` runs up
 * to the request and `CreateReply` runs once the request has settled.
 */
module CreateActivity {
  import opened Wrappers
  import opened JsText
  import opened Http
  import opened Entities
  import opened Session
  import opened Validation

  const CreateFailed: string := "Failed to create activity. Please try again."

  /** The body of the create request; `endAt` is the end date's time, which
      the source sends as `toISOString()`. */
  datatype NewActivity = NewActivity(
    name: string,
    description: string,
    goalAmount: real,
    endAt: int,
    totalDonations: real,
    status: Status,
    image: string)

  /** The payload literal of `handleSubmit`. */
  function Payload(name: string, description: string, goal: real, endAt: int, image: string): (p: NewActivity)
    ensures p.totalDonations == 0.0 && p.status == Open
    ensures p.image == if image == "" then DefaultImage else image
    ensures p.name == name && p.description == description && p.goalAmount == goal && p.endAt == endAt
  {
    NewActivity(name, description, goal, endAt, 0.0, Open, if image == "" then DefaultImage else image)
  }

  /** What a new activity looks like once the form is accepted: nothing
      donated yet, open, a positive goal, and an image address that matches
      the pattern. */
  lemma AcceptedPayload(name: string, description: string, goalText: string, goal: JsNumber,
                        endText: string, endAt: int, now: int, image: string)
    requires FirstFailure(ActivityImageChecks(name, description, goalText, goal, endText, Time(endAt), now, image)).None?
    ensures goal.Num? && goal.value > 0.0 && endAt >= now
    ensures var p := Payload(name, description, goal.value, endAt, image);
      && p.totalDonations == 0.0 && p.status == Open && p.goalAmount > 0.0
      && ImageUrl(p.image) && p.image != ""
  {
    ActivityImageVerdict(name, description, goalText, goal, endText, Time(endAt), now, image);
    ActivityChecksVerdict(name, description, goalText, goal, endText, Time(endAt), now);
    AcceptedImageIsUrl(image);
    ImageUrlShape(if image == "" then DefaultImage else image);
  }

  class Form {
    var isLoggedIn: bool
    var loading: bool
    var error: Option<string>
    var name: string
    var description: string
    var goalAmount: string
    var endDate: string
    var image: string

    constructor ()
      ensures !isLoggedIn && !loading && error.None?
      ensures name == "" && description == "" && goalAmount == "" && endDate == "" && image == ""
    {
      isLoggedIn := false;
      loading := false;
      error := None;
      name, description, goalAmount, endDate, image := "", "", "", "", "";
    }

    /** The session effect: a visitor who is not logged in is sent to the
        login page, remembering this form. */
    method CheckLogin(browser: Browser)
      modifies this, browser
      ensures isLoggedIn == LoggedIn(old(browser.cookie))
      ensures !isLoggedIn ==> browser.history == old(browser.history) + [LoginRedirect("/create-activity")]
      ensures isLoggedIn ==> browser.history == old(browser.history)
      ensures browser.cookie == old(browser.cookie) && browser.alerts == old(browser.alerts)
      ensures loading == old(loading) && error == old(error)
      ensures name == old(name) && description == old(description) && goalAmount == old(goalAmount)
      ensures endDate == old(endDate) && image == old(image)
    {
      var cookie := browser.cookie;
      if cookie != "" && !Contains(cookie, LoggedOut) {
        isLoggedIn := true;
      } else {
        isLoggedIn := false;
        browser.Navigate(LoginRedirect("/create-activity"));
      }
    }

    /** The five inputs. */
    method Edit(name: string, description: string, goalAmount: string, endDate: string, image: string)
      modifies this
      ensures this.name == name && this.description == description && this.goalAmount == goalAmount
      ensures this.endDate == endDate && this.image == image
      ensures isLoggedIn == old(isLoggedIn) && loading == old(loading) && error == old(error)
    {
      this.name, this.description, this.goalAmount, this.endDate, this.image := name, description, goalAmount, endDate, image;
    }

    /** The form is rendered only for a logged-in visitor. */
    predicate Renders()
      reads this
    {
      isLoggedIn
    }

    /** `validateForm`; `goal` is `Number(goalAmount)`, `end` is
        `new Date(endDate)` and `now` the time of `new Date()`. The first
        failing check sets its message and the form is refused. */
    method ValidateForm(goal: JsNumber, end: JsDate, now: int) returns (ok: bool)
      modifies this
      ensures var verdict := FirstFailure(ActivityImageChecks(name, description, goalAmount, goal, endDate, end, now, image));
        && (ok <==> verdict.None?)
        && (!ok ==> error == verdict)
        && (ok ==> error == old(error))
      ensures isLoggedIn == old(isLoggedIn) && loading == old(loading)
      ensures name == old(name) && description == old(description) && goalAmount == old(goalAmount)
      ensures endDate == old(endDate) && image == old(image)
    {
      ActivityImageVerdict(name, description, goalAmount, goal, endDate, end, now, image);
      ActivityChecksVerdict(name, description, goalAmount, goal, endDate, end, now);
      if IsBlank(name) {
        error := Some(NameRequired);
        return false;
      }
      if IsBlank(description) {
        error := Some(DescriptionRequired);
        return false;
      }
      if goalAmount == "" || goal.NaN? || goal.value <= 0.0 {
        error := Some(GoalNotPositive);
        return false;
      }
      if endDate == "" {
        error := Some(EndDateRequired);
        return false;
      }
      if end.Time? && end.ms < now {
        error := Some(EndDateInPast);
        return false;
      }
      if image != "" && !ImageUrl(image) {
        error := Some(InvalidImageUrl);
        return false;
      }
      return true;
    }

    /** The first half of `handleSubmit`; the submit button is disabled while
        loading. A refused form sends nothing. An accepted form whose end date
        is the invalid date makes `toISOString` throw before any request,
        which ends with the fallback message. Otherwise the payload is sent. */
    method Submit(goal: JsNumber, end: JsDate, now: int) returns (request: Option<NewActivity>)
      requires !loading
      modifies this
      ensures var verdict := FirstFailure(ActivityImageChecks(name, description, goalAmount, goal, endDate, end, now, image));
        && (verdict.Some? ==> request.None? && error == verdict && !loading)
        && (verdict.None? && end.InvalidDate? ==> request.None? && error == Some(CreateFailed) && !loading)
        && (verdict.None? && end.Time? ==>
              && goal.Num?
              && request == Some(Payload(name, description, goal.value, end.ms, image))
              && error.None? && loading)
      ensures isLoggedIn == old(isLoggedIn)
      ensures name == old(name) && description == old(description) && goalAmount == old(goalAmount)
      ensures endDate == old(endDate) && image == old(image)
    {
      var ok := ValidateForm(goal, end, now);
      if !ok {
        return None;
      }
      ActivityImageVerdict(name, description, goalAmount, goal, endDate, end, now, image);
      ActivityChecksVerdict(name, description, goalAmount, goal, endDate, end, now);
      loading := true;
      error := None;
      if end.InvalidDate? {
        error := Some(MessageOr(OtherError, CreateFailed));
        loading := false;
        return None;
      }
      return Some(Payload(name, description, goal.value, end.ms, image));
    }

    /** The second half, once the create request has settled: success opens
        the new activity (the reply carries its id); failure shows the
        server's message or the fallback. Loading ends either way. */
    method CreateReply(reply: Reply<string>, browser: Browser)
      requires loading
      modifies this, browser
      ensures reply.Ok? ==> browser.history == old(browser.history) + [Navigation("/activity/" + reply.value, NoState)]
                            && error == old(error)
      ensures reply.Fail? ==> browser.history == old(browser.history) && error == Some(MessageOr(reply.error, CreateFailed))
      ensures !loading && isLoggedIn == old(isLoggedIn)
      ensures browser.cookie == old(browser.cookie) && browser.alerts == old(browser.alerts)
      ensures name == old(name) && description == old(description) && goalAmount == old(goalAmount)
      ensures endDate == old(endDate) && image == old(image)
    {
      match reply {
        case Ok(newId) => browser.Navigate(Navigation("/activity/" + newId, NoState));
        case Fail(e) => error := Some(MessageOr(e, CreateFailed));
      }
      loading := false;
    }
  }
}
