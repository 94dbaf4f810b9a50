/**
 * The form that edits an activity. Only a logged-in visitor sees it; the
 * activity is loaded into the form (its end date written `YYYY-MM-DD`),
 * checked by the same chain as the create form but without the image check,
 * and sent with its status. Any failure shows one fixed message.
 *
 * The load and `handleSubmit` await the server, so each is cut in two: a
 * method that runs up to the request and one that runs once it has settled.
 */
module UpdateActivity {
  import opened Wrappers
  import opened JsText
  import opened Http
  import opened Entities
  import opened Session
  import opened Validation

  const LoadFailed: string := "Failed to load activity details"
  const UpdateFailed: string := "Failed to update activity. Please try again."

  /** The local calendar date of the loaded end date: `getFullYear()`,
      `getMonth()` (0 to 11) and `getDate()` (1 to 31). */
  datatype LocalDate = LocalDate(year: nat, monthIndex: nat, day: nat)

  predicate ValidLocalDate(d: LocalDate) {
    d.monthIndex < 12 && 1 <= d.day <= 31
  }

  /** `${year}-${month}-${day}` with the month counted from 1 and month and
      day padded to two digits. */
  function FormatYmd(d: LocalDate): (s: string)
    requires ValidLocalDate(d)
    ensures |s| == |DecimalString(d.year)| + 6
  {
    DecimalString(d.year) + "-" + PadTwo(DecimalString(d.monthIndex + 1)) + "-" + PadTwo(DecimalString(d.day))
  }

  /** The formatted date reads back as the date: three `-`-separated fields,
      the year's digits, then the month counted from 1 and the day, each on
      exactly two digits. */
  lemma FormatYmdRoundTrip(d: LocalDate)
    requires ValidLocalDate(d)
    ensures var parts := Split(FormatYmd(d), '-');
      && |parts| == 3
      && (forall i :: 0 <= i < |parts[0]| ==> IsDigit(parts[0][i]))
      && |parts[1]| == 2 && (forall i :: 0 <= i < 2 ==> IsDigit(parts[1][i]))
      && |parts[2]| == 2 && (forall i :: 0 <= i < 2 ==> IsDigit(parts[2][i]))
      && DecimalValue(parts[0]) == d.year
      && DecimalValue(parts[1]) == d.monthIndex + 1
      && DecimalValue(parts[2]) == d.day
  {
    var y := DecimalString(d.year);
    var m := PadTwo(DecimalString(d.monthIndex + 1));
    var dd := PadTwo(DecimalString(d.day));
    DecimalRoundTrip(d.year);
    TwoDigits(d.monthIndex + 1);
    TwoDigits(d.day);
    DigitsExclude(y, '-');
    DigitsExclude(m, '-');
    DigitsExclude(dd, '-');
    SplitThree(y, m, dd, '-');
    assert Split(FormatYmd(d), '-') == [y, m, dd];
  }

  /** The body of the update request: exactly these five fields. */
  datatype UpdatedActivity = UpdatedActivity(name: string, description: string, goalAmount: real, endAt: int, status: Status)

  class Form {
    const id: string
    var isLoggedIn: bool
    var loading: bool
    var error: Option<string>
    var formSubmitting: bool
    var name: string
    var description: string
    var goalAmount: string
    var endDate: string
    var status: Status

    constructor (id: string)
      ensures this.id == id && !isLoggedIn && loading && error.None? && !formSubmitting
      ensures name == "" && description == "" && goalAmount == "" && endDate == "" && status == Open
    {
      this.id := id;
      isLoggedIn := false;
      loading := true;
      error := None;
      formSubmitting := false;
      name, description, goalAmount, endDate := "", "", "", "";
      status := Open;
    }

    /** The session effect: a visitor who is not logged in is sent to the
        login page, remembering this form. */
    method CheckLogin(browser: Browser)
      modifies this, browser
      ensures isLoggedIn == LoggedIn(old(browser.cookie))
      ensures !isLoggedIn ==> browser.history == old(browser.history) + [LoginRedirect("/edit-activity/" + id)]
      ensures isLoggedIn ==> browser.history == old(browser.history)
      ensures browser.cookie == old(browser.cookie) && browser.alerts == old(browser.alerts)
      ensures loading == old(loading) && error == old(error) && formSubmitting == old(formSubmitting)
      ensures name == old(name) && description == old(description) && goalAmount == old(goalAmount)
      ensures endDate == old(endDate) && status == old(status)
    {
      var cookie := browser.cookie;
      if cookie != "" && !Contains(cookie, LoggedOut) {
        isLoggedIn := true;
      } else {
        isLoggedIn := false;
        browser.Navigate(LoginRedirect("/edit-activity/" + id));
      }
    }

    /** The start of `fetchActivity`: nothing is requested without an id or
        when not logged in. */
    method StartLoad() returns (requested: bool)
      modifies this
      ensures requested <==> id != "" && isLoggedIn
      ensures requested ==> loading
      ensures !requested ==> loading == old(loading)
      ensures isLoggedIn == old(isLoggedIn) && error == old(error) && formSubmitting == old(formSubmitting)
      ensures name == old(name) && description == old(description) && goalAmount == old(goalAmount)
      ensures endDate == old(endDate) && status == old(status)
    {
      if id == "" || !isLoggedIn {
        return false;
      }
      loading := true;
      return true;
    }

    /** The end of `fetchActivity`; `goalText` is `goalAmount.toString()` and
        `date` the local calendar date of the end date. The fields are filled
        from the activity, or the load error is set. */
    method LoadReply(reply: Reply<Activity>, goalText: string, date: LocalDate)
      requires ValidLocalDate(date)
      modifies this
      ensures reply.Ok? ==>
        && name == reply.value.name && description == reply.value.description
        && goalAmount == goalText && endDate == FormatYmd(date) && status == reply.value.status
        && error == old(error)
      ensures reply.Fail? ==>
        && name == old(name) && description == old(description) && goalAmount == old(goalAmount)
        && endDate == old(endDate) && status == old(status)
        && error == Some(LoadFailed)
      ensures !loading && isLoggedIn == old(isLoggedIn) && formSubmitting == old(formSubmitting)
    {
      match reply {
        case Ok(activity) =>
          name := activity.name;
          description := activity.description;
          goalAmount := goalText;
          var year := DecimalString(date.year);
          var month := PadTwo(DecimalString(date.monthIndex + 1));
          var day := PadTwo(DecimalString(date.day));
          endDate := year + "-" + month + "-" + day;
          status := activity.status;
        case Fail(_) =>
          error := Some(LoadFailed);
      }
      loading := false;
    }

    /** The four inputs and the status select. */
    method Edit(name: string, description: string, goalAmount: string, endDate: string, status: Status)
      modifies this
      ensures this.name == name && this.description == description && this.goalAmount == goalAmount
      ensures this.endDate == endDate && this.status == status
      ensures isLoggedIn == old(isLoggedIn) && loading == old(loading) && error == old(error)
      ensures formSubmitting == old(formSubmitting)
    {
      this.name, this.description, this.goalAmount, this.endDate, this.status := name, description, goalAmount, endDate, status;
    }

    /** The form is rendered only for a logged-in visitor. */
    predicate Renders()
      reads this
    {
      isLoggedIn
    }

    /** `validateForm`: the activity checks, in order, with no image check. */
    method ValidateForm(goal: JsNumber, end: JsDate, now: int) returns (ok: bool)
      modifies this
      ensures var verdict := FirstFailure(ActivityChecks(name, description, goalAmount, goal, endDate, end, now));
        && (ok <==> verdict.None?)
        && (!ok ==> error == verdict)
        && (ok ==> error == old(error))
      ensures isLoggedIn == old(isLoggedIn) && loading == old(loading) && formSubmitting == old(formSubmitting)
      ensures name == old(name) && description == old(description) && goalAmount == old(goalAmount)
      ensures endDate == old(endDate) && status == old(status)
    {
      ActivityChecksVerdict(name, description, goalAmount, goal, endDate, end, now);
      if IsBlank(name) {
        error := Some(NameRequired);
        return false;
      }
      if IsBlank(description) {
        error := Some(DescriptionRequired);
        return false;
      }
      if goalAmount == "" || goal.NaN? || goal.value <= 0.0 {
        error := Some(GoalNotPositive);
        return false;
      }
      if endDate == "" {
        error := Some(EndDateRequired);
        return false;
      }
      if end.Time? && end.ms < now {
        error := Some(EndDateInPast);
        return false;
      }
      return true;
    }

    /** The first half of `handleSubmit`; the submit button is disabled while
        submitting. A refused form sends nothing; an invalid end date throws
        in `toISOString` and ends with the fixed message; otherwise the five
        fields are sent. */
    method Submit(goal: JsNumber, end: JsDate, now: int) returns (request: Option<UpdatedActivity>)
      requires !formSubmitting
      modifies this
      ensures var verdict := FirstFailure(ActivityChecks(name, description, goalAmount, goal, endDate, end, now));
        && (verdict.Some? ==> request.None? && error == verdict && !formSubmitting)
        && (verdict.None? && end.InvalidDate? ==> request.None? && error == Some(UpdateFailed) && !formSubmitting)
        && (verdict.None? && end.Time? ==>
              && goal.Num?
              && request == Some(UpdatedActivity(name, description, goal.value, end.ms, status))
              && error.None? && formSubmitting)
      ensures isLoggedIn == old(isLoggedIn) && loading == old(loading)
      ensures name == old(name) && description == old(description) && goalAmount == old(goalAmount)
      ensures endDate == old(endDate) && status == old(status)
    {
      var ok := ValidateForm(goal, end, now);
      if !ok {
        return None;
      }
      ActivityChecksVerdict(name, description, goalAmount, goal, endDate, end, now);
      formSubmitting := true;
      error := None;
      if end.InvalidDate? {
        error := Some(UpdateFailed);
        formSubmitting := false;
        return None;
      }
      return Some(UpdatedActivity(name, description, goal.value, end.ms, status));
    }

    /** The second half: success opens the activity's page; any failure
        shows the fixed message, whatever the server said. */
    method UpdateReply(reply: Reply<()>, browser: Browser)
      requires formSubmitting
      modifies this, browser
      ensures reply.Ok? ==> browser.history == old(browser.history) + [Navigation("/activity/" + id, NoState)]
                            && error == old(error)
      ensures reply.Fail? ==> browser.history == old(browser.history) && error == Some(UpdateFailed)
      ensures !formSubmitting && isLoggedIn == old(isLoggedIn) && loading == old(loading)
      ensures browser.cookie == old(browser.cookie) && browser.alerts == old(browser.alerts)
      ensures name == old(name) && description == old(description) && goalAmount == old(goalAmount)
      ensures endDate == old(endDate) && status == old(status)
    {
      if reply.Ok? {
        browser.Navigate(Navigation("/activity/" + id, NoState));
      } else {
        error := Some(UpdateFailed);
      }
      formSubmitting := false;
    }
  }
}
