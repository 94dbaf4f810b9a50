/**
 * The admin's form for an activity. It is filled from the loaded activity
 * (the end date cut from its ISO form, a missing image left empty), checked
 * by the activity checks and the image check, and sent with its status;
 * success returns to the admin area.
 *
 * The load and `handleSubmit` await the server, so each is cut in two: a
 * method that runs up to the request and one that runs once it has settled.
 */
module AdminActivityEdit {
  import opened Wrappers
  import opened JsText
  import opened Http
  import opened Entities
  import opened Validation

  const LoadFailed: string := "Failed to load activity information"
  const SaveFailed: string := "Failed to update activity"

  /** `iso.split('T')[0]`: the text before the first `T`, all of it when
      there is none. */
  function DatePart(iso: string): (r: string)
    ensures StartsWith(iso, r) && 'T' !in r
    ensures |r| < |iso| ==> iso[|r|] == 'T'
  {
    var parts := Split(iso, 'T');
    var r := parts[0];
    SplitPieces(iso, 'T');
    assert StartsWith(iso, r) && (|r| < |iso| ==> iso[|r|] == 'T') by {
      if |parts| == 1 {
        assert iso == r;
      } else {
        assert iso == r + ['T'] + Join(parts[1..], 'T');
      }
    }
    r
  }

  /** The date of an ISO timestamp `YYYY-MM-DDThh:mm:ss.sssZ` is its first
      part. */
  lemma DatePartOfTimestamp(date: string, time: string)
    requires 'T' !in date
    ensures DatePart(date + "T" + time) == date
  {
    SplitAtFirst(date, 'T', time);
  }

  /** The body of the admin's update request. */
  datatype ActivityUpdate = ActivityUpdate(
    name: string, description: string, goalAmount: real, endAt: int, status: Status, image: string)

  /** The payload literal of `handleSubmit`. */
  function Payload(name: string, description: string, goal: real, endAt: int, status: Status, image: string): (p: ActivityUpdate)
    ensures p.image == if image == "" then DefaultImage else image
    ensures p.name == name && p.description == description && p.goalAmount == goal
    ensures p.endAt == endAt && p.status == status
  {
    ActivityUpdate(name, description, goal, endAt, status, if image == "" then DefaultImage else image)
  }

  class Form {
    const id: string
    var loading: bool
    var saving: bool
    var activity: Option<Activity>
    var error: Option<string>
    var name: string
    var description: string
    var goalAmount: string
    var endDate: string
    var status: Status
    var image: string

    constructor (id: string)
      ensures this.id == id && loading && !saving && activity.None? && error.None?
      ensures name == "" && description == "" && goalAmount == "" && endDate == "" && status == Open && image == ""
    {
      this.id := id;
      loading := true;
      saving := false;
      activity := None;
      error := None;
      name, description, goalAmount, endDate := "", "", "", "";
      status := Open;
      image := "";
    }

    /** The start of `fetchActivity`: nothing is requested without an id. */
    method StartLoad() returns (requested: bool)
      modifies this
      ensures requested <==> id != ""
      ensures requested ==> loading && error.None?
      ensures !requested ==> loading == old(loading) && error == old(error)
      ensures saving == old(saving) && activity == old(activity)
      ensures name == old(name) && description == old(description) && goalAmount == old(goalAmount)
      ensures endDate == old(endDate) && status == old(status) && image == old(image)
    {
      if id == "" {
        return false;
      }
      loading := true;
      error := None;
      return true;
    }

    /** The end of `fetchActivity`. `goalText` is `goalAmount.toString()`;
        `endIso` is the end date's `toISOString()`, None when the date is
        invalid and the call throws. The setters run in order, so a throw
        there leaves the first fields filled and sets the load error. */
    method LoadReply(reply: Reply<Activity>, goalText: string, endIso: Option<string>)
      modifies this
      ensures reply.Ok? ==>
        && activity == Some(reply.value)
        && name == reply.value.name && description == reply.value.description && goalAmount == goalText
      ensures reply.Ok? && endIso.Some? ==>
        && endDate == DatePart(endIso.value) && status == reply.value.status
        && image == reply.value.image.GetOr("")
        && error == old(error)
      ensures reply.Ok? && endIso.None? ==>
        endDate == old(endDate) && status == old(status) && image == old(image) && error == Some(LoadFailed)
      ensures reply.Fail? ==>
        && activity == old(activity) && name == old(name) && description == old(description)
        && goalAmount == old(goalAmount) && endDate == old(endDate) && status == old(status)
        && image == old(image) && error == Some(LoadFailed)
      ensures !loading && saving == old(saving)
    {
      match reply {
        case Fail(_) =>
          error := Some(LoadFailed);
        case Ok(activityData) =>
          activity := Some(activityData);
          name := activityData.name;
          description := activityData.description;
          goalAmount := goalText;
          if endIso.None? {
            error := Some(LoadFailed);
          } else {
            endDate := DatePart(endIso.value);
            status := activityData.status;
            image := activityData.image.GetOr("");
          }
      }
      loading := false;
    }

    /** The inputs and the status select. */
    method Edit(name: string, description: string, goalAmount: string, endDate: string, status: Status, image: string)
      modifies this
      ensures this.name == name && this.description == description && this.goalAmount == goalAmount
      ensures this.endDate == endDate && this.status == status && this.image == image
      ensures loading == old(loading) && saving == old(saving) && activity == old(activity) && error == old(error)
    {
      this.name, this.description, this.goalAmount := name, description, goalAmount;
      this.endDate, this.status, this.image := endDate, status, image;
    }

    /** `validateForm`: the activity checks, then the image check. */
    method ValidateForm(goal: JsNumber, end: JsDate, now: int) returns (ok: bool)
      modifies this
      ensures var verdict := FirstFailure(ActivityImageChecks(name, description, goalAmount, goal, endDate, end, now, image));
        && (ok <==> verdict.None?)
        && (!ok ==> error == verdict)
        && (ok ==> error == old(error))
      ensures loading == old(loading) && saving == old(saving) && activity == old(activity)
      ensures name == old(name) && description == old(description) && goalAmount == old(goalAmount)
      ensures endDate == old(endDate) && status == old(status) && image == old(image)
    {
      ActivityImageVerdict(name, description, goalAmount, goal, endDate, end, now, image);
      ActivityChecksVerdict(name, description, goalAmount, goal, endDate, end, now);
      if IsBlank(name) {
        error := Some(NameRequired);
        return false;
      }
      if IsBlank(description) {
        error := Some(DescriptionRequired);
        return false;
      }
      if goalAmount == "" || goal.NaN? || goal.value <= 0.0 {
        error := Some(GoalNotPositive);
        return false;
      }
      if endDate == "" {
        error := Some(EndDateRequired);
        return false;
      }
      if end.Time? && end.ms < now {
        error := Some(EndDateInPast);
        return false;
      }
      if image != "" && !ImageUrl(image) {
        error := Some(InvalidImageUrl);
        return false;
      }
      return true;
    }

    /** The first half of `handleSubmit`; the save button is disabled while
        saving. The form is checked first, and nothing is sent when it is
        refused or there is no id. An invalid end date throws in
        `toISOString` and ends with the fallback message. */
    method Submit(goal: JsNumber, end: JsDate, now: int) returns (request: Option<ActivityUpdate>)
      requires !saving
      modifies this
      ensures var verdict := FirstFailure(ActivityImageChecks(name, description, goalAmount, goal, endDate, end, now, image));
        && (verdict.Some? ==> request.None? && error == verdict && !saving)
        && (verdict.None? && id == "" ==> request.None? && error == old(error) && !saving)
        && (verdict.None? && id != "" && end.InvalidDate? ==> request.None? && error == Some(SaveFailed) && !saving)
        && (verdict.None? && id != "" && end.Time? ==>
              && goal.Num?
              && request == Some(Payload(name, description, goal.value, end.ms, status, image))
              && error.None? && saving)
      ensures loading == old(loading) && activity == old(activity)
      ensures name == old(name) && description == old(description) && goalAmount == old(goalAmount)
      ensures endDate == old(endDate) && status == old(status) && image == old(image)
    {
      var ok := ValidateForm(goal, end, now);
      if !ok || id == "" {
        return None;
      }
      ActivityImageVerdict(name, description, goalAmount, goal, endDate, end, now, image);
      ActivityChecksVerdict(name, description, goalAmount, goal, endDate, end, now);
      saving := true;
      error := None;
      if end.InvalidDate? {
        error := Some(MessageOr(OtherError, SaveFailed));
        saving := false;
        return None;
      }
      return Some(Payload(name, description, goal.value, end.ms, status, image));
    }

    /** The second half: success returns to `/admin`; failure shows the
        server's message or the fallback. Saving ends either way. */
    method SaveReply(reply: Reply<()>, browser: Browser)
      requires saving
      modifies this, browser
      ensures reply.Ok? ==> browser.history == old(browser.history) + [Navigation("/admin", NoState)]
                            && error == old(error)
      ensures reply.Fail? ==> browser.history == old(browser.history) && error == Some(MessageOr(reply.error, SaveFailed))
      ensures !saving && loading == old(loading) && activity == old(activity)
      ensures browser.cookie == old(browser.cookie) && browser.alerts == old(browser.alerts)
      ensures name == old(name) && description == old(description) && goalAmount == old(goalAmount)
      ensures endDate == old(endDate) && status == old(status) && image == old(image)
    {
      match reply {
        case Ok(_) => browser.Navigate(Navigation("/admin", NoState));
        case Fail(e) => error := Some(MessageOr(e, SaveFailed));
      }
      saving := false;
    }
  }
}
