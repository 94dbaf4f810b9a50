/**
 * The admin's form for a user account: filled from the loaded user, checked
 * (first name, then the email address), and sent with the chosen role;
 * success returns to the admin area.
 */
module AdminUserEdit {
  import opened Wrappers
  import opened JsText
  import opened Http
  import opened Entities
  import opened Validation

  const LoadFailed: string := "Failed to load user information"
  const SaveFailed: string := "Failed to update user"
  const FirstNameRequired: string := "First name is required"

  /** `validateForm`, in order: the first name is not blank, the email is not
      blank, the email (untrimmed) passes the pattern. */
  function UserChecks(firstName: string, email: string): (cs: seq<Check>)
    ensures |cs| == 3
  {
    [ Check(!IsBlank(firstName), FirstNameRequired),
      Check(!IsBlank(email), EmailRequired),
      Check(EmailValid(email), EmailInvalid) ]
  }

  /** The verdict is the cascade of early returns, and the form is accepted
      exactly when the first name is not blank and the address is valid: the
      "required" check is subsumed by the pattern. */
  lemma UserChecksVerdict(firstName: string, email: string)
    ensures FirstFailure(UserChecks(firstName, email)) ==
      if IsBlank(firstName) then Some(FirstNameRequired)
      else if IsBlank(email) then Some(EmailRequired)
      else if !EmailValid(email) then Some(EmailInvalid)
      else None
    ensures FirstFailure(UserChecks(firstName, email)).None? <==> !IsBlank(firstName) && EmailValid(email)
  {
    var cs := UserChecks(firstName, email);
    if IsBlank(firstName) {
      assert FirstFailingAt(cs, 0);
      FirstFailingDecides(cs, 0);
    } else if IsBlank(email) {
      assert FirstFailingAt(cs, 1);
      FirstFailingDecides(cs, 1);
    } else if !EmailValid(email) {
      assert FirstFailingAt(cs, 2);
      FirstFailingDecides(cs, 2);
    }
    if EmailValid(email) {
      ValidEmailNotBlank(email);
    }
  }

  /** The body of the update request. */
  datatype UserUpdate = UserUpdate(firstName: string, lastName: string, email: string, role: Role)

  class Form {
    const id: string
    var loading: bool
    var saving: bool
    var user: Option<User>
    var error: Option<string>
    var firstName: string
    var lastName: string
    var email: string
    var role: Role

    constructor (id: string)
      ensures this.id == id && loading && !saving && user.None? && error.None?
      ensures firstName == "" && lastName == "" && email == "" && role == UserRole
    {
      this.id := id;
      loading := true;
      saving := false;
      user := None;
      error := None;
      firstName, lastName, email := "", "", "";
      role := UserRole;
    }

    /** The start of `fetchUser`: nothing is requested without an id. */
    method StartLoad() returns (requested: bool)
      modifies this
      ensures requested <==> id != ""
      ensures requested ==> loading && error.None?
      ensures !requested ==> loading == old(loading) && error == old(error)
      ensures saving == old(saving) && user == old(user)
      ensures firstName == old(firstName) && lastName == old(lastName) && email == old(email) && role == old(role)
    {
      if id == "" {
        return false;
      }
      loading := true;
      error := None;
      return true;
    }

    /** The end of `fetchUser`: the form takes the user's fields, or the load
        error is shown; loading ends either way. */
    method LoadReply(reply: Reply<User>)
      modifies this
      ensures reply.Ok? ==>
        && user == Some(reply.value) && error == old(error)
        && firstName == reply.value.firstName && lastName == reply.value.lastName
        && email == reply.value.email && role == reply.value.role
      ensures reply.Fail? ==>
        && user == old(user) && error == Some(LoadFailed)
        && firstName == old(firstName) && lastName == old(lastName) && email == old(email) && role == old(role)
      ensures !loading && saving == old(saving)
    {
      match reply {
        case Ok(userData) =>
          user := Some(userData);
          firstName := userData.firstName;
          lastName := userData.lastName;
          email := userData.email;
          role := userData.role;
        case Fail(_) =>
          error := Some(LoadFailed);
      }
      loading := false;
    }

    /** The inputs and the role select. */
    method Edit(firstName: string, lastName: string, email: string, role: Role)
      modifies this
      ensures this.firstName == firstName && this.lastName == lastName && this.email == email && this.role == role
      ensures loading == old(loading) && saving == old(saving) && user == old(user) && error == old(error)
    {
      this.firstName, this.lastName, this.email, this.role := firstName, lastName, email, role;
    }

    /** `validateForm`: the first failing check sets its message. */
    method ValidateForm() returns (ok: bool)
      modifies this
      ensures var verdict := FirstFailure(UserChecks(firstName, email));
        && (ok <==> verdict.None?)
        && (!ok ==> error == verdict)
        && (ok ==> error == old(error))
      ensures loading == old(loading) && saving == old(saving) && user == old(user)
      ensures firstName == old(firstName) && lastName == old(lastName) && email == old(email) && role == old(role)
    {
      UserChecksVerdict(firstName, email);
      if IsBlank(firstName) {
        error := Some(FirstNameRequired);
        return false;
      }
      if IsBlank(email) {
        error := Some(EmailRequired);
        return false;
      }
      if !EmailValid(email) {
        error := Some(EmailInvalid);
        return false;
      }
      return true;
    }

    /** The first half of `handleSubmit`; the save button is disabled while
        saving. Nothing is sent when the form is refused or there is no id. */
    method Submit() returns (request: Option<UserUpdate>)
      requires !saving
      modifies this
      ensures var verdict := FirstFailure(UserChecks(firstName, email));
        && (verdict.Some? ==> request.None? && error == verdict && !saving)
        && (verdict.None? && id == "" ==> request.None? && error == old(error) && !saving)
        && (verdict.None? && id != "" ==>
              && request == Some(UserUpdate(firstName, lastName, email, role))
              && error.None? && saving)
      ensures request.Some? ==> !IsBlank(request.value.firstName) && EmailValid(request.value.email)
      ensures loading == old(loading) && user == old(user)
      ensures firstName == old(firstName) && lastName == old(lastName) && email == old(email) && role == old(role)
    {
      var ok := ValidateForm();
      if !ok || id == "" {
        return None;
      }
      UserChecksVerdict(firstName, email);
      saving := true;
      error := None;
      return Some(UserUpdate(firstName, lastName, email, role));
    }

    /** The second half: success returns to `/admin`; failure shows the
        server's message or the fallback. Saving ends either way. */
    method SaveReply(reply: Reply<()>, browser: Browser)
      requires saving
      modifies this, browser
      ensures reply.Ok? ==> browser.history == old(browser.history) + [Navigation("/admin", NoState)]
                            && error == old(error)
      ensures reply.Fail? ==> browser.history == old(browser.history) && error == Some(MessageOr(reply.error, SaveFailed))
      ensures !saving && loading == old(loading) && user == old(user)
      ensures browser.cookie == old(browser.cookie) && browser.alerts == old(browser.alerts)
      ensures firstName == old(firstName) && lastName == old(lastName) && email == old(email) && role == old(role)
    {
      match reply {
        case Ok(_) => browser.Navigate(Navigation("/admin", NoState));
        case Fail(e) => error := Some(MessageOr(e, SaveFailed));
      }
      saving := false;
    }
  }
}
