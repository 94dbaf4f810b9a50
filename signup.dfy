/**
 * The signup page: six checks in order, then the account is created and the
 * visitor is sent to the login page with a notice; a failure shows the
 * server's message or a fallback.
 */
module Signup {
  import opened Wrappers
  import opened JsText
  import opened Http
  import opened Validation

  const NamesRequired: string := "First name and last name are required"
  const PasswordRequired: string := "Password is required"
  const PasswordTooShort: string := "Password must be at least 3 characters long"
  const PasswordMismatch: string := "Passwords do not match"
  const SignupFailed: string := "An error occurred during signup"
  const AccountCreated: string := "Account created successfully! Please log in."

  /** The shortest password accepted. */
  const MinPasswordLength: nat := 3

  /** `validateForm`, in order. The password is required after trimming but
      its length is that of the untrimmed text. */
  function SignupChecks(firstName: string, lastName: string, email: string,
                        password: string, confirmPassword: string): (cs: seq<Check>)
    ensures |cs| == 6
  {
    [ Check(!IsBlank(firstName) && !IsBlank(lastName), NamesRequired),
      Check(!IsBlank(email), EmailRequired),
      Check(EmailValid(email), EmailInvalid),
      Check(!IsBlank(password), PasswordRequired),
      Check(|password| >= MinPasswordLength, PasswordTooShort),
      Check(password == confirmPassword, PasswordMismatch) ]
  }

  /** What the checks accept, all at once. */
  predicate SignupValid(firstName: string, lastName: string, email: string,
                        password: string, confirmPassword: string) {
    !IsBlank(firstName) && !IsBlank(lastName) && EmailValid(email)
    && !IsBlank(password) && |password| >= MinPasswordLength && password == confirmPassword
  }

  /** The verdict is the cascade of early returns, and the form is accepted
      exactly when it is valid; a password of three blanks passes the length
      check but not the "required" one. */
  lemma SignupChecksVerdict(firstName: string, lastName: string, email: string,
                            password: string, confirmPassword: string)
    ensures FirstFailure(SignupChecks(firstName, lastName, email, password, confirmPassword)) ==
      if IsBlank(firstName) || IsBlank(lastName) then Some(NamesRequired)
      else if IsBlank(email) then Some(EmailRequired)
      else if !EmailValid(email) then Some(EmailInvalid)
      else if IsBlank(password) then Some(PasswordRequired)
      else if |password| < MinPasswordLength then Some(PasswordTooShort)
      else if password != confirmPassword then Some(PasswordMismatch)
      else None
    ensures FirstFailure(SignupChecks(firstName, lastName, email, password, confirmPassword)).None?
            <==> SignupValid(firstName, lastName, email, password, confirmPassword)
  {
    var cs := SignupChecks(firstName, lastName, email, password, confirmPassword);
    if IsBlank(firstName) || IsBlank(lastName) {
      assert FirstFailingAt(cs, 0);
      FirstFailingDecides(cs, 0);
    } else if IsBlank(email) {
      assert FirstFailingAt(cs, 1);
      FirstFailingDecides(cs, 1);
    } else if !EmailValid(email) {
      assert FirstFailingAt(cs, 2);
      FirstFailingDecides(cs, 2);
    } else if IsBlank(password) {
      assert FirstFailingAt(cs, 3);
      FirstFailingDecides(cs, 3);
    } else if |password| < MinPasswordLength {
      assert FirstFailingAt(cs, 4);
      FirstFailingDecides(cs, 4);
    } else if password != confirmPassword {
      assert FirstFailingAt(cs, 5);
      FirstFailingDecides(cs, 5);
    }
    if EmailValid(email) {
      ValidEmailNotBlank(email);
    }
  }

  /** What `authApi.signup` is sent. */
  datatype Registration = Registration(email: string, password: string, firstName: string, lastName: string)

  class Form {
    var firstName: string
    var lastName: string
    var email: string
    var password: string
    var confirmPassword: string
    var errors: string
    var isLoading: bool

    constructor ()
      ensures firstName == "" && lastName == "" && email == "" && password == "" && confirmPassword == ""
      ensures errors == "" && !isLoading
    {
      firstName, lastName, email, password, confirmPassword := "", "", "", "", "";
      errors := "";
      isLoading := false;
    }

    method Edit(firstName: string, lastName: string, email: string, password: string, confirmPassword: string)
      modifies this
      ensures this.firstName == firstName && this.lastName == lastName && this.email == email
      ensures this.password == password && this.confirmPassword == confirmPassword
      ensures errors == old(errors) && isLoading == old(isLoading)
    {
      this.firstName, this.lastName, this.email := firstName, lastName, email;
      this.password, this.confirmPassword := password, confirmPassword;
    }

    /** `validateForm`: the first failing check sets its message. */
    method ValidateForm() returns (ok: bool)
      modifies this
      ensures var verdict := FirstFailure(SignupChecks(firstName, lastName, email, password, confirmPassword));
        && (ok <==> verdict.None?)
        && (!ok ==> errors == verdict.value)
        && (ok ==> errors == old(errors))
      ensures firstName == old(firstName) && lastName == old(lastName) && email == old(email)
      ensures password == old(password) && confirmPassword == old(confirmPassword) && isLoading == old(isLoading)
    {
      SignupChecksVerdict(firstName, lastName, email, password, confirmPassword);
      if IsBlank(firstName) || IsBlank(lastName) {
        errors := NamesRequired;
        return false;
      }
      if IsBlank(email) {
        errors := EmailRequired;
        return false;
      }
      if !EmailValid(email) {
        errors := EmailInvalid;
        return false;
      }
      if IsBlank(password) {
        errors := PasswordRequired;
        return false;
      }
      if |password| < 3 {
        errors := PasswordTooShort;
        return false;
      }
      if password != confirmPassword {
        errors := PasswordMismatch;
        return false;
      }
      return true;
    }

    /** The first half of `handleSubmit`; the button is disabled while loading. */
    method Submit() returns (request: Option<Registration>)
      requires !isLoading
      modifies this
      ensures var verdict := FirstFailure(SignupChecks(firstName, lastName, email, password, confirmPassword));
        && (verdict.Some? ==> request.None? && errors == verdict.value && !isLoading)
        && (verdict.None? ==> request == Some(Registration(email, password, firstName, lastName))
                              && errors == old(errors) && isLoading)
      ensures request.Some? ==> SignupValid(firstName, lastName, email, password, confirmPassword)
      ensures firstName == old(firstName) && lastName == old(lastName) && email == old(email)
      ensures password == old(password) && confirmPassword == old(confirmPassword)
    {
      var ok := ValidateForm();
      if !ok {
        return None;
      }
      SignupChecksVerdict(firstName, lastName, email, password, confirmPassword);
      isLoading := true;
      return Some(Registration(email, password, firstName, lastName));
    }

    /** The second half: success clears the message and goes to `/login` with
        the notice (loading is not reset); failure shows the caught error and
        ends loading. */
    method SignupReply(reply: Reply<()>, browser: Browser)
      modifies this, browser
      ensures reply.Ok? ==>
        && errors == "" && isLoading == old(isLoading)
        && browser.history == old(browser.history) + [Navigation("/login", Notice(AccountCreated))]
      ensures reply.Fail? ==>
        && errors == CaughtMessage(reply.error, SignupFailed) && !isLoading
        && browser.history == old(browser.history)
      ensures browser.cookie == old(browser.cookie) && browser.alerts == old(browser.alerts)
      ensures firstName == old(firstName) && lastName == old(lastName) && email == old(email)
      ensures password == old(password) && confirmPassword == old(confirmPassword)
    {
      match reply {
        case Ok(_) =>
          errors := "";
          browser.Navigate(Navigation("/login", Notice(AccountCreated)));
        case Fail(e) =>
          errors := CaughtMessage(e, SignupFailed);
          isLoading := false;
      }
    }
  }
}
