/** The sign-up form: its validation into an error map keyed by field, and
    the submission that calls the sign-up endpoint only for a valid form.
    The endpoint's outcome is a parameter: `None` when it succeeds. */
module SignupForm {
  import opened Wrappers
  import opened AuthForms

  const MinPasswordLength := 8
  const PasswordTooShort := "Password must be at least 8 characters long"
  const PasswordsDiffer := "Passwords do not match"
  const EmailTaken := "Email already registered"
  const SignupFailed := "Failed to create account. Please try again."
  const SignupSucceeded := "Account created successfully! Redirecting to sign in..."

  /** `validateForm`'s error map: an e-mail entry when the address is
      missing or does not match the pattern, a password entry when it is
      shorter than eight characters, and, independently, a confirmation
      entry when the two passwords differ. */
  function SignupErrors(email: string, password: string, confirm: string): (r: map<string, string>)
    ensures "email" in r <==> !MatchesEmailPattern(email)
    ensures "email" in r ==> r["email"] == if email == [] then EmailRequired else EmailInvalid
    ensures "password" in r <==> |password| < MinPasswordLength
    ensures "password" in r ==> r["password"] == if password == [] then PasswordRequired else PasswordTooShort
    ensures "confirmPassword" in r <==> password != confirm
    ensures "confirmPassword" in r ==> r["confirmPassword"] == PasswordsDiffer
    ensures r.Keys <= {"email", "password", "confirmPassword"}
  {
    var e := EmailError(email);
    var r := if e.Some? then map["email" := e.value] else map[];
    var r := if password == [] then r["password" := PasswordRequired]
             else if |password| < MinPasswordLength then r["password" := PasswordTooShort]
             else r;
    if password != confirm then r["confirmPassword" := PasswordsDiffer] else r
  }

  /** The form is valid exactly for a well-formed address, a password of at
      least eight characters, and a matching confirmation. */
  lemma SignupValidIff(email: string, password: string, confirm: string)
    ensures SignupErrors(email, password, confirm) == map[] <==>
              MatchesEmailPattern(email) && |password| >= MinPasswordLength && password == confirm
  {
    var r := SignupErrors(email, password, confirm);
    if MatchesEmailPattern(email) && |password| >= MinPasswordLength && password == confirm {
      assert r.Keys == {};
    } else if !MatchesEmailPattern(email) {
      assert "email" in r;
    } else if |password| < MinPasswordLength {
      assert "password" in r;
    } else {
      assert "confirmPassword" in r;
    }
  }

  /** A mismatch is reported beside a missing password, not instead of it. */
  lemma MismatchReportedWithPasswordError(email: string, confirm: string)
    requires confirm != []
    ensures var r := SignupErrors(email, [], confirm);
            r["password"] == PasswordRequired && r["confirmPassword"] == PasswordsDiffer
  {
  }

  class Signup {
    var email: string
    var password: string
    var confirmPassword: string
    var errors: map<string, string>
    var isLoading: bool
    var successMessage: string

    constructor ()
      ensures email == [] && password == [] && confirmPassword == []
      ensures errors == map[] && !isLoading && successMessage == []
    {
      email, password, confirmPassword := "", "", "";
      errors, isLoading, successMessage := map[], false, "";
    }

    /** `validateForm`: fills the error map entry by entry, stores it, and
        reports whether it stayed empty. */
    method ValidateForm() returns (valid: bool)
      modifies this
      ensures errors == SignupErrors(email, password, confirmPassword)
      ensures valid <==> errors == map[]
      ensures email == old(email) && password == old(password) && confirmPassword == old(confirmPassword)
      ensures isLoading == old(isLoading) && successMessage == old(successMessage)
    {
      var newErrors: map<string, string> := map[];
      if email == [] {
        newErrors := newErrors["email" := EmailRequired];
      } else if !EmailTest(email) {
        newErrors := newErrors["email" := EmailInvalid];
      }
      if password == [] {
        newErrors := newErrors["password" := PasswordRequired];
      } else if |password| < MinPasswordLength {
        newErrors := newErrors["password" := PasswordTooShort];
      }
      if password != confirmPassword {
        newErrors := newErrors["confirmPassword" := PasswordsDiffer];
      }
      errors := newErrors;
      valid := |newErrors.Keys| == 0;
    }

    /** `handleSubmit`: an invalid form shows its errors and the endpoint is
        not called; otherwise it is called, and then either the success
        message shows or the failure is mapped (409 to the e-mail field,
        else the server's detail, else a generic message; see
        `AuthForms.ClientErrorShowsGeneric` for what the client really throws). */
    method HandleSubmit(outcome: Option<ApiError>) returns (called: bool)
      modifies this
      ensures called <==> SignupErrors(old(email), old(password), old(confirmPassword)) == map[]
      ensures !called ==>
                errors == SignupErrors(old(email), old(password), old(confirmPassword))
                && successMessage == [] && isLoading == old(isLoading)
      ensures called && outcome.None? ==> errors == map[] && successMessage == SignupSucceeded && !isLoading
      ensures called && outcome.Some? ==>
                errors == ApiErrors(outcome.value, 409, "email", EmailTaken, SignupFailed)
                && successMessage == [] && !isLoading
      ensures email == old(email) && password == old(password) && confirmPassword == old(confirmPassword)
    {
      errors := map[];
      successMessage := "";
      var valid := ValidateForm();
      if !valid {
        return false;
      }
      called := true;
      isLoading := true;
      match outcome {
        case None =>
          successMessage := SignupSucceeded;
        case Some(e) =>
          errors := ApiErrors(e, 409, "email", EmailTaken, SignupFailed);
      }
      isLoading := false;
    }
  }
}
