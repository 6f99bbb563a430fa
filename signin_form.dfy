/** The sign-in form: its validation into an error map keyed by field, and
    the submission that calls the sign-in endpoint only for a valid form.
    The endpoint's outcome is a parameter: `None` when it succeeds. */
module SigninForm {
  import opened Wrappers
  import opened AuthForms
  import SignupForm

  const BadCredentials := "Invalid email or password"
  const SigninFailed := "Failed to sign in. Please try again."

  /** `validateForm`'s error map: the same e-mail rules as sign-up, and a
      password entry only when the password is empty. */
  function SigninErrors(email: string, password: string): (r: map<string, string>)
    ensures "email" in r <==> !MatchesEmailPattern(email)
    ensures "email" in r ==> r["email"] == if email == [] then EmailRequired else EmailInvalid
    ensures "password" in r <==> password == []
    ensures "password" in r ==> r["password"] == PasswordRequired
    ensures r.Keys <= {"email", "password"}
  {
    var e := EmailError(email);
    var r := if e.Some? then map["email" := e.value] else map[];
    if password == [] then r["password" := PasswordRequired] else r
  }

  /** The form is valid exactly for a well-formed address and a non-empty
      password; there is no minimum length. */
  lemma SigninValidIff(email: string, password: string)
    ensures SigninErrors(email, password) == map[] <==> MatchesEmailPattern(email) && password != []
  {
    var r := SigninErrors(email, password);
    if MatchesEmailPattern(email) && password != [] {
      assert r.Keys == {};
    } else if !MatchesEmailPattern(email) {
      assert "email" in r;
    } else {
      assert "password" in r;
    }
  }

  /** Credentials the sign-up form accepts also pass the sign-in form. */
  lemma SignupCredentialsPassSignin(email: string, password: string)
    requires SignupForm.SignupErrors(email, password, password) == map[]
    ensures SigninErrors(email, password) == map[]
  {
    SignupForm.SignupValidIff(email, password, password);
    SigninValidIff(email, password);
  }

  class Signin {
    var email: string
    var password: string
    var errors: map<string, string>
    var isLoading: bool

    constructor ()
      ensures email == [] && password == [] && errors == map[] && !isLoading
    {
      email, password, errors, isLoading := "", "", map[], false;
    }

    /** `validateForm`: fills the error map entry by entry, stores it, and
        reports whether it stayed empty. */
    method ValidateForm() returns (valid: bool)
      modifies this
      ensures errors == SigninErrors(email, password)
      ensures valid <==> errors == map[]
      ensures email == old(email) && password == old(password) && isLoading == old(isLoading)
    {
      var newErrors: map<string, string> := map[];
      if email == [] {
        newErrors := newErrors["email" := EmailRequired];
      } else if !EmailTest(email) {
        newErrors := newErrors["email" := EmailInvalid];
      }
      if password == [] {
        newErrors := newErrors["password" := PasswordRequired];
      }
      errors := newErrors;
      valid := |newErrors.Keys| == 0;
    }

    /** `handleSubmit`: an invalid form shows its errors and the endpoint is
        not called; otherwise it is called, and a failure is mapped (401 to
        the credentials message, else the server's detail, else a generic
        message; see `AuthForms.ClientErrorShowsGeneric` for what the client
        really throws). */
    method HandleSubmit(outcome: Option<ApiError>) returns (called: bool)
      modifies this
      ensures called <==> SigninErrors(old(email), old(password)) == map[]
      ensures !called ==> errors == SigninErrors(old(email), old(password)) && isLoading == old(isLoading)
      ensures called && outcome.None? ==> errors == map[] && !isLoading
      ensures called && outcome.Some? ==>
                errors == ApiErrors(outcome.value, 401, "general", BadCredentials, SigninFailed) && !isLoading
      ensures email == old(email) && password == old(password)
    {
      errors := map[];
      var valid := ValidateForm();
      if !valid {
        return false;
      }
      called := true;
      isLoading := true;
      if outcome.Some? {
        errors := ApiErrors(outcome.value, 401, "general", BadCredentials, SigninFailed);
      }
      isLoading := false;
    }
  }
}
