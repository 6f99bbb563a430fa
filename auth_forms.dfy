/** What the sign-up and sign-in forms share: the e-mail pattern
    `^[^\s@]+@[^\s@]+\.[^\s@]+$`, the error-map keys and messages, and the
    shape of an error the authentication client throws. */
module AuthForms {
  import opened Wrappers
  import opened Text

  const EmailRequired := "Email is required"
  const EmailInvalid := "Please enter a valid email address"
  const PasswordRequired := "Password is required"

  /** A character of `[^\s@]`. */
  predicate PlainChar(c: char) {
    !IsSpace(c, JavaScript) && c != '@'
  }

  /** One or more characters of `[^\s@]`. */
  predicate PlainRun(s: string) {
    s != [] && forall k :: 0 <= k < |s| ==> PlainChar(s[k])
  }

  /** The language of the pattern: the input splits into a plain run, `@`, a
      plain run, `.`, and a plain run. */
  ghost predicate MatchesEmailPattern(s: string) {
    exists i, j :: 0 <= i < j < |s| && s[i] == '@' && s[j] == '.'
                   && PlainRun(s[..i]) && PlainRun(s[i + 1..j]) && PlainRun(s[j + 1..])
  }

  /** The pattern test as one pass over the input: no white space, exactly
      one `@`, not first, and a `.` after it with a character on each side. */
  predicate EmailTest(s: string) {
    && (forall k :: 0 <= k < |s| ==> !IsSpace(s[k], JavaScript))
    && exists i :: 0 < i < |s| && s[i] == '@'
                   && (forall k :: 0 <= k < |s| && k != i ==> s[k] != '@')
                   && exists j :: i + 1 < j < |s| - 1 && s[j] == '.'
  }

  /** A slice is a plain run exactly when it is non-empty and each of its
      characters is plain. */
  lemma PlainSlice(s: string, lo: int, hi: int)
    requires 0 <= lo <= hi <= |s|
    ensures PlainRun(s[lo..hi]) <==> lo < hi && forall k :: lo <= k < hi ==> PlainChar(s[k])
  {
    assert forall k :: lo <= k < hi ==> s[lo..hi][k - lo] == s[k];
  }

  /** The one-pass test accepts only inputs the pattern matches. */
  lemma EmailTestSound(s: string)
    requires EmailTest(s)
    ensures MatchesEmailPattern(s)
  {
    var i :| 0 < i < |s| && s[i] == '@'
             && (forall k :: 0 <= k < |s| && k != i ==> s[k] != '@')
             && exists j :: i + 1 < j < |s| - 1 && s[j] == '.';
    var j :| i + 1 < j < |s| - 1 && s[j] == '.';
    PlainSlice(s, 0, i);
    PlainSlice(s, i + 1, j);
    PlainSlice(s, j + 1, |s|);
    assert s[0..i] == s[..i] && s[j + 1..|s|] == s[j + 1..];
  }

  /** The pattern matches only inputs the one-pass test accepts. */
  lemma EmailTestComplete(s: string)
    requires MatchesEmailPattern(s)
    ensures EmailTest(s)
  {
    var i, j :| 0 <= i < j < |s| && s[i] == '@' && s[j] == '.'
                && PlainRun(s[..i]) && PlainRun(s[i + 1..j]) && PlainRun(s[j + 1..]);
    assert s[0..i] == s[..i] && s[j + 1..|s|] == s[j + 1..];
    PlainSlice(s, 0, i);
    PlainSlice(s, i + 1, j);
    PlainSlice(s, j + 1, |s|);
    forall k | 0 <= k < |s|
      ensures !IsSpace(s[k], JavaScript) && (k != i ==> s[k] != '@')
    {
      if k != i && k != j {
        assert PlainChar(s[k]);
      }
    }
    assert 0 < i && i + 1 < j < |s| - 1;
    assert exists j' :: i + 1 < j' < |s| - 1 && s[j'] == '.' by {
      assert s[j] == '.';
    }
  }

  /** The test accepts exactly the language of the pattern. */
  lemma EmailTestMatchesPattern(s: string)
    ensures EmailTest(s) <==> MatchesEmailPattern(s)
  {
    if EmailTest(s) {
      EmailTestSound(s);
    }
    if MatchesEmailPattern(s) {
      EmailTestComplete(s);
    }
  }

  /** `!email ? required : !pattern.test(email) ? invalid : fine`. */
  function EmailError(email: string): (r: Option<string>)
    ensures r.None? <==> MatchesEmailPattern(email)
    ensures email == [] ==> r == Some(EmailRequired)
    ensures email != [] && r.Some? ==> r == Some(EmailInvalid)
  {
    EmailTestMatchesPattern(email);
    if email == [] then Some(EmailRequired)
    else if !EmailTest(email) then Some(EmailInvalid)
    else None
  }

  /** An address of the expected shape matches. */
  lemma PlainAddressMatches()
    ensures MatchesEmailPattern("a@b.c")
  {
    var s := "a@b.c";
    assert s[..1] == "a" && s[2..3] == "b" && s[4..] == "c";
    assert PlainRun("a") && PlainRun("b") && PlainRun("c");
    assert s[1] == '@' && s[3] == '.';
  }

  /** A second `@` is refused, even where the pattern could otherwise be
      matched by backtracking. */
  lemma SecondAtRefused()
    ensures !MatchesEmailPattern("a@@b.c")
  {
    var s := "a@@b.c";
    EmailTestMatchesPattern(s);
    assert s[1] == '@' && s[2] == '@';
  }

  /** A dot in last place does not count. */
  lemma FinalDotRefused()
    ensures !MatchesEmailPattern("a@b.")
  {
    var s := "a@b.";
    EmailTestMatchesPattern(s);
    assert forall j :: 0 <= j < |s| - 1 ==> s[j] != '.';
  }

  /** The error object the sign-up and sign-in handlers inspect: its
      `status` and its `detail`, each possibly absent. The application's own
      HTTP client never fills in either (see `ClientError`). */
  datatype ApiError = ApiError(status: Option<int>, detail: Option<string>)

  /** What the HTTP client throws for a non-2xx response: a plain `Error`
      carrying the server's detail (or a fixed text) as its message only, so
      `status` and `detail` are both undefined. */
  function ClientError(message: string): (e: ApiError)
    ensures e.status.None? && e.detail.None?
  {
    ApiError(None, None)
  }

  /** `error.detail` is truthy: present and not empty. */
  predicate HasDetail(e: ApiError) {
    e.detail.Some? && e.detail.value != []
  }

  /** The error map shown for a failed call: the status-specific entry, else
      the server's detail, else the generic message. */
  function ApiErrors(e: ApiError, specialStatus: int, specialKey: string, specialMessage: string,
                     generic: string): (r: map<string, string>)
    ensures |r.Keys| == 1
    ensures e.status == Some(specialStatus) ==> r == map[specialKey := specialMessage]
    ensures e.status != Some(specialStatus) ==> r.Keys == {"general"}
    ensures e.status != Some(specialStatus) && HasDetail(e) ==> r["general"] == e.detail.value
    ensures e.status != Some(specialStatus) && !HasDetail(e) ==> r["general"] == generic
  {
    if e.status == Some(specialStatus) then map[specialKey := specialMessage]
    else if HasDetail(e) then map["general" := e.detail.value]
    else map["general" := generic]
  }

  /** Against the errors the client actually throws, the status-specific and
      detail branches never fire: every failure shows the generic message,
      whatever the server said. */
  lemma ClientErrorShowsGeneric(message: string, specialStatus: int, specialKey: string,
                                specialMessage: string, generic: string)
    ensures ApiErrors(ClientError(message), specialStatus, specialKey, specialMessage, generic)
            == map["general" := generic]
  {
  }
}
