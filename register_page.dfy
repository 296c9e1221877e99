/**
 * The registration form of client/src/pages/Register.tsx: the chain of
 * checks run on submit, each reporting only the first failure, and the
 * mapping from a failed request to the message shown.
 */
module RegisterPage {
  import opened Wrappers
  import opened JsText
  import opened ClientTypes

  datatype FormData = FormData(email: string, password: string, confirmPassword: string,
                               firstName: string, lastName: string, workingGroup: string)

  // ------------------------------------------------------------ email pattern

  /** `[^\s@]`: neither whitespace nor `@`. */
  predicate PlainChar(c: char) {
    !IsWhitespace(c) && c != '@'
  }

  /** `[^\s@]+`. */
  predicate Plain(s: string) {
    |s| > 0 && forall k :: 0 <= k < |s| ==> PlainChar(s[k])
  }

  /** The split of `^[^\s@]+@[^\s@]+\.[^\s@]+$` that puts the `@` at `i` and the escaped dot at `j`. */
  predicate SplitsAt(s: string, i: int, j: int) {
    && 0 < i && i + 1 < j && j + 1 < |s|
    && s[i] == '@' && s[j] == '.'
    && Plain(s[..i]) && Plain(s[i + 1..j]) && Plain(s[j + 1..])
  }

  /** `emailRegex.test(s)`: some split matches. */
  predicate EmailPatternMatches(s: string) {
    exists i, j | 0 <= i < |s| && 0 <= j < |s| :: SplitsAt(s, i, j)
  }

  predicate NoWhitespace(s: string) {
    forall k :: 0 <= k < |s| ==> !IsWhitespace(s[k])
  }

  /** Position `i` holds the only `@` of `s`. */
  predicate SoleAt(s: string, i: int) {
    0 <= i < |s| && s[i] == '@' && forall k :: 0 <= k < |s| && k != i ==> s[k] != '@'
  }

  predicate DotAt(s: string, j: int) {
    0 <= j < |s| && s[j] == '.'
  }

  /**
   * The shape the pattern describes: no whitespace, exactly one `@`, which
   * is not first, and after it a dot with at least one character on each side.
   */
  ghost predicate WellFormedEmail(s: string) {
    NoWhitespace(s) && exists i :: SoleAt(s, i) && 0 < i && exists j :: DotAt(s, j) && i + 1 < j < |s| - 1
  }

  /** The pattern accepts exactly the well-formed addresses. */
  lemma EmailPatternIff(s: string)
    ensures EmailPatternMatches(s) <==> WellFormedEmail(s)
  {
    if EmailPatternMatches(s) {
      var i, j :| 0 <= i < |s| && 0 <= j < |s| && SplitsAt(s, i, j);
      assert Plain(s[..i]) && Plain(s[i + 1..j]) && Plain(s[j + 1..]);
      forall k | 0 <= k < |s| && k != i && k != j
        ensures PlainChar(s[k])
      {
        if k < i {
          assert s[..i][k] == s[k];
        } else if k < j {
          assert s[i + 1..j][k - i - 1] == s[k];
        } else {
          assert s[j + 1..][k - j - 1] == s[k];
        }
      }
      assert SoleAt(s, i);
      assert DotAt(s, j);
    }
    if WellFormedEmail(s) {
      var i :| SoleAt(s, i) && 0 < i && exists j :: DotAt(s, j) && i + 1 < j < |s| - 1;
      var j :| DotAt(s, j) && i + 1 < j < |s| - 1;
      assert forall k :: 0 <= k < |s| && k != i ==> PlainChar(s[k]);
      assert SplitsAt(s, i, j);
    }
  }

  /** A matching address starts with a visible character, so it never trims to nothing. */
  lemma MatchingEmailIsNotBlank(s: string)
    requires EmailPatternMatches(s)
    ensures Trim(s) != ""
  {
    var i, j :| 0 <= i < |s| && 0 <= j < |s| && SplitsAt(s, i, j);
    assert s[..i][0] == s[0];
    TrimKeepsVisibleStart(s);
  }

  // ------------------------------------------------------------ submit chain

  const InvalidEmailMessage := "Please enter a valid email address"
  const ShortPasswordMessage := "Password must be at least 8 characters long"
  const MismatchMessage := "Passwords do not match"
  const FirstNameMessage := "Please enter your first name"
  const LastNameMessage := "Please enter your last name"
  const MissingEmailMessage := "Please enter your email address"
  const MissingPasswordMessage := "Please enter a password"

  /** What a submit does: show one error, or call `register` with the form minus `confirmPassword`. */
  datatype Submit = Rejected(message: string) | Send(data: RegisterData)

  const MinPasswordLength := 8

  /** `handleSubmit` up to the `register` call: the checks in source order, the first failure wins. */
  function HandleSubmit(f: FormData): (r: Submit)
    ensures r == Rejected(InvalidEmailMessage) <==> !EmailPatternMatches(f.email)
    ensures r == Rejected(ShortPasswordMessage) <==> EmailPatternMatches(f.email) && |f.password| < MinPasswordLength
    ensures r == Rejected(MismatchMessage) <==>
      EmailPatternMatches(f.email) && |f.password| >= MinPasswordLength && f.password != f.confirmPassword
    ensures r == Rejected(FirstNameMessage) <==>
      EmailPatternMatches(f.email) && |f.password| >= MinPasswordLength && f.password == f.confirmPassword
      && Trim(f.firstName) == ""
    ensures r == Rejected(LastNameMessage) <==>
      EmailPatternMatches(f.email) && |f.password| >= MinPasswordLength && f.password == f.confirmPassword
      && Trim(f.firstName) != "" && Trim(f.lastName) == ""
    ensures r.Send? <==>
      EmailPatternMatches(f.email) && |f.password| >= MinPasswordLength && f.password == f.confirmPassword
      && Trim(f.firstName) != "" && Trim(f.lastName) != "" && Trim(f.email) != "" && f.password != ""
    ensures r.Send? ==> r.data == RegisterData(f.email, f.password, f.firstName, f.lastName, f.workingGroup)
  {
    FirstFailure(EmailPatternMatches(f.email), |f.password| >= MinPasswordLength, f.password == f.confirmPassword,
      Trim(f.firstName) != "", Trim(f.lastName) != "", Trim(f.email) != "", f.password != "",
      RegisterData(f.email, f.password, f.firstName, f.lastName, f.workingGroup))
  }

  /** The chain over the seven checks' verdicts, in source order: the first failing check's message, else the data to send. */
  function FirstFailure(emailMatches: bool, longEnough: bool, confirmed: bool, firstGiven: bool, lastGiven: bool,
                        emailGiven: bool, passwordGiven: bool, data: RegisterData): (r: Submit)
    ensures r == Rejected(InvalidEmailMessage) <==> !emailMatches
    ensures r == Rejected(ShortPasswordMessage) <==> emailMatches && !longEnough
    ensures r == Rejected(MismatchMessage) <==> emailMatches && longEnough && !confirmed
    ensures r == Rejected(FirstNameMessage) <==> emailMatches && longEnough && confirmed && !firstGiven
    ensures r == Rejected(LastNameMessage) <==> emailMatches && longEnough && confirmed && firstGiven && !lastGiven
    ensures r == Rejected(MissingEmailMessage) <==> emailMatches && longEnough && confirmed && firstGiven && lastGiven && !emailGiven
    ensures r == Rejected(MissingPasswordMessage) <==>
      emailMatches && longEnough && confirmed && firstGiven && lastGiven && emailGiven && !passwordGiven
    ensures r.Send? <==> emailMatches && longEnough && confirmed && firstGiven && lastGiven && emailGiven && passwordGiven
    ensures r.Send? ==> r.data == data
  {
    if !emailMatches then Rejected(InvalidEmailMessage)
    else if !longEnough then Rejected(ShortPasswordMessage)
    else if !confirmed then Rejected(MismatchMessage)
    else if !firstGiven then Rejected(FirstNameMessage)
    else if !lastGiven then Rejected(LastNameMessage)
    else if !emailGiven then Rejected(MissingEmailMessage)
    else if !passwordGiven then Rejected(MissingPasswordMessage)
    else Send(data)
  }

  /** The last two checks can never report: earlier checks already exclude a blank email and an empty password. */
  lemma LastChecksUnreachable(f: FormData)
    ensures HandleSubmit(f) != Rejected(MissingEmailMessage)
    ensures HandleSubmit(f) != Rejected(MissingPasswordMessage)
    ensures HandleSubmit(f).Send? <==>
      EmailPatternMatches(f.email) && |f.password| >= MinPasswordLength && f.password == f.confirmPassword
      && Trim(f.firstName) != "" && Trim(f.lastName) != ""
  {
    if EmailPatternMatches(f.email) {
      MatchingEmailIsNotBlank(f.email);
    }
  }

  // ------------------------------------------------------------ error mapping

  const DuplicateEmailMessage := "An account with this email already exists"
  const InvalidDataMessage := "Invalid registration data"
  const GenericFailureMessage := "Failed to create account. Please try again later."

  /** The `catch` of `handleSubmit`: the response status, if any, and `data.message`, if any. */
  function SubmitErrorMessage(status: Option<int>, message: Option<string>): (shown: string)
    ensures status == Some(409) ==> shown == DuplicateEmailMessage
    ensures status == Some(400) ==> shown == if message.Some? && message.value != "" then message.value else InvalidDataMessage
    ensures status != Some(409) && status != Some(400) ==> shown == GenericFailureMessage
  {
    if status == Some(409) then DuplicateEmailMessage
    else if status == Some(400) then (if message.Some? && message.value != "" then message.value else InvalidDataMessage)
    else GenericFailureMessage
  }
}
