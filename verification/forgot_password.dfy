/**
 * The forgot-password page: one email field with a single error slot, its
 * check before submitting, and the address it sends.
 */
module ForgotPasswordPage {
  import opened Base
  import opened Text
  import opened Forms

  /** The page's `email` and `error` state. */
  datatype State = State(email: string, error: string)

  const Initial: State := State("", "")

  /** `handleChange`: stores the value and clears any error shown. */
  function HandleChange(st: State, value: string): (r: State)
    ensures r.email == value
    ensures r.error == ""
  {
    State(value, "")
  }

  /**
   * `validateEmail`: the blank check, then the unanchored pattern; a failure
   * shows its message, a success leaves the error slot as it was.
   */
  function ValidateEmail(st: State): (r: (bool, State))
    ensures r.1.email == st.email
    ensures r.0 <==> EmailPattern(st.email)
    ensures !r.0 ==> r.1.error == (if AllSpace(st.email) then EmailRequired else EmailInvalid)
    ensures r.0 ==> r.1.error == st.error
  {
    TrimEmptyIffAllSpace(st.email);
    EmailPatternNotBlank(st.email);
    if Trim(st.email) == [] then (false, State(st.email, EmailRequired))
    else if !MatchesEmail(st.email) then (false, State(st.email, EmailInvalid))
    else (true, st)
  }

  /** The page's check and the shared email rule agree on every input. */
  lemma ValidateEmailIsEmailRule(st: State)
    ensures ValidateEmail(st).0 <==> EmailRule(st.email) == None
    ensures !ValidateEmail(st).0 ==> Some(ValidateEmail(st).1.error) == EmailRule(st.email)
  {
  }

  /** `authService.forgotPassword(email.trim())`. */
  function SubmittedEmail(st: State): (r: string)
    ensures r == Trim(st.email)
    ensures Trim(r) == r
  {
    TrimIdempotent(st.email);
    Trim(st.email)
  }

  /** An address the page accepts still matches after trimming. */
  lemma SubmittedEmailMatches(st: State)
    requires ValidateEmail(st).0
    ensures EmailPattern(SubmittedEmail(st))
  {
    EmailPatternSurvivesTrim(st.email);
  }
}
