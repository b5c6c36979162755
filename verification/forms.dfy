/**
 * The field rules the authentication forms apply before they call the session
 * service, and the change handler they share. Each rule yields at most one
 * message for its field; None means the field is acceptable. The forms keep
 * their values and their error messages in plain objects keyed by field name,
 * modelled as string maps.
 */
module Forms {
  import opened Base
  import opened Text

  const NameRequired: string := "Name is required"
  const NameTooShort: string := "Name must be at least 2 characters"
  const EmailRequired: string := "Email is required"
  const EmailInvalid: string := "Invalid email format"
  const PasswordRequired: string := "Password is required"
  const PasswordTooShort: string := "Password must be at least 8 characters"
  const ConfirmRequired: string := "Please confirm your password"
  const ConfirmMismatch: string := "Passwords do not match"

  /** The sign-up name: required after trimming, then at least two characters after trimming. */
  function NameRule(name: string): (r: Option<string>)
    ensures r == Some(NameRequired) <==> AllSpace(name)
    ensures r == Some(NameTooShort) <==> !AllSpace(name) && |Trim(name)| < 2
    ensures r == None <==> |Trim(name)| >= 2
  {
    TrimEmptyIffAllSpace(name);
    if Trim(name) == [] then Some(NameRequired)
    else if |Trim(name)| < 2 then Some(NameTooShort)
    else None
  }

  /**
   * The email rule: required after trimming, then the unanchored pattern on the
   * untrimmed text. A match always holds a non-space character, so the text is
   * accepted exactly when it matches.
   */
  function EmailRule(email: string): (r: Option<string>)
    ensures r == Some(EmailRequired) <==> AllSpace(email)
    ensures r == Some(EmailInvalid) <==> !AllSpace(email) && !EmailPattern(email)
    ensures r == None <==> EmailPattern(email)
  {
    TrimEmptyIffAllSpace(email);
    EmailPatternNotBlank(email);
    if Trim(email) == [] then Some(EmailRequired)
    else if !MatchesEmail(email) then Some(EmailInvalid)
    else None
  }

  /** A new password: required, then at least eight characters; no trimming. */
  function NewPasswordRule(password: string): (r: Option<string>)
    ensures r == Some(PasswordRequired) <==> password == []
    ensures r == Some(PasswordTooShort) <==> 0 < |password| < 8
    ensures r == None <==> |password| >= 8
  {
    if password == [] then Some(PasswordRequired)
    else if |password| < 8 then Some(PasswordTooShort)
    else None
  }

  /** The login password only has to be present; a single space counts. */
  function PresentPasswordRule(password: string): (r: Option<string>)
    ensures r == None <==> |password| > 0
    ensures r.Some? ==> r.value == PasswordRequired
  {
    if password == [] then Some(PasswordRequired) else None
  }

  /** The confirmation: required, then equal to the password. */
  function ConfirmRule(password: string, confirm: string): (r: Option<string>)
    ensures r == Some(ConfirmRequired) <==> confirm == []
    ensures r == Some(ConfirmMismatch) <==> confirm != [] && confirm != password
    ensures r == None <==> confirm != [] && confirm == password
  {
    if confirm == [] then Some(ConfirmRequired)
    else if password != confirm then Some(ConfirmMismatch)
    else None
  }

  /** The error object holds the rule's message for the field, and no entry when the rule passes. */
  predicate Reports<F>(errors: map<F, string>, field: F, rule: Option<string>) {
    && (field in errors <==> rule.Some?)
    && (rule.Some? ==> errors[field] == rule.value)
  }

  /** A form's values and its displayed errors, both keyed by field. */
  datatype Form<F> = Form(values: map<F, string>, errors: map<F, string>)

  /**
   * `handleChange(field, value)`: stores the value and, if the field shows a
   * (non-empty) error, blanks that error. Every other value and error is kept,
   * and no error entry appears or disappears.
   */
  function HandleChange<F>(form: Form<F>, field: F, value: string): (r: Form<F>)
    ensures r.values.Keys == form.values.Keys + {field}
    ensures r.values[field] == value
    ensures forall k :: k in form.values && k != field ==> r.values[k] == form.values[k]
    ensures r.errors.Keys == form.errors.Keys
    ensures field in r.errors ==> r.errors[field] == ""
    ensures forall k :: k in form.errors && k != field ==> r.errors[k] == form.errors[k]
  {
    var errors := if field in form.errors && form.errors[field] != "" then form.errors[field := ""] else form.errors;
    Form(form.values[field := value], errors)
  }
}
