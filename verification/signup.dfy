/**
 * The sign-up page: the four-field form, its validation and the payload it
 * hands to the session service.
 */
module SignupPage {
  import opened Base
  import opened Text
  import opened Forms
  import AuthService

  /** The keys of `formData` and of the error object. */
  datatype Field = Name | Email | Password | ConfirmPassword

  const Fields: set<Field> := {Name, Email, Password, ConfirmPassword}

  /** The form starts with every field present and empty, and no errors. */
  function InitialForm(): (r: Form<Field>)
    ensures r.values.Keys == Fields && r.errors == map[]
    ensures forall k :: k in r.values ==> r.values[k] == ""
  {
    Form(map[Name := "", Email := "", Password := "", ConfirmPassword := ""], map[])
  }

  /** What the form lets through: every rule passes. */
  ghost predicate Accepts(values: map<Field, string>)
    requires Fields <= values.Keys
  {
    && |Trim(values[Name])| >= 2
    && EmailPattern(values[Email])
    && |values[Password]| >= 8
    && values[ConfirmPassword] == values[Password]
  }

  /**
   * `validateForm`: records, field by field, the first rule the field breaks,
   * and reports whether no field broke one.
   */
  method ValidateForm(values: map<Field, string>) returns (valid: bool, errors: map<Field, string>)
    requires Fields <= values.Keys
    ensures Reports(errors, Name, NameRule(values[Name]))
    ensures Reports(errors, Email, EmailRule(values[Email]))
    ensures Reports(errors, Password, NewPasswordRule(values[Password]))
    ensures Reports(errors, ConfirmPassword, ConfirmRule(values[Password], values[ConfirmPassword]))
    ensures valid <==> errors == map[]
    ensures valid <==> Accepts(values)
  {
    errors := map[];
    var nameError := NameRule(values[Name]);
    if nameError.Some? {
      errors := errors[Name := nameError.value];
    }
    var emailError := EmailRule(values[Email]);
    if emailError.Some? {
      errors := errors[Email := emailError.value];
    }
    var passwordError := NewPasswordRule(values[Password]);
    if passwordError.Some? {
      errors := errors[Password := passwordError.value];
    }
    var confirmError := ConfirmRule(values[Password], values[ConfirmPassword]);
    if confirmError.Some? {
      errors := errors[ConfirmPassword := confirmError.value];
    }
    valid := |errors| == 0;
  }

  /** The request sent on submit: trimmed name and email, the password as typed, no `Id`. */
  function Payload(values: map<Field, string>): (r: AuthService.SignupData)
    requires Fields <= values.Keys
    ensures r.id.None?
    ensures r.name == Trim(values[Name]) && r.email == Trim(values[Email])
    ensures Trim(r.name) == r.name && Trim(r.email) == r.email
    ensures r.password == values[Password]
  {
    TrimIdempotent(values[Name]);
    TrimIdempotent(values[Email]);
    AuthService.SignupData(None, Trim(values[Name]), Trim(values[Email]), values[Password])
  }

  /**
   * An accepted form yields a payload that still satisfies the rules: trimming
   * cannot take the name below two characters or break the email match, and
   * without an `Id` the service picks a fresh one.
   */
  lemma AcceptedPayload(values: map<Field, string>)
    requires Fields <= values.Keys && Accepts(values)
    ensures |Payload(values).name| >= 2
    ensures EmailPattern(Payload(values).email)
    ensures |Payload(values).password| >= 8
    ensures forall users: seq<AuthService.User>, now :: |users| > 0 ==>
              forall u :: u in users ==> u.id < AuthService.NewUser(users, Payload(values), now).id
  {
    EmailPatternSurvivesTrim(values[Email]);
  }
}
