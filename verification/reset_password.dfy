/**
 * The reset-password page: the token read from the link, the two-field form
 * and its validation, and the call it makes on submit.
 */
module ResetPasswordPage {
  import opened Base
  import opened Forms
  import AuthService

  datatype Field = Password | ConfirmPassword

  const Fields: set<Field> := {Password, ConfirmPassword}

  function InitialForm(): (r: Form<Field>)
    ensures r.values.Keys == Fields && r.errors == map[]
    ensures forall k :: k in r.values ==> r.values[k] == ""
  {
    Form(map[Password := "", ConfirmPassword := ""], map[])
  }

  /**
   * The token kept from the `token` query parameter. A missing or empty one
   * sends the visitor back to the forgot-password page, so nothing is kept.
   */
  function LinkToken(param: Option<string>): (r: Option<string>)
    ensures r.None? <==> param.None? || param.value == []
    ensures r.Some? ==> r == param
  {
    if param.None? || param.value == [] then None else param
  }

  /**
   * `validateForm`: the new-password rule and the confirmation rule; the form
   * is valid when neither records an error.
   */
  method ValidateForm(values: map<Field, string>) returns (valid: bool, errors: map<Field, string>)
    requires Fields <= values.Keys
    ensures Reports(errors, Password, NewPasswordRule(values[Password]))
    ensures Reports(errors, ConfirmPassword, ConfirmRule(values[Password], values[ConfirmPassword]))
    ensures valid <==> errors == map[]
    ensures valid <==> |values[Password]| >= 8 && values[ConfirmPassword] == values[Password]
  {
    errors := map[];
    var passwordError := NewPasswordRule(values[Password]);
    if passwordError.Some? {
      errors := errors[Password := passwordError.value];
    }
    var confirmError := ConfirmRule(values[Password], values[ConfirmPassword]);
    if confirmError.Some? {
      errors := errors[ConfirmPassword := confirmError.value];
    }
    valid := |errors| == 0;
  }

  /**
   * Submitting a valid form with the kept token: the service accepts exactly
   * when the link carried at least ten characters, whatever password was chosen.
   */
  lemma SubmitOutcome(param: Option<string>, password: string)
    requires LinkToken(param).Some?
    ensures AuthService.ResetPassword(LinkToken(param), password).Ok? <==> |param.value| >= 10
    ensures forall other :: AuthService.ResetPassword(LinkToken(param), other) == AuthService.ResetPassword(LinkToken(param), password)
  {
  }
}
