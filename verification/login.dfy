/**
 * The login page: the two-field form, its validation and the credentials it
 * submits to the session service.
 */
module LoginPage {
  import opened Base
  import opened Text
  import opened Forms
  import AuthService

  datatype Field = Email | Password

  const Fields: set<Field> := {Email, Password}

  /** The demo form starts filled in with the seeded account's credentials. */
  function InitialForm(): (r: Form<Field>)
    ensures r.values.Keys == Fields && r.errors == map[]
    ensures r.values[Email] == "john@example.com"
    ensures r.values[Password] == AuthService.ValidPassword
  {
    Form(map[Email := "john@example.com", Password := "password123"], map[])
  }

  /**
   * `validateForm`: the email rule and a presence check on the password (no
   * length rule here); the form is valid when neither records an error.
   */
  method ValidateForm(values: map<Field, string>) returns (valid: bool, errors: map<Field, string>)
    requires Fields <= values.Keys
    ensures Reports(errors, Email, EmailRule(values[Email]))
    ensures Reports(errors, Password, PresentPasswordRule(values[Password]))
    ensures valid <==> errors == map[]
    ensures valid <==> EmailPattern(values[Email]) && values[Password] != []
  {
    errors := map[];
    var emailError := EmailRule(values[Email]);
    if emailError.Some? {
      errors := errors[Email := emailError.value];
    }
    var passwordError := PresentPasswordRule(values[Password]);
    if passwordError.Some? {
      errors := errors[Password := passwordError.value];
    }
    valid := |errors| == 0;
  }

  /** `authService.login(formData.email, formData.password)`: both as typed, untrimmed. */
  function Credentials(values: map<Field, string>): (r: (string, string))
    requires Fields <= values.Keys
    ensures r.0 == values[Email] && r.1 == values[Password]
  {
    (values[Email], values[Password])
  }

  /**
   * The login email is not trimmed, unlike the sign-up one: a registered
   * address typed with a leading space passes the form, yet no stored user
   * has that email, so the service answers "User not found".
   */
  lemma PaddedEmailPassesButIsNotFound(users: seq<AuthService.User>, email: string)
    requires forall u :: u in users ==> Trim(u.email) == u.email
    requires EmailPattern(email)
    ensures EmailRule(" " + email) == None
    ensures AuthService.FindByEmail(users, " " + email) == None
  {
    EmailPatternAfterPrefix(" ", email);
    forall u | u in users ensures u.email != " " + email {
      assert (" " + email)[0] == ' ';
    }
  }
}
