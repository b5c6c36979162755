/**
 * The mock authentication service: a user collection that signup appends to,
 * and one stored session record (the `taskflow_auth` storage entry) that login
 * writes, logout and a failed checkAuth remove. The artificial delays are gone,
 * the clock is a `now` parameter, and storage is an Option field.
 */
module AuthService {
  import opened Base
  import opened Seqs
  import opened Text

  datatype Notifications = Notifications(email: bool, push: bool, taskReminders: bool, teamUpdates: bool)

  datatype Preferences = Preferences(theme: string, notifications: Notifications, timezone: string)

  /** A user record. `createdAt` and `lastLogin` are timestamps in milliseconds. */
  datatype User = User(
    id: int,
    name: string,
    email: string,
    password: string,
    emailVerified: bool,
    createdAt: int,
    lastLogin: Option<int>,
    preferences: Preferences)

  /** The session record `{ user, token }`. */
  datatype AuthData = AuthData(user: User, token: string)

  /** What the signup form hands over; `id` is set only if the caller passes an `Id`. */
  datatype SignupData = SignupData(id: Option<int>, name: string, email: string, password: string)

  datatype SignupResponse = SignupResponse(user: User, message: string)

  /** The one password every mock account accepts. */
  const ValidPassword: string := "password123"

  const DefaultPreferences: Preferences :=
    Preferences("light", Notifications(true, true, true, true), "UTC")

  const TokenPrefix: string := "mock_jwt_"

  // ---------------------------------------------------------------------------
  // lookups and the token rule

  function EmailIs(email: string): User -> bool {
    (u: User) => u.email == email
  }

  function IdIs(id: int): User -> bool {
    (u: User) => u.id == id
  }

  /** `mockUsers.find(u => u.email === email)`. */
  function FindByEmail(users: seq<User>, email: string): (r: Option<User>)
    ensures r.None? <==> forall u :: u in users ==> u.email != email
    ensures r.Some? ==> r.value in users && r.value.email == email
    ensures r.Some? ==> exists i :: 0 <= i < |users| && users[i] == r.value
                                    && forall j :: 0 <= j < i ==> users[j].email != email
  {
    Find(users, EmailIs(email))
  }

  /** `mockUsers.find(u => u.Id === id)`. */
  function FindById(users: seq<User>, id: int): (r: Option<User>)
    ensures r.None? <==> forall u :: u in users ==> u.id != id
    ensures r.Some? ==> r.value in users && r.value.id == id
    ensures r.Some? ==> exists i :: 0 <= i < |users| && users[i] == r.value
                                    && forall j :: 0 <= j < i ==> users[j].id != id
  {
    Find(users, IdIs(id))
  }

  /** `mock_jwt_<Id>_<now>`. */
  function GenerateToken(id: int, now: int): string {
    TokenPrefix + IntToString(id) + "_" + IntToString(now)
  }

  lemma NoUnderscore(i: int)
    ensures forall k :: 0 <= k < |IntToString(i)| ==> IntToString(i)[k] != '_'
  {
  }

  /** A string `x sep a` with no `sep` in x splits back into x and a at its first `sep`. */
  lemma SplitAtSeparator(x: string, a: string, y: string, b: string, sep: char)
    requires x + [sep] + a == y + [sep] + b
    requires forall k :: 0 <= k < |x| ==> x[k] != sep
    requires forall k :: 0 <= k < |y| ==> y[k] != sep
    ensures x == y && a == b
  {
    var s := x + [sep] + a;
    assert s[|x|] == sep && s[|y|] == sep;
    assert forall k :: 0 <= k < |x| ==> s[k] == x[k];
    assert forall k :: 0 <= k < |y| ==> s[k] == y[k];
    assert |x| == |y|;
    assert x == s[..|x|] && y == s[..|y|];
    assert a == s[|x| + 1..] && b == s[|y| + 1..];
  }

  /** The token names its user and its time: different (Id, time) pairs give different tokens. */
  lemma TokenInjective(a: int, t: int, b: int, u: int)
    requires GenerateToken(a, t) == GenerateToken(b, u)
    ensures a == b && t == u
  {
    var p := |TokenPrefix|;
    var lhs, rhs := GenerateToken(a, t), GenerateToken(b, u);
    assert lhs[p..] == IntToString(a) + ['_'] + IntToString(t);
    assert rhs[p..] == IntToString(b) + ['_'] + IntToString(u);
    NoUnderscore(a);
    NoUnderscore(b);
    SplitAtSeparator(IntToString(a), IntToString(t), IntToString(b), IntToString(u), '_');
    IntToStringInjective(a, b);
    IntToStringInjective(t, u);
  }

  /** `Math.max(...mockUsers.map(u => u.Id))`; the collection is never empty. */
  function MaxId(users: seq<User>): (r: int)
    requires |users| > 0
    ensures exists u :: u in users && u.id == r
    ensures forall u :: u in users ==> u.id <= r
  {
    if |users| == 1 then users[0].id
    else
      var m := MaxId(users[1..]);
      assert forall u :: u in users[1..] ==> u in users;
      if users[0].id > m then users[0].id else m
  }

  /**
   * The record signup appends: `{ Id: max + 1, ...userData, emailVerified: false,
   * createdAt, lastLogin: null, preferences }`. The payload is spread after `Id`,
   * so an `Id` it carries wins; the fields written after the spread always win.
   */
  function NewUser(users: seq<User>, data: SignupData, now: int): (r: User)
    requires |users| > 0
    ensures data.id.None? ==> forall u :: u in users ==> u.id < r.id
    ensures data.id.Some? ==> r.id == data.id.value
    ensures r.name == data.name && r.email == data.email && r.password == data.password
    ensures !r.emailVerified && r.lastLogin.None? && r.createdAt == now
    ensures r.preferences == DefaultPreferences
  {
    User(data.id.GetOr(MaxId(users) + 1), data.name, data.email, data.password,
         false, now, None, DefaultPreferences)
  }

  ghost predicate UniqueEmails(users: seq<User>) {
    forall i, j :: 0 <= i < j < |users| ==> users[i].email != users[j].email
  }

  ghost predicate UniqueIds(users: seq<User>) {
    forall i, j :: 0 <= i < j < |users| ==> users[i].id != users[j].id
  }

  /** Signup refuses a registered email, so it keeps emails unique. */
  lemma SignupKeepsEmailsUnique(users: seq<User>, data: SignupData, now: int)
    requires |users| > 0 && UniqueEmails(users)
    requires FindByEmail(users, data.email).None?
    ensures UniqueEmails(users + [NewUser(users, data, now)])
  {
    var s := users + [NewUser(users, data, now)];
    forall i, j | 0 <= i < j < |s| ensures s[i].email != s[j].email {
      assert s[i] == users[i] && users[i] in users;
    }
  }

  /** Without an `Id` in the payload the new user's `Id` is fresh, so ids stay unique. */
  lemma SignupKeepsIdsUnique(users: seq<User>, data: SignupData, now: int)
    requires |users| > 0 && UniqueIds(users) && data.id.None?
    ensures UniqueIds(users + [NewUser(users, data, now)])
  {
    var s := users + [NewUser(users, data, now)];
    forall i, j | 0 <= i < j < |s| ensures s[i].id != s[j].id {
      assert s[i] == users[i] && users[i] in users;
    }
  }

  /** A payload that carries an existing `Id` overrides `max + 1` and produces a duplicate. */
  lemma SignupPayloadIdCanCollide(users: seq<User>, data: SignupData, now: int, i: int)
    requires 0 <= i < |users| && data.id == Some(users[i].id)
    ensures !UniqueIds(users + [NewUser(users, data, now)])
  {
    var s := users + [NewUser(users, data, now)];
    assert s[i].id == s[|s| - 1].id;
  }

  // ---------------------------------------------------------------------------
  // calls that do not touch the state

  /** `resetPassword`: rejects a missing token or one shorter than 10 characters. */
  function ResetPassword(token: Option<string>, newPassword: string): (r: Result<string>)
    ensures r.Err? <==> token.None? || |token.value| < 10
    ensures r.Err? ==> r.message == "Invalid or expired reset token"
    ensures r.Ok? ==> r.value == "Password reset successfully"
  {
    if token.None? || |token.value| < 10 then Err("Invalid or expired reset token")
    else Ok("Password reset successfully")
  }

  /** `verifyEmail`: the same token rule; it reports success without marking anyone verified. */
  function VerifyEmail(token: Option<string>): (r: Result<string>)
    ensures r.Err? <==> token.None? || |token.value| < 10
    ensures r.Err? ==> r.message == "Invalid or expired verification token"
    ensures r.Ok? ==> r.value == "Email verified successfully"
  {
    if token.None? || |token.value| < 10 then Err("Invalid or expired verification token")
    else Ok("Email verified successfully")
  }

  // ---------------------------------------------------------------------------
  // the service

  class Service {
    /** `mockUsers`, appended to by signup. */
    var users: seq<User>
    /** The `taskflow_auth` storage entry. */
    var stored: Option<AuthData>

    /** `Math.max` needs at least one user for a fresh `Id`. */
    ghost predicate Valid()
      reads this
    {
      |users| > 0
    }

    constructor(fixture: seq<User>, persisted: Option<AuthData>)
      requires |fixture| > 0
      ensures Valid() && users == fixture && stored == persisted
    {
      users := fixture;
      stored := persisted;
    }

    /** `saveAuth`. */
    method SaveAuth(data: AuthData)
      modifies this
      ensures stored == Some(data) && users == old(users)
    {
      stored := Some(data);
    }

    /** `clearAuth`. */
    method ClearAuth()
      modifies this
      ensures stored.None? && users == old(users)
    {
      stored := None;
    }

    /**
     * `login`: unknown email, then a password other than the fixed one, then an
     * unverified account are refused, in that order, leaving the session as it was;
     * the user's own `password` field is never read. Success overwrites the session.
     */
    method Login(email: string, password: string, now: int) returns (r: Result<AuthData>)
      modifies this
      ensures users == old(users)
      ensures FindByEmail(users, email).None? ==> r == Err("User not found")
      ensures FindByEmail(users, email).Some? && password != ValidPassword
              ==> r == Err("Invalid password")
      ensures FindByEmail(users, email).Some? && password == ValidPassword
              && !FindByEmail(users, email).value.emailVerified
              ==> r == Err("Please verify your email before logging in")
      ensures FindByEmail(users, email).Some? && password == ValidPassword
              && FindByEmail(users, email).value.emailVerified
              ==> var user := FindByEmail(users, email).value;
                  r == Ok(AuthData(user, GenerateToken(user.id, now)))
      ensures r.Ok? ==> stored == Some(r.value)
      ensures r.Err? ==> stored == old(stored)
    {
      var user := FindByEmail(users, email);
      if user.None? {
        return Err("User not found");
      }
      if password != ValidPassword {
        return Err("Invalid password");
      }
      if !user.value.emailVerified {
        return Err("Please verify your email before logging in");
      }
      var token := GenerateToken(user.value.id, now);
      var authData := AuthData(user.value, token);
      SaveAuth(authData);
      return Ok(authData);
    }

    /**
     * `signup`: a registered email is refused and nothing changes; otherwise exactly
     * one new user is appended and the session is left alone.
     */
    method Signup(data: SignupData, now: int) returns (r: Result<SignupResponse>)
      requires Valid()
      modifies this
      ensures Valid() && stored == old(stored)
      ensures FindByEmail(old(users), data.email).Some?
              ==> r == Err("Email already registered") && users == old(users)
      ensures FindByEmail(old(users), data.email).None?
              ==> r == Ok(SignupResponse(NewUser(old(users), data, now),
                                         "Account created successfully. Please verify your email."))
                  && users == old(users) + [r.value.user]
    {
      var existing := FindByEmail(users, data.email);
      if existing.Some? {
        return Err("Email already registered");
      }
      var user := NewUser(users, data, now);
      users := users + [user];
      return Ok(SignupResponse(user, "Account created successfully. Please verify your email."));
    }

    /** `forgotPassword`: fails exactly when no user has the email. */
    method ForgotPassword(email: string) returns (r: Result<string>)
      ensures r.Err? <==> forall u :: u in users ==> u.email != email
      ensures r.Err? ==> r.message == "Email not found"
      ensures r.Ok? ==> r.value == "Password reset email sent successfully"
    {
      var user := FindByEmail(users, email);
      if user.None? {
        return Err("Email not found");
      }
      return Ok("Password reset email sent successfully");
    }

    /** `resendVerification`: unknown email first, then an already verified account. */
    method ResendVerification(email: string) returns (r: Result<string>)
      ensures (forall u :: u in users ==> u.email != email) ==> r == Err("Email not found")
      ensures (exists u :: u in users && u.email == email)
              ==> var user := FindByEmail(users, email).value;
                  r == if user.emailVerified then Err("Email is already verified")
                       else Ok("Verification email sent successfully")
    {
      var user := FindByEmail(users, email);
      if user.None? {
        return Err("Email not found");
      }
      if user.value.emailVerified {
        return Err("Email is already verified");
      }
      return Ok("Verification email sent successfully");
    }

    /**
     * `checkAuth`: nothing stored or an empty token gives nothing; a stored user
     * whose `Id` is gone from the collection clears the session; otherwise the
     * stored record comes back as it is.
     */
    method CheckAuth() returns (r: Option<AuthData>)
      modifies this
      ensures users == old(users)
      ensures old(stored).None? || old(stored).value.token == [] ==> r.None? && stored == old(stored)
      ensures old(stored).Some? && old(stored).value.token != []
              && FindById(users, old(stored).value.user.id).None?
              ==> r.None? && stored.None?
      ensures old(stored).Some? && old(stored).value.token != []
              && FindById(users, old(stored).value.user.id).Some?
              ==> r == old(stored) && stored == old(stored)
    {
      var authData := stored;
      if authData.None? || authData.value.token == [] {
        return None;
      }
      var user := FindById(users, authData.value.user.id);
      if user.None? {
        ClearAuth();
        return None;
      }
      return authData;
    }

    /** `logout`: clears the session whatever it held. */
    method Logout() returns (message: string)
      modifies this
      ensures stored.None? && users == old(users)
      ensures message == "Logged out successfully"
    {
      ClearAuth();
      return "Logged out successfully";
    }

    /**
     * `getCurrentUser`: the collection's current entry for the stored `Id` (not the
     * stored copy), without looking at the token.
     */
    method GetCurrentUser() returns (r: Option<User>)
      ensures r.None? <==> stored.None? || forall u :: u in users ==> u.id != stored.value.user.id
      ensures r.Some? ==> stored.Some? && r.value in users && r.value.id == stored.value.user.id
      ensures stored.Some? ==> r == FindById(users, stored.value.user.id)
    {
      if stored.None? {
        return None;
      }
      r := FindById(users, stored.value.user.id);
    }
  }
}
