/**
 * The settings page's local state: the profile fields and the preferences it
 * starts from, filled in from the signed-in user with JavaScript's `||` and
 * `??` fallbacks, and the two handlers that edit one field at a time.
 */
module SettingsPage {
  import opened Base

  /**
   * The user record as the page reads it through optional chaining: any part
   * may be missing (null or undefined), and the stored notifications may carry
   * flags the page does not show, such as `teamUpdates`.
   */
  datatype StoredNotifications = StoredNotifications(flags: map<string, Option<bool>>)
  datatype StoredPreferences = StoredPreferences(
    theme: Option<string>, notifications: Option<StoredNotifications>, timezone: Option<string>)
  datatype StoredUser = StoredUser(
    name: Option<string>, email: Option<string>, avatar: Option<string>,
    preferences: Option<StoredPreferences>)

  /** The page's `preferences` state. */
  datatype Preferences = Preferences(theme: string, notifications: map<string, bool>, timezone: string)

  const ShownFlags: set<string> := {"email", "push", "taskReminders"}

  /** `v || d` on a string: missing and empty both fall back. */
  function OrElse(v: Option<string>, d: string): (r: string)
    ensures v.Some? && v.value != "" ==> r == v.value
    ensures v.None? || v.value == "" ==> r == d
  {
    if v.Some? && v.value != "" then v.value else d
  }

  /** `v ?? d` on a flag: only a missing value falls back; an explicit false stays. */
  function OrIfMissing(v: Option<bool>, d: bool): (r: bool)
    ensures v.Some? ==> r == v.value
    ensures v.None? ==> r == d
  {
    if v.Some? then v.value else d
  }

  /** `user?.preferences?.theme`, and the like. */
  function ThemeOf(user: Option<StoredUser>): Option<string> {
    if user.Some? && user.value.preferences.Some? then user.value.preferences.value.theme else None
  }

  function TimezoneOf(user: Option<StoredUser>): Option<string> {
    if user.Some? && user.value.preferences.Some? then user.value.preferences.value.timezone else None
  }

  /** `user?.preferences?.notifications?.[flag]`. */
  function FlagOf(user: Option<StoredUser>, flag: string): Option<bool> {
    if user.Some? && user.value.preferences.Some? && user.value.preferences.value.notifications.Some?
       && flag in user.value.preferences.value.notifications.value.flags
    then user.value.preferences.value.notifications.value.flags[flag]
    else None
  }

  /** The starting `profileData`: name, email and avatar, each empty when missing or empty. */
  function InitialProfile(user: Option<StoredUser>): (r: map<string, string>)
    ensures r.Keys == {"name", "email", "avatar"}
    ensures user.None? ==> forall k :: k in r ==> r[k] == ""
    ensures user.Some? ==> (r["name"] == user.value.name.GetOr("")
                            && r["email"] == user.value.email.GetOr("")
                            && r["avatar"] == user.value.avatar.GetOr(""))
  {
    var name := if user.Some? then user.value.name else None;
    var email := if user.Some? then user.value.email else None;
    var avatar := if user.Some? then user.value.avatar else None;
    map["name" := OrElse(name, ""), "email" := OrElse(email, ""), "avatar" := OrElse(avatar, "")]
  }

  /**
   * The starting `preferences`: theme "light" and timezone "UTC" unless the
   * user has a non-empty value; each shown flag true unless the user has one,
   * false included; no other flag.
   */
  function InitialPreferences(user: Option<StoredUser>): (r: Preferences)
    ensures r.theme == OrElse(ThemeOf(user), "light") && r.timezone == OrElse(TimezoneOf(user), "UTC")
    ensures r.theme != "" && r.timezone != ""
    ensures r.theme == "light" <==> ThemeOf(user).None? || ThemeOf(user).value in {"", "light"}
    ensures r.timezone == "UTC" <==> TimezoneOf(user).None? || TimezoneOf(user).value in {"", "UTC"}
    ensures r.notifications.Keys == ShownFlags
    ensures forall f :: f in ShownFlags ==> r.notifications[f] == (FlagOf(user, f) != Some(false))
  {
    Preferences(
      OrElse(ThemeOf(user), "light"),
      map["email" := OrIfMissing(FlagOf(user, "email"), true),
          "push" := OrIfMissing(FlagOf(user, "push"), true),
          "taskReminders" := OrIfMissing(FlagOf(user, "taskReminders"), true)],
      OrElse(TimezoneOf(user), "UTC"))
  }

  /** A stored `teamUpdates` flag, whatever its value, does not reach the page. */
  lemma TeamUpdatesDropped(user: Option<StoredUser>)
    ensures "teamUpdates" !in InitialPreferences(user).notifications
  {
  }

  /** `handleProfileChange(field, value)`: that field takes the value; every other field is kept. */
  function HandleProfileChange(profile: map<string, string>, field: string, value: string): (r: map<string, string>)
    ensures r.Keys == profile.Keys + {field}
    ensures r[field] == value
    ensures forall k :: k in profile && k != field ==> r[k] == profile[k]
  {
    profile[field := value]
  }

  /**
   * `handleNotificationChange(field, value)`: that flag takes the value; the
   * theme, the timezone and every other flag are kept.
   */
  function HandleNotificationChange(prefs: Preferences, field: string, value: bool): (r: Preferences)
    ensures r.theme == prefs.theme && r.timezone == prefs.timezone
    ensures r.notifications.Keys == prefs.notifications.Keys + {field}
    ensures r.notifications[field] == value
    ensures forall k :: k in prefs.notifications && k != field ==> r.notifications[k] == prefs.notifications[k]
  {
    prefs.(notifications := prefs.notifications[field := value])
  }

  /** Editing a shown flag keeps the set of flags exactly the shown ones. */
  lemma NotificationChangeKeepsShownFlags(prefs: Preferences, field: string, value: bool)
    requires prefs.notifications.Keys == ShownFlags && field in ShownFlags
    ensures HandleNotificationChange(prefs, field, value).notifications.Keys == ShownFlags
  {
  }
}
