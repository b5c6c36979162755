# TaskFlow core logic in Dafny

This project models the logic inside TaskFlow, a React task manager. The
rendering is not modelled.

- **Session service.** The mock session service keeps a user collection and one
  stored session record. `AuthService.Service` is a class with a `users` sequence
  and a `stored` option. Its methods check errors in the order the service does,
  and each one appends a user, writes the session, clears it, or changes nothing.
- **Task pages.** The Dashboard, Today, Upcoming and Completed pages share:
  - the status/priority filter;
  - the three-key display order: incomplete first, then priority, then newest;
  - grouping by a date heading, with the headings ordered and each group sorted;
  - the dashboard counters;
  - list updates that replace, prepend or remove a task by `Id` after a task-service call.

  Each page with list state is a class with `tasks`, `error` and filter fields.
  Its handlers take the service's answer as a parameter.
- **Authentication forms.** Sign-up, login, reset-password and forgot-password
  each have a form validator. Each validator yields at most one message per
  field, in the order the page checks them. The email rule is the unanchored
  `\S+@\S+\.\S+` pattern. It is stated as an existential over positions
  (`Text.EmailPattern`) and decided by `Text.MatchesEmail`, which is proved equal
  to it.
- **Settings and Layout.** The Settings page builds its initial state with
  `||` and `??` defaulting and has two single-field change handlers. The Layout
  sidebar highlights menu items with a prefix/equality rule.

Time is an integer millisecond timestamp, and a calendar day is a UTC day of
86 400 000 ms (module `Clock`). `isToday`, `isTomorrow`, `isYesterday`,
`addDays`, `subDays` and `format` are functions of that timestamp and of `now`.
`format` yields a `DateLabel` value rather than text. These inputs are
parameters of the operations that need them:

- the current time `now`;
- the tasks or errors the task service returns;
- the answer to `window.confirm`;
- the session fixture.

Array sorts are sorts by a lexicographic key. Like `Array.prototype.sort`,
they are stable: elements with equal keys keep their input order. Each
comparator of the source is proved to order tasks exactly as its key does.

Some behaviours the model makes explicit:

- **Login email is not trimmed.** The login page validates the email
  untrimmed and submits it untrimmed. A leading space passes validation, but
  no stored user matches it (`LoginPage.PaddedEmailPassesButIsNotFound`).
- **Sign-up `Id` can collide.** The sign-up request is spread after the
  computed `Id`, so an `Id` in the request replaces the fresh one
  (`AuthService.SignupPayloadIdCanCollide`). The sign-up page never sends one.
- **Reset and verify change nothing.** `resetPassword` ignores the new password
  and `verifyEmail` never marks a user verified. Both depend on the token
  length alone.
- **Upcoming can mix days under one heading.** The Upcoming page loads only
  tasks due after today. Its create and update handlers, however, keep any
  task due after now. A task due later today then takes the same weekday
  heading as a task due a week later (`UpcomingPage.WeekdayLabelCanMixToday`).
  Among tasks due after today, one heading always means one day
  (`UpcomingPage.OneLabelOneDay`).

## Model

| member | source | states |
|---|---|---|
| AuthService.Service.constructor | src/services/api/authService.js:1-3 | The service starts with the given non-empty user fixture and the persisted session record, if any. |
| AuthService.Service.SaveAuth | src/services/api/authService.js:18-20 | Saving stores exactly the given record and leaves users alone. |
| AuthService.Service.ClearAuth | src/services/api/authService.js:23-25 | Clearing empties the session and leaves users alone. |
| AuthService.FindByEmail | src/services/api/authService.js:32 | Finds nothing exactly when no user has the email; otherwise finds the first user of the collection with that email. |
| AuthService.FindById | src/services/api/authService.js:152 | Finds nothing exactly when no user has the `Id`; otherwise finds the first user of the collection with that `Id`. |
| AuthService.TokenInjective | src/services/api/authService.js:7-9 | Two `mock_jwt_<Id>_<time>` tokens are equal only if both the `Id` and the time are equal. |
| Text.IntToStringInjective | src/services/api/authService.js:8 | Distinct integers render to distinct decimal texts, which is what makes the token readable. |
| Text.NatToStringRoundTrip | src/services/api/authService.js:8 | Reading the decimal text of a natural number back gives the number. |
| AuthService.Service.Login | src/services/api/authService.js:29-51 | An unknown email gives "User not found"; then any password other than "password123" gives "Invalid password"; then an unverified user gives the verify-email error. The user's stored password is never read. Success returns exactly `{user, token}` with the `mock_jwt_` token and overwrites the stored session. A failure leaves it as it was. |
| AuthService.MaxId | src/services/api/authService.js:64 | Of a non-empty collection, the largest `Id`, which some user has. |
| AuthService.NewUser | src/services/api/authService.js:63-79 | Without an `Id` in the request, the new user's `Id` exceeds every existing one. With one, it is that `Id`. Name, email and password come from the request. The user is unverified, has never logged in, was created now and has the default preferences. |
| AuthService.Service.Signup | src/services/api/authService.js:54-85 | A registered email gives "Email already registered" and changes nothing. Otherwise exactly the new user is appended at the end with the success message, and the session is untouched. |
| AuthService.SignupKeepsEmailsUnique | src/services/api/authService.js:58-82 | A successful sign-up keeps emails unique. |
| AuthService.SignupKeepsIdsUnique | src/services/api/authService.js:63-82 | A successful sign-up without an `Id` in the request keeps `Id`s unique. |
| AuthService.SignupPayloadIdCanCollide | src/services/api/authService.js:63-65 | A request carrying the `Id` of any existing user yields a duplicate `Id`, because the request is spread after the computed one. |
| AuthService.Service.ForgotPassword | src/services/api/authService.js:88-98 | Fails with "Email not found" exactly when no user has the email. Otherwise returns the sent message. Changes nothing. |
| AuthService.ResetPassword | src/services/api/authService.js:101-111 | Fails exactly when the token is absent or shorter than 10 characters. The new password plays no part. |
| AuthService.VerifyEmail | src/services/api/authService.js:114-124 | Fails exactly when the token is absent or shorter than 10 characters. It touches no user, so no one becomes verified. |
| AuthService.Service.ResendVerification | src/services/api/authService.js:127-140 | "Email not found" first, then "Email is already verified", else the sent message. Changes nothing. |
| AuthService.Service.CheckAuth | src/services/api/authService.js:143-159 | No session or an empty token gives nothing and changes nothing. A stored user whose `Id` is no longer in the collection clears the session and gives nothing. Otherwise the stored record is returned unchanged. |
| AuthService.Service.Logout | src/services/api/authService.js:162-166 | Whatever was stored, the session ends up empty, so a second logout changes nothing. Returns the logged-out message. |
| AuthService.Service.GetCurrentUser | src/services/api/authService.js:169-179 | Nothing when nothing is stored or the stored `Id` is gone. Otherwise the collection's current entry with that `Id`, the first one when `Id`s repeat. The token is not checked. |
| Tasks.CompletedCount | src/components/pages/Today.jsx:143-144 | The number of positions holding a completed task. At most the number of tasks; equal to it exactly when all are completed, zero exactly when none is. |
| Tasks.ActiveCount | src/components/pages/Dashboard.jsx:44-46 | The number of positions holding an incomplete task. Completed plus incomplete tasks make up the whole list. |
| Tasks.ApplyFilter | src/components/pages/Today.jsx:117-125 | A task is kept exactly when it is in the list and matches both the status and the priority selection. |
| Tasks.ActiveCompletedPartition | src/components/pages/Today.jsx:117-125 | For any priority selection, "active" and "completed" share no task. Together they are a permutation of what "all" keeps. |
| Tasks.DisplayKeyMatchesComparator | src/components/pages/Today.jsx:128-138 | The comparator puts a before or level with b exactly when a's key is lexicographically at most b's. |
| Tasks.DisplaySorted | src/components/pages/Today.jsx:128-138 | In a list in display order: incomplete before complete, then priority rank descending, then `createdAt` descending. |
| Tasks.CompletionKeyMatchesComparator | src/components/pages/Completed.jsx:225 | The newest-completion-first comparator agrees with the completion key. |
| Tasks.DueKeyMatchesComparator | src/components/pages/Upcoming.jsx:156-161 | The earliest-due-first group comparator agrees with the due-date key. |
| Tasks.ReplaceById | src/components/pages/Today.jsx:86-88 | Same length; entries with the `Id` become the updated task, all others are unchanged. |
| Tasks.RemoveById | src/components/pages/Today.jsx:108 | Keeps exactly the entries without the `Id`. What it drops are exactly the entries with it. |
| Tasks.ReplaceThenRemove | src/components/pages/Today.jsx:67-74 | Replacing the task with the `Id` changes none of the other tasks: removing that `Id` afterwards gives the same list as removing it straight away. |
| Seqs.Filter | src/components/pages/Today.jsx:30 | Keeps exactly the passing elements, as a sub-multiset of the input, each of them passing. |
| Seqs.FilterComplement | src/components/pages/Dashboard.jsx:45-46 | Two complementary tests split a list into a permutation of it. |
| Seqs.FilterMonotone | src/components/pages/Completed.jsx:88-91 | A weaker test keeps at least what a stronger one keeps. |
| Seqs.FilterOfFilter | src/components/pages/Today.jsx:117-125 | Filtering twice is filtering by the conjunction. |
| Seqs.FilterLengthCountsIndices | src/components/pages/Dashboard.jsx:44-49 | `filter(p).length` equals the number of positions whose element passes p. |
| Seqs.FilterLength | src/components/pages/Dashboard.jsx:44-49 | Nothing is dropped exactly when all pass; nothing is kept exactly when none passes. |
| Seqs.FilterAllOrNone | src/components/pages/Completed.jsx:92-94 | A test every element passes keeps the list unchanged; a test no element passes empties it. |
| Seqs.FilterSnoc | src/components/pages/Upcoming.jsx:136-153 | Filtering a list extended by one element extends the old result by that element when it passes. |
| Seqs.Find | src/services/api/authService.js:32 | Nothing exactly when no element passes. Otherwise the first passing element. |
| Seqs.LexLeqTotal | src/components/pages/Today.jsx:128-138 | Any two keys are comparable. |
| Seqs.LexLeqTransitive | src/components/pages/Today.jsx:128-138 | The key order is transitive. |
| Seqs.InsertSorted | src/components/pages/Today.jsx:128 | Inserting into a sorted list keeps it sorted. |
| Seqs.SortBy | src/components/pages/Today.jsx:128 | The result is ordered by the key and is a permutation of the input. It is stable: for every key value, the elements with that key come out in their input order. |
| Seqs.PermutationKeepsDistinct | src/components/pages/Upcoming.jsx:156 | Reordering a repetition-free list, as sorting the group keys does, keeps it repetition-free. |
| Dashboard.CalculateStats | src/components/pages/Dashboard.jsx:39-53 | Each counter is the number of positions whose task passes its test: completed; not completed; not completed and due before now; not completed and due today; not completed and due at most seven days from now. total = completed + pending. overdue ≤ thisWeek ≤ pending and today ≤ thisWeek. |
| Dashboard.TasksByCategory | src/components/pages/Dashboard.jsx:55-67 | "today" keeps exactly the incomplete tasks due today. "overdue" keeps exactly the incomplete tasks due before now. "upcoming" holds at most 5 tasks, each incomplete and due after now: the first 5 of them, or all if fewer. Any other category yields nothing. The "today" and "overdue" lists are sub-multisets of the tasks, and their lengths are the dashboard's `today` and `overdue` counters. |
| Dashboard.UpcomingOverdueDisjoint | src/components/pages/Dashboard.jsx:61-63 | No task is both upcoming and overdue. |
| Dashboard.FormatDueDate | src/components/pages/Dashboard.jsx:69-74 | "Today" exactly for today, "Tomorrow" exactly for tomorrow, otherwise the month-and-day label of the due day. |
| TodayPage.TodayTasks | src/components/pages/Today.jsx:30 | Keeps exactly the tasks due today, as a sub-multiset of the data. |
| TodayPage.Page.constructor | src/components/pages/Today.jsx:14-17 | No tasks, no error, filter all/all. |
| TodayPage.Page.LoadTasks | src/components/pages/Today.jsx:24-38 | On success the list is the tasks due today and the error is cleared. On failure the list is kept and the error message set. The filter is unchanged. |
| TodayPage.CreateRequest | src/components/pages/Today.jsx:43-47 | A given due date is kept. A missing one becomes exactly the start of today's UTC day, which is today and not after now. |
| Clock.TodayMidnight | src/components/pages/Today.jsx:43 | Today's ISO date, read back as a date, is today. |
| TodayPage.Page.HandleCreate | src/components/pages/Today.jsx:49-52 | A created task due today is prepended. Otherwise, or on failure, the list is unchanged. |
| TodayPage.Page.HandleUpdate | src/components/pages/Today.jsx:62-81 | An updated task still due today replaces the entry with its `Id`. One no longer due today removes that `Id`. A failure changes nothing. |
| TodayPage.Page.HandleToggle | src/components/pages/Today.jsx:83-99 | Replaces only the entries with the `Id`; a failure changes nothing. |
| TodayPage.Page.HandleDelete | src/components/pages/Today.jsx:101-114 | Removes exactly the entries with the `Id` when confirmed and deleted; otherwise nothing changes. |
| TodayPage.Page.SetFilter | src/components/pages/Today.jsx:17 | Sets the filter and nothing else. |
| TodayPage.Page.SortedTasks | src/components/pages/Today.jsx:128-138 | Returns the filtered tasks in display order, as a permutation, without changing the page. Tasks with equal display keys keep their filtered order. |
| UpcomingPage.UpcomingTasks | src/components/pages/Upcoming.jsx:29-34 | Keeps exactly the tasks due strictly after 23:59:59.999 today. |
| Clock.AfterEndOfDay | src/components/pages/Upcoming.jsx:31-33 | After the end of today exactly when on a later calendar day. |
| UpcomingPage.UpcomingMeansLaterDay | src/components/pages/Upcoming.jsx:29-34 | The loaded list is exactly the tasks due on a later day than today. |
| UpcomingPage.TodayAndUpcomingDisjoint | src/components/pages/Upcoming.jsx:29-34 | No task is loaded by both the Today page and the Upcoming page. |
| UpcomingPage.Page.constructor | src/components/pages/Upcoming.jsx:13-16 | No tasks, no error, filter active/all. |
| UpcomingPage.Page.LoadTasks | src/components/pages/Upcoming.jsx:23-42 | On success the list is the upcoming tasks and the error is cleared. On failure the list is kept and the error set. |
| UpcomingPage.CreateDueDate | src/components/pages/Upcoming.jsx:47-50 | The result is always after now. A given date after now is kept. Otherwise the result is tomorrow's midnight, a date that is tomorrow. |
| Clock.TomorrowMidnight | src/components/pages/Upcoming.jsx:47 | Tomorrow's ISO date, read back, is after now and is tomorrow. |
| UpcomingPage.CreateRequest | src/components/pages/Upcoming.jsx:52-55 | Title and priority are kept. The due date is present and after now. A given date after now is kept; a missing or past one becomes tomorrow's midnight. |
| UpcomingPage.Page.HandleCreate | src/components/pages/Upcoming.jsx:57-60 | A created task due after now is prepended; otherwise nothing changes. |
| UpcomingPage.Page.HandleUpdate | src/components/pages/Upcoming.jsx:70-89 | A task still due after now (not after today) replaces the entry with its `Id`. Otherwise that `Id` is removed. A failure changes nothing. |
| UpcomingPage.Page.HandleToggle | src/components/pages/Upcoming.jsx:91-107 | Replaces only the entries with the `Id`. |
| UpcomingPage.Page.HandleDelete | src/components/pages/Upcoming.jsx:109-122 | Removes exactly the entries with the `Id` when confirmed and deleted. |
| UpcomingPage.Page.SetFilter | src/components/pages/Upcoming.jsx:16 | Sets the filter and nothing else. |
| UpcomingPage.UpcomingLabel | src/components/pages/Upcoming.jsx:140-146 | "Tomorrow" exactly for tomorrow. A weekday, the due date's own, exactly for other dates up to a week from now. The full date of the due day exactly for dates beyond a week. |
| Clock.WeekdayDeterminesDay | src/components/pages/Upcoming.jsx:142-143 | Between two and seven days ahead, the weekday pins down the day. |
| UpcomingPage.OneLabelOneDay | src/components/pages/Upcoming.jsx:136-146 | Among tasks due after today, two with the same heading are due on the same day. |
| UpcomingPage.WeekdayLabelCanMixToday | src/components/pages/Upcoming.jsx:57-89 | A task kept by the handlers because it is due later today shares a weekday heading with a task due a week later. |
| Grouping.GroupBy | src/components/pages/Upcoming.jsx:136-153 | One non-empty bucket per distinct label, each holding exactly the elements with its label in list order. Every element's label has a bucket, and the buckets together are a permutation of the list. |
| Grouping.GroupingPartitions | src/components/pages/Completed.jsx:102-119 | Every element lands in exactly one bucket: the buckets together are a permutation of the list. |
| Grouping.PushStep | src/components/pages/Upcoming.jsx:148-151 | Pushing the next element onto its label's bucket, new or existing, keeps the buckets a grouping of the list read so far. |
| Grouping.PermutedGroups | src/components/pages/Upcoming.jsx:156-161 | Reordering the buckets keeps them a grouping of the list. |
| Grouping.OrderGroups | src/components/pages/Upcoming.jsx:156-161 | The buckets are reordered by the key of each bucket's first-pushed element, and remain a grouping of the list. Buckets whose first elements have equal keys keep the order in which they were created. |
| Grouping.SortEachGroup | src/components/pages/Upcoming.jsx:231-243 | Each bucket keeps its label and its elements, now sorted by the given key; elements with equal keys keep their order in the bucket. |
| Grouping.GroupedView | src/components/pages/Upcoming.jsx:136-161 | What the page renders: exact, non-empty, distinct, covering buckets, ordered by first-pushed element and together a permutation of the list. Each bucket is sorted, with elements of equal key in list order. |
| UpcomingPage.Page.Groups | src/components/pages/Upcoming.jsx:125-161 | The rendered groups of the filtered tasks: headed by their due-date label, ordered by due date, sorted in display order within. |
| CompletedPage.CompletedTasks | src/components/pages/Completed.jsx:28 | Keeps exactly the completed tasks. |
| CompletedPage.Page.constructor | src/components/pages/Completed.jsx:13-16 | No tasks, no error, time filter "all". |
| CompletedPage.Page.LoadTasks | src/components/pages/Completed.jsx:22-36 | On success the list is the completed tasks. On failure it is kept and the error set. Every listed task stays completed. |
| CompletedPage.Page.HandleToggle | src/components/pages/Completed.jsx:38-57 | A re-completed task replaces its entry. An uncompleted one is removed. Every listed task stays completed. |
| CompletedPage.Page.HandleDelete | src/components/pages/Completed.jsx:59-72 | Removes exactly the entries with the `Id` when confirmed and deleted. |
| CompletedPage.Page.SetTimeFilter | src/components/pages/Completed.jsx:16 | Sets the period and nothing else. |
| CompletedPage.FilteredTasks | src/components/pages/Completed.jsx:75-97 | Keeps exactly the tasks with a completion time that falls in the period. A task without one is dropped under every period. |
| CompletedPage.AllKeepsEveryStamped | src/components/pages/Completed.jsx:92-94 | "all" and any unknown period keep every task that has a completion time. |
| CompletedPage.WeekWithinMonth | src/components/pages/Completed.jsx:88-91 | The "week" result is contained in the "month" result. |
| CompletedPage.CompletedLabel | src/components/pages/Completed.jsx:106-112 | "Today" exactly for today, "Yesterday" exactly for yesterday, and the full date of that day otherwise. |
| CompletedPage.OneLabelOneDay | src/components/pages/Completed.jsx:102-112 | Two completion times with the same heading fall on the same day. |
| CompletedPage.Page.Counts | src/components/pages/Completed.jsx:139-140 | The filtered count is the size of the period's result and never exceeds the completed total. |
| CompletedPage.Page.Groups | src/components/pages/Completed.jsx:102-126 | The rendered groups of the period's tasks: headed by completion day, ordered newest first by the first-pushed task, each sorted newest first. |
| Text.Trim | src/components/pages/auth/Signup.jsx:31-33 | The result is a slice of the input with no whitespace at either end. |
| Text.TrimDropsOnlySpace | src/components/pages/auth/Signup.jsx:31-33 | What trimming drops at both ends is whitespace only. |
| Text.TrimEmptyIffAllSpace | src/components/pages/auth/Signup.jsx:31 | A text trims to nothing exactly when it is all whitespace. |
| Text.TrimIdempotent | src/components/pages/auth/Signup.jsx:69-70 | Trimming twice is trimming once. |
| Text.MatchesEmail | src/components/pages/auth/Signup.jsx:39 | Decides the unanchored `\S+@\S+\.\S+` search: true exactly when some slice of the text matches it. |
| Text.EmailPatternNotBlank | src/components/pages/auth/Signup.jsx:37-41 | A text containing a match is not blank. |
| Text.EmailPatternSurvivesTrim | src/components/pages/auth/Signup.jsx:70 | Trimming a text that contains a match keeps a match. |
| Text.EmailPatternAfterPrefix | src/components/pages/auth/Login.jsx:35 | Prepending anything to a text containing a match keeps a match. |
| Forms.NameRule | src/components/pages/auth/Signup.jsx:31-35 | "Name is required" exactly when blank. "Name must be at least 2 characters" exactly when not blank but shorter than 2 after trimming. Nothing exactly when the trimmed name has 2 or more characters. |
| Forms.EmailRule | src/components/pages/auth/Signup.jsx:37-41 | "Email is required" exactly when blank. "Invalid email format" exactly when not blank and with no match. Nothing exactly when the text contains a match. |
| Forms.NewPasswordRule | src/components/pages/auth/Signup.jsx:43-47 | "Password is required" exactly when empty. The length message exactly for 1 to 7 characters. Nothing from 8 characters on. |
| Forms.ConfirmRule | src/components/pages/auth/Signup.jsx:49-53 | The confirm message exactly when empty. "Passwords do not match" exactly when non-empty and different. Nothing exactly when equal and non-empty. |
| Forms.PresentPasswordRule | src/components/pages/auth/Login.jsx:39-41 | Nothing exactly when the password is non-empty; otherwise "Password is required". |
| Forms.HandleChange | src/components/pages/auth/Signup.jsx:21-26 | Sets only the named value. It blanks only that field's error, if it has one, and no error entry appears or disappears. |
| SignupPage.InitialForm | src/components/pages/auth/Signup.jsx:13-19 | All four fields present and empty, no errors. |
| SignupPage.ValidateForm | src/components/pages/auth/Signup.jsx:28-57 | Each field's entry is its rule's message, and there is no entry when the rule passes. Valid exactly when there are no errors, exactly when the trimmed name has 2 or more characters, the email matches, the password has 8 or more characters and the confirmation equals it. |
| SignupPage.Payload | src/components/pages/auth/Signup.jsx:68-72 | No `Id`. Name and email are the typed values trimmed, so trimming again changes nothing. The password is as typed. |
| SignupPage.AcceptedPayload | src/components/pages/auth/Signup.jsx:62-72 | An accepted form's payload still has a name of 2 or more characters, an email that matches and a password of 8 or more. The service gives it a fresh `Id`. |
| LoginPage.InitialForm | src/components/pages/auth/Login.jsx:17-21 | Both fields are present, holding the demo email "john@example.com" and the password the service accepts, and there are no errors. |
| LoginPage.ValidateForm | src/components/pages/auth/Login.jsx:30-45 | Each field's entry is its rule's message. Valid exactly when there are no errors, exactly when the email matches and the password is non-empty. |
| LoginPage.Credentials | src/components/pages/auth/Login.jsx:56 | The service receives the email and password exactly as typed. |
| LoginPage.PaddedEmailPassesButIsNotFound | src/components/pages/auth/Login.jsx:33-56 | With trimmed stored emails, a valid email with a leading space passes the form and then finds no user. |
| ResetPasswordPage.InitialForm | src/components/pages/auth/ResetPassword.jsx:14-18 | Both fields present and empty, no errors. |
| ResetPasswordPage.LinkToken | src/components/pages/auth/ResetPassword.jsx:21-29 | A missing or empty token parameter leaves no token (the page sends the user away). Otherwise the token is the parameter. |
| ResetPasswordPage.ValidateForm | src/components/pages/auth/ResetPassword.jsx:38-55 | Each field's entry is its rule's message. Valid exactly when there are no errors, exactly when the password has 8 or more characters and the confirmation equals it. |
| ResetPasswordPage.SubmitOutcome | src/components/pages/auth/ResetPassword.jsx:66 | With a link token, the submission succeeds exactly when it has 10 or more characters, whatever the password. |
| ForgotPasswordPage.HandleChange | src/components/pages/auth/ForgotPassword.jsx:16-21 | Sets the email and leaves no error. |
| ForgotPasswordPage.ValidateEmail | src/components/pages/auth/ForgotPassword.jsx:23-32 | Passes exactly when the email contains a match. On failure the error is "Email is required" for a blank email and "Invalid email format" otherwise. On success the error is untouched. |
| ForgotPasswordPage.ValidateEmailIsEmailRule | src/components/pages/auth/ForgotPassword.jsx:23-32 | The check and its message are those of the sign-up email rule. |
| ForgotPasswordPage.SubmittedEmail | src/components/pages/auth/ForgotPassword.jsx:43 | The submitted email is the typed email trimmed, so trimming again changes nothing. |
| ForgotPasswordPage.SubmittedEmailMatches | src/components/pages/auth/ForgotPassword.jsx:37-43 | After validation passes, the trimmed email still contains a match. |
| SettingsPage.OrElse | src/components/pages/Settings.jsx:24 | The `||` default: a present non-empty value is kept; a missing or empty one gives the default. |
| SettingsPage.OrIfMissing | src/components/pages/Settings.jsx:26-28 | The `??` default: any present value, `false` included, is kept; only a missing one gives the default. |
| SettingsPage.InitialProfile | src/components/pages/Settings.jsx:17-21 | Exactly name, email and avatar. Each is the user's value or "", and all are "" without a user. |
| SettingsPage.InitialPreferences | src/components/pages/Settings.jsx:23-31 | Theme and timezone are the stored values under the `||` default, so a stored non-empty value is kept. They are never empty, and they are "light" and "UTC" exactly when missing, empty or already that value. The flags are exactly email, push and taskReminders, each true unless stored as false. |
| SettingsPage.TeamUpdatesDropped | src/components/pages/Settings.jsx:25-29 | A stored `teamUpdates` flag never reaches the page state. |
| SettingsPage.HandleProfileChange | src/components/pages/Settings.jsx:36-38 | Sets only the named field. |
| SettingsPage.HandleNotificationChange | src/components/pages/Settings.jsx:40-48 | Sets only the named flag; theme, timezone and the other flags are unchanged. |
| SettingsPage.NotificationChangeKeepsShownFlags | src/components/pages/Settings.jsx:40-48 | Changing a shown flag keeps the flag set exactly the three shown ones. |
| Layout.StartsWith | src/components/organisms/Layout.jsx:41 | `startsWith` holds exactly when the prefix is a prefix of the text. |
| Layout.IsActive | src/components/organisms/Layout.jsx:39-42 | With `exact`, active exactly when the pathname equals the path. Without it, active exactly when the path is a prefix of the pathname. |
| Layout.ExactImpliesPrefix | src/components/organisms/Layout.jsx:39-42 | An exact match is also a prefix match. |
| Layout.PrefixIgnoresSegments | src/components/organisms/Layout.jsx:41 | "/tasks" is active on "/tasksX": the prefix rule does not respect path segments. |
| Layout.OnlyRootIsExact | src/components/organisms/Layout.jsx:27-37 | Only the "/" item is matched exactly. |
| Layout.MenuPathsIndependent | src/components/organisms/Layout.jsx:29-36 | No non-root menu path is a prefix of another. |
| Layout.PrefixesComparable | src/components/organisms/Layout.jsx:41 | Two prefixes of one pathname are prefixes of each other. |
| Layout.AtMostOneActive | src/components/organisms/Layout.jsx:27-42 | On any pathname, at most one menu item is highlighted by the page's own rule. |
| Layout.Render | src/components/organisms/Layout.jsx:44-46 | Nothing exactly when not authenticated. Otherwise one highlight per menu item, following its rule. |

## Left out

- **Latency.** The `delay` calls and `async`/`await` are gone, and every operation is a synchronous step.
- **Storage.** `localStorage` and JSON are modelled as the `stored` option of `AuthService.Service`. A stored text that fails to parse would throw; that case is not modelled.
- **Task service.** `taskService` is not part of this model. Its results, a task list, a created, updated or toggled task, or a failure, are parameters of the page handlers.
- **UI plumbing.** Rendering, animation, toasts, `navigate`, Redux `dispatch` and the loading flags are left out. The answer to `window.confirm` is a parameter.
- **Calendar.** `date-fns` works in the local time zone. The model uses UTC days: no time zones and no daylight-saving shifts. Texts that `format` yields are `Clock.DateLabel` values, and ISO date strings are timestamps. `new Date(null)` is the epoch (`Tasks.CompletedTime`).
- Dashboard.FormatDueDate: the "MMM d" label is modelled as the day it names. The text itself drops the year, so dates a year apart print alike; that is not stated.
- **Unmodelled due-date values.** Stored tasks always carry a due date. A task draft's empty due-date field is an absent `Option`, so the `||` fallback on an empty string is the fallback on `None`.
- **Today progress bar.** Its percentage uses floating point and is left out.
- **Sorting and grouping in place.** `sort` and the `groups` object are modelled on values. Object-key order and the aliasing of the group arrays are not captured.
- Grouping.OrderGroups: buckets whose first elements have equal keys keep the order `GroupBy` produced them in. The model does not state that this order is the order in which each label first appears in the list.
- **Text lengths.** `.length` counts UTF-16 code units; the model counts characters. Whitespace for `trim` and `\S` is a fixed character set.
- **Settings.** The save handlers, the section switch and logout are left out. A missing profile field and an empty one both give "" under `||`, so `SettingsPage.InitialProfile` treats them alike.
- Layout.Render: `NavLink`'s own `isActive` is router code outside this model. Only the page's `isActive` rule is modelled.
- **Other files.** Routing, `AuthLayout`, the placeholder Calendar, Teams and Projects pages, and `EmailVerification.jsx` are not part of this model.
