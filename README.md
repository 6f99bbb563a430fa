# A verified model of the to-do application's core logic

This project is a Dafny model of the parts of the to-do application (web back
end, console application and web front end) that compute something, together
with proofs of what they promise.

- **Recurrence** (`recurrence.dfy`, on `calendar.dfy`): advancing a due date or
  reminder by one `daily`, `weekly` or `monthly` step in the proleptic
  Gregorian calendar, with the month step clamping the day to the end of the
  month and Python's `datetime` range check; and building the next pending
  instance of a completed recurring task.
- **Back-end task store** (`task_service.dfy`, `task_model.dfy`,
  `task_schemas.dfy`): a class over a map from task identifier to row, with
  owner-scoped create, list (newest first), partial update and delete; the
  request bounds of `TaskCreate`/`TaskUpdate` and the fields of
  `TaskResponse`.
- **Console task manager** (`task_manager.dfy`, `console_task.dfy`): a class
  holding the task dictionary, its insertion order and the identifier counter,
  with add, list, exists, update, delete and toggle; the task record and its
  one-line display.
- **Front-end handlers** (`task_filters.dfy`, `route_guard.dfy`,
  `date_time_picker.dfy`, `task_form.dfy`, `task_item.dfy`, `auth_forms.dfy`,
  `signup_form.dfy`, `signin_form.dfy`): the filter hook's state and query
  parameters, the route guard, the date picker's string conversions, the
  new-task form, the task row's edit handlers, and the sign-up and sign-in
  validation and submission.
- Shared: `wrappers.dfy` (Option, Result, Outcome) and `text.dfy` (white
  space as Python and as JavaScript see it, `strip`/`trim`, prefix slicing,
  `str` of an integer).

Python's `str.strip` and JavaScript's `trim` disagree on a few code points
(U+001C..U+001F and U+0085 are white space only to Python, U+FEFF only to
JavaScript), so every trim in the model names its language.
`TaskForm.FormSendsTitleServiceRefuses` shows the consequence: the form can send
a title that the service then refuses.

Exceptions are `Failure`/`Fail` values. Callbacks the front end awaits, such
as `onSubmit`, `auth.signup` and `auth.signin`, are parameters that give their
outcome. Callbacks it only fires (`onUpdate`, `onDelete`, `alert`) are returned
as `Effect` values. The clock and `uuid4` are parameters (`now`, `freshId`).

## Model

| member | source | states |
|---|---|---|
| Text.TrimStart | backend/app/services/task_service.py:51 | The result is a suffix of the input, what it drops is white space, and it does not start with white space. |
| Text.TrimEnd | backend/app/services/task_service.py:51 | The result is a prefix of the input, what it drops is white space, and it does not end with white space. |
| Text.Strip | backend/app/services/task_service.py:60 | `strip()`/`trim()`: no longer than the input, and neither end is white space. |
| Text.StripIsInfix | backend/app/services/task_service.py:60 | The strip is the run of the input that starts right after its blank head: `r == s[k..][..|r|]` with `s[..k]` blank. |
| Text.StripDropsBlankTail | backend/app/services/task_service.py:60 | What follows the strip in the input is blank, so the strip is the input with exactly its blank ends removed. |
| Text.StripEmptyIffBlank | backend/app/services/task_service.py:51 | `not s.strip()` / `!s.trim()` holds exactly when the string is empty or all white space, in both directions. |
| Text.StripIdempotent | frontend/src/components/tasks/TaskItem.tsx:28-31 | Stripping twice is stripping once. |
| Text.StripFixesTrimmed | backend/app/services/task_service.py:60 | A string with no white space at either end is its own strip. |
| Text.Take | src/services/task_manager.py:37-38 | `s[:n]` is the first `n` characters, or all of `s` when it is shorter. |
| Text.NatToDecimal | src/models/task.py:28 | The digits of a natural number: non-empty, all digits, and starting with `0` only for zero (no leading zeros). |
| Text.IntToDecimal | src/models/task.py:28 | `str(id)` is non-empty and made of digits, with a leading minus sign exactly for a negative number, and never `-0…`. |
| Text.DecimalRoundTrip | src/models/task.py:28 | Reading the rendered digits back gives the number. |
| Text.IntToDecimalInjective | src/models/task.py:28 | Different identifiers render differently. |
| Calendar.NextDay | backend/app/services/recurring_service.py:99 | The next calendar day is well formed, keeps the time of day, and is the next ordinal. |
| Calendar.AddDays | backend/app/services/recurring_service.py:99-101 | Adding `n` days keeps the time of day and moves the ordinal by exactly `n`. |
| Calendar.AddMonth | backend/app/services/recurring_service.py:102-111 | The month step lands in the next month, keeps the time of day, and keeps the day or takes the month's last day, never a larger day. |
| Calendar.YearLength | backend/app/services/recurring_service.py:86-91 | A year has 366 days when it is a leap year and 365 otherwise. |
| Calendar.InRangeIffOrdinal | backend/app/services/recurring_service.py:99-101 | A date is within `datetime`'s range exactly when its ordinal is at most that of 9999-12-31. |
| Calendar.PlusDaysSpec | backend/app/services/recurring_service.py:99-101 | `t + timedelta(days=n)` succeeds exactly when the target ordinal is in range, and then moves the instant by exactly `n` days; otherwise it raises OverflowError. |
| Calendar.AddMonthClamps | backend/app/services/recurring_service.py:86-91 | The day after a month step is the old day when the target month has it, else the target month's last day. |
| Calendar.AddMonthYearWrap | backend/app/services/recurring_service.py:102-106 | December steps into January of the next year, every other month into the following month of the same year. |
| Calendar.ClampPersists | backend/app/services/recurring_service.py:90-91 | From January 31st: February's last day, then that same day of March, never March 31st. |
| Calendar.PlusMonthSpec | backend/app/services/recurring_service.py:102-111 | A month step fails exactly from December 9999, and then with ValueError. |
| Calendar.StampOrderIsTimeOrder | backend/app/services/task_service.py:27 | Comparing timestamps field by field is comparing them on the time line. |
| Calendar.DateOrderIsOrdinalOrder | backend/app/services/task_service.py:27 | An earlier calendar date has a smaller ordinal. |
| Recurrence.NextDueDate | backend/app/services/recurring_service.py:72-113 | The result is None exactly when the date or the pattern is missing or the pattern is not `daily`/`weekly`/`monthly`; a successful result is a valid `datetime`. |
| Recurrence.NextReminder | backend/app/services/recurring_service.py:116-151 | A successful result is a valid `datetime`. |
| Recurrence.ReminderFollowsDueDateRule | backend/app/services/recurring_service.py:116-151 | The reminder is advanced by exactly the due-date rule, applied to the old reminder. |
| Recurrence.DayStepsShiftByWholeDays | backend/app/services/recurring_service.py:98-101 | `daily` adds exactly one day and `weekly` exactly seven, keeping the time of day, or raise OverflowError past `datetime.max`. |
| Recurrence.MonthStepClamps | backend/app/services/recurring_service.py:102-111 | `monthly` goes to the next calendar month (December to January), with the day clamped to the month's end and the time kept; ValueError from December 9999. |
| Recurrence.MonthStepsDoNotRecoverDay | backend/app/services/recurring_service.py:90-91 | Two monthly steps from January 31st give February's last day and then the same day of March, below 31. |
| Recurrence.DayStepsKeepReminderGap | backend/app/services/recurring_service.py:45-50 | For `daily` and `weekly` the distance between due date and reminder is unchanged. |
| Recurrence.MonthStepMayCloseReminderGap | backend/app/services/recurring_service.py:45-50 | For `monthly` the distance is not kept: January 31st and 30th both move to February 28th 2023. |
| Recurrence.HandleTaskCompletion | backend/app/services/recurring_service.py:41-63 | Nothing for a non-recurring task. Otherwise a pending instance with a fresh identifier that copies owner, title, description, priority and recurrence settings, with due date and reminder each advanced. It fails exactly when a step fails. |
| Recurrence.PatternlessTaskSpawnsUndated | backend/app/services/recurring_service.py:41-63 | A recurring task without a pattern still spawns an instance, with no due date and no reminder. |
| Recurrence.UndatedTaskSpawnsUndated | backend/app/services/recurring_service.py:95-96 | A recurring task without a due date spawns an instance without one. |
| Recurrence.SpawnedTaskIsStorable | backend/app/services/recurring_service.py:53-63 | The spawned row fits the table whenever the completed one did. |
| TaskSchemas.ToResponse | backend/app/schemas/task.py:24-33 | The response carries the seven original fields of the row unchanged. |
| TaskSchemas.ResponseOmitsAdvancedFields | backend/app/schemas/task.py:24-33 | Two rows that differ only in priority, dates or recurrence give the same response. |
| TaskService.NormalizedDescription | backend/app/services/task_service.py:61 | None exactly for an absent or empty description; otherwise the stripped text, which is empty exactly when the description was blank. |
| TaskService.BlankTitlePassesSchema | backend/app/schemas/task.py:12 | A title of white space within the length bounds passes `TaskCreate` and strips to nothing. |
| TaskService.InsertNewestFirst | backend/app/services/task_service.py:27 | Inserting a row keeps a newest-first sequence newest first, with the row placed between the old ones. |
| TaskService.TaskStore.GetUserTasks | backend/app/services/task_service.py:15-30 | Exactly the caller's stored rows, each once, newest `created_at` first. |
| TaskService.TaskStore.CreateTask | backend/app/services/task_service.py:33-68 | A blank title gives 400 and stores nothing. Otherwise a pending row with the stripped title and the normalised description is stored under the fresh identifier, and nothing else changes. |
| TaskService.TaskStore.UpdateTask | backend/app/services/task_service.py:71-121 | A missing or foreign row gives None and changes nothing; a blank title gives 400 before any write. Otherwise only the given fields change (stripped title, normalised description, copied completion), `updated_at` is set, and the identifier, owner and every other column stay. |
| TaskService.TaskStore.DeleteTask | backend/app/services/task_service.py:124-150 | True exactly for a row the caller owns, which alone is removed; otherwise False and no change. |
| TaskService.OwnerIsolation | backend/app/services/task_service.py:90-96 | An update or delete by a non-owner leaves the table unchanged. |
| ConsoleTask.Display | src/models/task.py:21-28 | `[<s>] #<id>: <title>`, where `s` is the check mark for a completed task and a space otherwise. |
| ConsoleTask.DisplayIgnoresDescription | src/models/task.py:28 | The description never shows in the printed line. |
| ConsoleTask.DisplayDeterminesFields | src/models/task.py:21-28 | Equal printed lines mean equal status, identifier and title. |
| ConsoleTaskManager.Without | src/services/task_manager.py:117 | After `del`, the key order holds exactly the other keys. |
| ConsoleTaskManager.WithoutKeepsOrder | src/services/task_manager.py:117 | Removing a key keeps the remaining keys ascending. |
| ConsoleTaskManager.Toggled | src/services/task_manager.py:135-137 | Only that task's completion flips. |
| ConsoleTaskManager.ToggleTwiceRestores | src/services/task_manager.py:135-137 | Two toggles restore the original tasks. |
| ConsoleTaskManager.ReplaceKeepsConsistent | src/services/task_manager.py:93-103 | Replacing a task by one with the same identifier and fields within the limits keeps the manager's invariant. |
| ConsoleTaskManager.AppendKeepsConsistent | src/services/task_manager.py:41-51 | The counter's value is not yet a key and exceeds every key; storing a task under it and advancing the counter keeps the invariant. |
| ConsoleTaskManager.TaskManager.constructor | src/services/task_manager.py:14-17 | An empty manager whose counter starts at 1. |
| ConsoleTaskManager.TaskManager.AddTask | src/services/task_manager.py:19-53 | A blank title raises and changes nothing. Otherwise the old counter value is returned: it was not a key and exceeds every key. The task is stored under it with `title[:1000].strip()`, `description[:5000]` and not completed, and the counter goes up by one. |
| ConsoleTaskManager.TaskManager.GetAllTasks | src/services/task_manager.py:55-61 | Every stored task once, in insertion order, which is ascending identifier order. |
| ConsoleTaskManager.TaskManager.TaskExists | src/services/task_manager.py:63-72 | True exactly when the identifier is a key. |
| ConsoleTaskManager.TaskManager.UpdateTask | src/services/task_manager.py:74-103 | An unknown identifier raises, and so does a blank title, both before any write. Otherwise the title becomes `title.strip()[:1000]` and the description `description[:5000]`, each only when given, and nothing else changes. |
| ConsoleTaskManager.TaskManager.DeleteTask | src/services/task_manager.py:105-118 | An unknown identifier raises; otherwise exactly that task goes and the counter stays. |
| ConsoleTaskManager.TaskManager.ToggleCompletion | src/services/task_manager.py:120-137 | An unknown identifier raises; otherwise only that task's completion flips and the new value is returned. |
| ConsoleTaskManager.IdsAreNotReused | src/services/task_manager.py:117-118 | After a deletion the next identifier is above the deleted one. |
| ConsoleTaskManager.AcceptedTitleMayBeStoredEmpty | src/services/task_manager.py:33-47 | The blank check sees the whole title, so 1000 spaces followed by `x` is accepted and stored as an empty title. |
| ConsoleTaskManager.AddAndUpdateNormaliseDifferently | src/services/task_manager.py:37-47 | Adding cuts then strips and updating strips then cuts: one leading space before a full-length title costs its last character on add but not on update. |
| TaskFilters.ParamsOf | frontend/src/hooks/useTaskFilters.ts:18-29 | Each filter key is present exactly when its cell is non-empty, with the cell's value. `sort_order` is always present, and no other key appears. |
| TaskFilters.ActiveIffFilterKey | frontend/src/hooks/useTaskFilters.ts:40 | Filters are active exactly when the parameters carry a key besides `sort_order`; the sort order alone never activates them. |
| TaskFilters.ClearedParams | frontend/src/hooks/useTaskFilters.ts:31-38 | After clearing, the parameters are `{sort_order: 'asc'}` and no filter is active. |
| TaskFilters.ParamsDetermineState | frontend/src/hooks/useTaskFilters.ts:21-26 | Different states give different parameters. |
| TaskFilters.FilterHook.constructor | frontend/src/hooks/useTaskFilters.ts:11-16 | Everything empty, sort order ascending. |
| TaskFilters.FilterHook.SetSearch | frontend/src/hooks/useTaskFilters.ts:11 | Replaces the search cell only. |
| TaskFilters.FilterHook.SetStatus | frontend/src/hooks/useTaskFilters.ts:12 | Replaces the status cell only. |
| TaskFilters.FilterHook.SetPriority | frontend/src/hooks/useTaskFilters.ts:13 | Replaces the priority cell only. |
| TaskFilters.FilterHook.SetDueDate | frontend/src/hooks/useTaskFilters.ts:14 | Replaces the due-date cell only. |
| TaskFilters.FilterHook.SetSortBy | frontend/src/hooks/useTaskFilters.ts:15 | Replaces the sort-key cell only. |
| TaskFilters.FilterHook.SetSortOrder | frontend/src/hooks/useTaskFilters.ts:16 | Replaces the sort-order cell only. |
| TaskFilters.FilterHook.GetFilterParams | frontend/src/hooks/useTaskFilters.ts:18-29 | The parameters built key by key are `ParamsOf` the current state. |
| TaskFilters.FilterHook.ClearFilters | frontend/src/hooks/useTaskFilters.ts:31-38 | Back to exactly the initial state. |
| RouteGuard.Middleware | frontend/src/middleware.ts:14-33 | Redirect exactly when the path starts with `/dashboard` and the token is absent or empty; the redirect goes to `/signin` and carries the path. |
| RouteGuard.ProtectedIffDashboardPrefix | frontend/src/middleware.ts:9-23 | A path is protected exactly when it starts with `/dashboard`. |
| RouteGuard.PrefixNotSegment | frontend/src/middleware.ts:21-23 | `/dashboardX` is guarded too; `/signin` and `/` pass, and the public routes are never consulted. |
| RouteGuard.AnyTokenPasses | frontend/src/middleware.ts:26-32 | Any non-empty token lets any path through. |
| RouteGuard.UnprotectedPasses | frontend/src/middleware.ts:26-32 | Paths outside `/dashboard` pass whatever the token. |
| DateTimePicker.Emit | frontend/src/components/tasks/DateTimePicker.tsx:38-47 | Null exactly for empty input; otherwise the input with `:00` appended, or `T00:00:00` without time. |
| DateTimePicker.Shown | frontend/src/components/tasks/DateTimePicker.tsx:37 | `''` for a missing value; otherwise exactly the first 16 characters of the stored value (10 without time), or all of it when it is shorter. |
| DateTimePicker.HandleClear | frontend/src/components/tasks/DateTimePicker.tsx:25-27 | Clearing emits what an emptied input emits: null. |
| DateTimePicker.ClearFollowsShown | frontend/src/components/tasks/DateTimePicker.tsx:51-58 | The clear button is offered exactly when an optional field shows a non-empty value, and never after clearing. |
| DateTimePicker.ShownEmitDateTime | frontend/src/components/tasks/DateTimePicker.tsx:37-42 | A 16-character date-time entry is shown again exactly as typed. |
| DateTimePicker.ShownEmitDate | frontend/src/components/tasks/DateTimePicker.tsx:37-42 | A 10-character date entry is shown again exactly as typed. |
| DateTimePicker.EmitShownDateTime | frontend/src/components/tasks/DateTimePicker.tsx:37-42 | A stored value with zero seconds survives being shown and emitted again. |
| DateTimePicker.EmitShownDate | frontend/src/components/tasks/DateTimePicker.tsx:37-42 | A stored value at midnight survives being shown and emitted again. |
| DateTimePicker.SecondsAreDropped | frontend/src/components/tasks/DateTimePicker.tsx:37-42 | Non-zero seconds are lost by showing and emitting again. |
| TaskForm.FormError | frontend/src/components/tasks/TaskForm.tsx:32-45 | The checks run in order and the first failure wins: blank title, then the untrimmed title over 1000 characters, then the description over 10000. The form passes exactly when none fails. |
| TaskForm.PayloadOf | frontend/src/components/tasks/TaskForm.tsx:48-56 | The title is trimmed. The description is trimmed, and left out exactly when it is blank. Every other input passes through. |
| TaskForm.SentBodyMeetsSchema | frontend/src/components/tasks/TaskForm.tsx:32-56 | A body the form sends meets the back end's `TaskCreate` bounds. |
| TaskForm.FormSendsTitleServiceRefuses | frontend/src/components/tasks/TaskForm.tsx:32-49 | A title of U+001C passes the form but strips to nothing in the service. |
| TaskForm.Form.constructor | frontend/src/components/tasks/TaskForm.tsx:18-25 | Empty inputs, priority medium, no dates, not recurring, no error. |
| TaskForm.Form.HandleSubmit | frontend/src/components/tasks/TaskForm.tsx:27-69 | A failed check records its message, sends nothing and keeps the inputs. Otherwise the payload is sent. On success every input resets; on rejection the message is recorded and the inputs are kept. |
| TaskForm.Form.ClearInputs | frontend/src/components/tasks/TaskForm.tsx:59-65 | The seven inputs take their initial values. |
| TaskForm.Form.OnRecurringChange | frontend/src/components/tasks/TaskForm.tsx:144-147 | Sets the checkbox; unchecking also clears the pattern. |
| TaskItem.EditText | frontend/src/components/tasks/TaskItem.tsx:19 | The task's description, or the empty string when it has none. |
| TaskItem.SaveEffect | frontend/src/components/tasks/TaskItem.tsx:22-33 | Alert exactly for a blank title. Otherwise it sends the trimmed title, and the trimmed description or null exactly when that is blank, and no completion. |
| TaskItem.SaveIsIdempotent | frontend/src/components/tasks/TaskItem.tsx:28-31 | Saving the saved values again sends the same changes. |
| TaskItem.Item.constructor | frontend/src/components/tasks/TaskItem.tsx:17-20 | The edit fields start from the task, not editing, no confirmation. |
| TaskItem.Item.HandleSave | frontend/src/components/tasks/TaskItem.tsx:22-33 | Produces `SaveEffect` of the edit fields. Edit mode ends unless it alerted, and the edit fields are kept. |
| TaskItem.Item.HandleCancel | frontend/src/components/tasks/TaskItem.tsx:35-39 | The edit fields return to the task's values and edit mode ends. |
| TaskItem.Item.HandleToggleComplete | frontend/src/components/tasks/TaskItem.tsx:41-43 | Sends only the flipped completion. |
| TaskItem.Item.HandleDelete | frontend/src/components/tasks/TaskItem.tsx:45-48 | Closes the confirmation and asks for deletion. |
| AuthForms.EmailTestSound | frontend/src/components/auth/SignupForm.tsx:32 | Whatever the one-pass test accepts matches `^[^\s@]+@[^\s@]+\.[^\s@]+$`. |
| AuthForms.EmailTestComplete | frontend/src/components/auth/SignupForm.tsx:32 | Whatever matches the pattern passes the one-pass test. |
| AuthForms.EmailTestMatchesPattern | frontend/src/components/auth/SignupForm.tsx:32 | The test accepts exactly the pattern's language. |
| AuthForms.EmailError | frontend/src/components/auth/SignupForm.tsx:30-34 | No error exactly for a matching address; `Email is required` for an empty one, otherwise `Please enter a valid email address`. |
| AuthForms.PlainAddressMatches | frontend/src/components/auth/SignupForm.tsx:32 | `a@b.c` matches. |
| AuthForms.SecondAtRefused | frontend/src/components/auth/SignupForm.tsx:32 | `a@@b.c` does not match. |
| AuthForms.FinalDotRefused | frontend/src/components/auth/SignupForm.tsx:32 | `a@b.` does not match. |
| AuthForms.ApiErrors | frontend/src/components/auth/SignupForm.tsx:80-86 | For an error object with the given fields: one entry, the status-specific one, else `general` with the detail when present and non-empty, else the generic message. |
| AuthForms.ClientError | frontend/src/lib/api.ts:80-89 | A failed request throws a plain `Error`: neither `status` nor `detail` is set. |
| AuthForms.ClientErrorShowsGeneric | frontend/src/components/auth/SignupForm.tsx:78-87 | For every error the client actually throws, the handlers show the generic message under `general`: the 409, 401 and detail branches never fire. |
| SignupForm.SignupErrors | frontend/src/components/auth/SignupForm.tsx:26-50 | Has an e-mail entry exactly for a non-matching address, a password entry exactly for one under 8 characters (required when empty), and a confirmation entry exactly on mismatch. |
| SignupForm.SignupValidIff | frontend/src/components/auth/SignupForm.tsx:26-50 | Valid exactly for a matching address, a password of at least 8 characters and an equal confirmation. |
| SignupForm.MismatchReportedWithPasswordError | frontend/src/components/auth/SignupForm.tsx:37-46 | A mismatch is reported beside a missing password. |
| SignupForm.Signup.constructor | frontend/src/components/auth/SignupForm.tsx:14-21 | Empty fields, no errors, not loading, no message. |
| SignupForm.Signup.ValidateForm | frontend/src/components/auth/SignupForm.tsx:26-50 | The error map built entry by entry is `SignupErrors` of the fields, and the result says whether it is empty. |
| SignupForm.Signup.HandleSubmit | frontend/src/components/auth/SignupForm.tsx:55-90 | The endpoint is called exactly for a valid form. Then success shows the message; failure maps 409 to the e-mail entry, else to the detail, else to the generic message (with the client's errors, always the generic one; see `AuthForms.ClientErrorShowsGeneric`). Loading ends. |
| SigninForm.SigninErrors | frontend/src/components/auth/SigninForm.tsx:24-41 | The same e-mail entry as sign-up, and a password entry exactly when the password is empty. |
| SigninForm.SigninValidIff | frontend/src/components/auth/SigninForm.tsx:24-41 | Valid exactly for a matching address and a non-empty password. |
| SigninForm.SignupCredentialsPassSignin | frontend/src/components/auth/SigninForm.tsx:35-37 | Credentials sign-up accepts also pass sign-in. |
| SigninForm.Signin.constructor | frontend/src/components/auth/SigninForm.tsx:14-19 | Empty fields, no errors, not loading. |
| SigninForm.Signin.ValidateForm | frontend/src/components/auth/SigninForm.tsx:24-41 | The error map built entry by entry is `SigninErrors` of the fields, and the result says whether it is empty. |
| SigninForm.Signin.HandleSubmit | frontend/src/components/auth/SigninForm.tsx:46-76 | The endpoint is called exactly for a valid form. A failure maps 401 to the credentials message, else to the detail, else to the generic message (with the client's errors, always the generic one). Loading ends. |

## Left out

- Database sessions, commits and async execution: the table is a map updated in place.
- `handle_task_completion` returns the new row instead of adding it to a session, and nothing in the back end calls it.
- The clock (`datetime.utcnow`) and identifier source (`uuid4`) are parameters. `TaskStore.CreateTask` requires the fresh identifier to be unused.
- The ORM class declares only seven columns. The model's row also carries the five columns the recurrence code sets, with the domains of the migration's CHECK constraints.
- The service trusts its request bodies: the schema bounds (`ValidCreate`, `ValidUpdate`) are preconditions, because request validation refuses other bodies before the service runs.
- `dateutil.relativedelta` is modelled by its documented month-step behaviour. The `except` branch in the recurrence code is not modelled separately, since the month step already clamps.
- Timestamps are rendered as strings in responses; that rendering is not part of this model.
- The order among rows with equal `created_at` is left open. `GetUserTasks` promises only newest-first.
- HTTP routing, JWT and password hashing, configuration, and the migration scripts.
- The console input loop (`console_ui.py`), which always forwards the typed description, so an empty entry clears it.
- The front end's network client and cookie storage. Its one effect on the model: it throws a plain `Error` whose message is the server's detail, with no `status` and no `detail` field, so the sign-up and sign-in forms never show the 409, 401 or server-detail messages they test for (`AuthForms.ClientErrorShowsGeneric`). `HandleSubmit` still accepts any error object, so the branches the handlers write are modelled as written.
- Rendering, timers and navigation: sign-up's redirect after two seconds and sign-in's push to `/dashboard`.
- The plain input setters of the form components, and the inline handlers that open edit mode or the delete confirmation.
- JavaScript measures string length in UTF-16 code units and Python in code points. The model counts characters, so the two agree only outside the supplementary planes.
- The console's task objects are shared and mutated in place. The model stores task values, so the aliasing of a listed task with the stored one is not captured.
- `TaskService.TaskStore.GetUserTasks` reads the whole table and states membership, uniqueness and order; it does not model the database's index or query plan.
