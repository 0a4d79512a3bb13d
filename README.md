# Smart task manager — a verified model of its core logic

This project models the decision logic and the keyed table updates of a task
manager with a FastAPI backend and a React browser client.

- **Task store with reminder jobs.**
  - Per-user tasks, each with an optional due date and an optional reminder.
  - The scheduler's job table keeps one `"reminder:{id}"` job for every task whose reminder lies in the future.
  - The task endpoints filter, order and paginate the listing.
  - Create and update enforce `remind_at <= due_at`.
  - Every id lookup checks ownership.
- **Suggestion heuristics.**
  - A priority comes from urgency keywords and the user's share of high-priority tasks.
  - Two one-hour time slots come from an hour-of-day histogram of completed tasks, scanned over the next 72 hours.
- **Authentication.**
  - Registration with unique e-mails; login; token refresh.
  - The bearer-token check that guards every other endpoint.
- **Notifications.**
  - The push-subscription upsert, keyed by user and endpoint.
  - The reminder job that stores a notification record, calls both senders and marks the record delivered.
- **Analytics summary.** Counts, completion rate, tasks created per day and the next ten deadlines.
- **Key script.**
  - Writes the public point and the private scalar as 32-byte big-endian numbers.
  - Encodes them in URL-safe base64 without padding (section 5 of RFC 4648).
- **Browser client.**
  - The four-field authentication store.
  - The filter bar.
  - The `/tasks` query-string builder: `URLSearchParams` with the application/x-www-form-urlencoded serializer of the WHATWG URL Standard.
  - The "tasks created" chart.
  - The settings page's subscribe button.
  - The three service-worker scripts.

Instants are whole seconds since the UTC epoch. The hour of day is
`(t / 3600) % 24` (Dafny's Euclidean division agrees with Python's floor
division). Ratios are exact, either as reals or as integer
cross-multiplication. The database, the scheduler, JWT signing, password
hashing and the browser platform are parameters or in-memory maps and
sequences:

- the task table is a `map<nat, Task>`;
- the user, push-subscription and notification tables are sequences whose row `i` has id `i + 1`;
- `decode_token`, the password hash and the password check are function parameters;
- `pushManager.subscribe` and the outcome of the registration POST are fields of a `Platform` value.

Files follow the source: one module per core file, plus shared modules:

- `Wrappers`: Option and Result;
- `Decimal`: `str(int)` and `int(s)`;
- `Text`: ASCII lower-casing and `str.split()`;
- `Counting`: insertion-ordered histograms;
- `Sorting`: a stable insertion sort;
- `Base64`: sections 4 and 5 of RFC 4648;
- `FormUrlencoded`: the WHATWG URL Standard serializer and parser.

## Model

| member | source | states |
|---|---|---|
| TaskModel.ParsePriority | backend/app/models/task.py:10-15 | A priority is accepted iff it is "low", "medium" or "high", and the parsed value has that wire value |
| TaskModel.ParseStatus | backend/app/models/task.py:18-23 | A status is accepted iff it is "todo", "in_progress" or "done", and the parsed value has that wire value |
| TaskModel.PriorityValueRoundTrip | backend/app/models/task.py:10-15 | Every priority's wire value parses back to it, and distinct priorities have distinct wire values |
| TaskModel.StatusValueRoundTrip | backend/app/models/task.py:18-23 | Every status's wire value parses back to it, and distinct statuses have distinct wire values |
| TaskModel.NewTask | backend/app/services/task_service.py:17-24 | A created task copies title, description, priority, due and reminder from the request and the owner from the caller; status is todo; both timestamps are the creation instant |
| TaskModel.NewTaskDefaults | backend/app/models/task.py:32-38 | A task created from a title alone is medium priority and todo, with no description, due date or reminder |
| TaskService.JobId | backend/app/services/task_service.py:31 | A job key is "reminder:" followed by a non-empty rest |
| TaskService.JobIdInjective | backend/app/services/task_service.py:31 | Different task ids never share a job key |
| TaskService.AtMostOneJobPerTask | backend/app/services/task_service.py:29-39 | In a consistent job table, two keys whose jobs name the same task are the same key |
| TaskService.ApplyUpdate | backend/app/services/task_service.py:49-62 | Each field given in the request overwrites the stored one; every other field keeps its value; id, owner and creation time are kept; `updated_at` becomes now |
| TaskService.EmptyUpdateOnlyTouchesTimestamp | backend/app/services/task_service.py:49-62 | An update that gives no field changes only `updated_at` |
| TaskService.ApplyUpdateIdempotent | backend/app/services/task_service.py:49-62 | Applying the same update twice equals applying it once |
| TaskService.TaskStore.CreateTaskWithReminder | backend/app/services/task_service.py:13-41 | Inserts the new task under a fresh id. A job is added or replaced under its key iff the reminder is set and strictly after now. Store consistency is kept |
| TaskService.TaskStore.UpdateTaskWithReminder | backend/app/services/task_service.py:44-85 | Stores the updated task. The old job is dropped, and a missing one is ignored. A job under the key exists afterwards iff the merged reminder is in the future |
| TaskService.Later | backend/app/services/task_service.py:30 | `a > b` on datetimes raises TypeError iff exactly one side carries a time zone; otherwise it compares the instants |
| TaskService.ReminderTestAsWritten | backend/app/services/task_service.py:29-30 | On a task read back from the database, the reminder test raises iff a reminder is set, and otherwise answers false |
| TaskService.FutureReminderRaisesAsWritten | backend/app/services/task_service.py:29-30 | A task whose reminder is in the future, which should get a job, makes the test as written raise |
| TaskService.NewTaskWithReminderRaisesAsWritten | backend/app/services/task_service.py:17-30 | A new task with a reminder one hour from now has a future reminder, yet the test as written raises on it |
| TaskService.TaskStore.CreateTaskWithReminderAsWritten | backend/app/services/task_service.py:13-41 | As written: the row is always stored under the next id and no job is ever added; the call raises iff the request sets a reminder |
| TaskService.TaskStore.UpdateTaskWithReminderAsWritten | backend/app/services/task_service.py:44-85 | As written: the update is always stored and the task's old job is always removed; the call raises iff the updated task has a reminder |
| TaskService.TaskStore.DeleteTaskWithReminder | backend/app/services/task_service.py:88-98 | Removes the task and its job; every other task and job is unchanged |
| TaskService.TaskStore.RebuildReminderJobs | backend/app/services/task_service.py:101-122 | Every task with a future reminder ends with its own job at its reminder; jobs are only added or replaced, and only for those tasks |
| TasksApi.FilterRows | backend/app/api/tasks.py:31-40 | A row is kept iff it is the caller's and passes every given filter; date bounds exclude tasks without a due date |
| TasksApi.FilterRowsCounts | backend/app/api/tasks.py:31-40 | Each matching row is kept as many times as the table holds it, and every other row is dropped |
| TasksApi.Offset | backend/app/api/tasks.py:43 | Page `page` starts after the `(page - 1) * size` rows of the earlier pages, and page 1 starts at the first row |
| TasksApi.Window | backend/app/api/tasks.py:43 | Offset/limit returns at most `limit` rows, the slice after `offset`, and nothing past the end |
| TasksApi.WindowWithin | backend/app/api/tasks.py:43 | A page holds only listed rows, and a page of an ordered listing stays ordered |
| TasksApi.NewestFirstIsTotalPreorder | backend/app/api/tasks.py:42 | Ordering by creation instant, descending, is total and transitive |
| TasksApi.ListTasks | backend/app/api/tasks.py:19-46 | The listing fails with 422 iff page < 1, size < 1 or size > 100, and otherwise returns at most `size` tasks |
| TasksApi.Ranked | backend/app/api/tasks.py:31-42 | The ranked listing holds exactly the matching rows, each as often as the table does, ordered by creation instant, newest first |
| TasksApi.ListTasksPageRanks | backend/app/api/tasks.py:42-43 | Page p holds the matching rows of ranks (p - 1) * size to p * size - 1 in newest-first order, and only as many as exist |
| TasksApi.PagesBeforeIsProduct | backend/app/api/tasks.py:43 | The rows before page k + 1 are k * size rows, the offset the endpoint computes |
| TasksApi.PageIsWindow | backend/app/api/tasks.py:42-43 | Page j + 1 is the window of `size` ranked rows after the j earlier pages; the page number takes no part in the filter |
| TasksApi.ConsecutiveWindows | backend/app/api/tasks.py:43 | Consecutive offset/limit windows taken from the start join up to a prefix of the listing, with no gap and no overlap |
| TasksApi.PagesArePrefix | backend/app/api/tasks.py:42-45 | Pages 1 to k, one after another, are the first k * size ranked matching rows, or all of them when fewer exist |
| TasksApi.ListTasksPagesCoverAll | backend/app/api/tasks.py:31-45 | Once k * size reaches the number of matches, pages 1 to k together hold every matching row exactly as often as the table does, no other row, newest first |
| TasksApi.ListTasksOnlyMatching | backend/app/api/tasks.py:31-43 | Every listed task is a stored task of the caller that matches every given filter |
| TasksApi.ListTasksFromStore | backend/app/api/tasks.py:28-46 | When the listed rows are exactly the store's task table, every listed task is stored under its own id and belongs to the caller |
| TasksApi.ListTasksNewestFirst | backend/app/api/tasks.py:42-43 | The listing is ordered by creation instant, newest first |
| TasksApi.ListTasksFirstPagesCoverAll | backend/app/api/tasks.py:42-45 | When all matches fit on page 1, the page holds exactly the matching tasks, with multiplicity |
| TasksApi.MergedCheckIsCheckOfResult | backend/app/api/tasks.py:104-112 | The update's check on the merged values is exactly `remind_at <= due_at` on the task the update would store |
| TasksApi.FindOwned | backend/app/api/tasks.py:75-82 | The lookup succeeds iff the id exists and belongs to the caller; otherwise it is 404 |
| TasksApi.GetTask | backend/app/api/tasks.py:68-84 | Returns the caller's task or 404 |
| TasksApi.MergedCheckAsWritten | backend/app/api/tasks.py:104-112 | As written: when it answers, it agrees with the intended merged check; it raises TypeError iff request dates carry a time zone, both merged dates are present, and exactly one of them comes from the request |
| TasksApi.MovingDueDateRaisesAsWritten | backend/app/api/tasks.py:104-112 | Moving only the due date of a task with a reminder raises when the new date carries a time zone, and does not when it is naive |
| TasksApi.CreateTask | backend/app/api/tasks.py:49-65 | 422 with nothing stored iff both dates are present and the reminder is after the due date; otherwise the created task is stored under the next id, the id counter advances, and its reminder job is added iff the reminder is in the future; every stored reminder stays no later than its due date |
| TasksApi.UpdateTask | backend/app/api/tasks.py:87-115 | 404 for a missing or foreign task; 422 iff the merged reminder is after the merged due date; on an error nothing changes. Otherwise the partial update is stored, the id counter is kept, and the task's job is replaced iff the new reminder is in the future and removed otherwise |
| TasksApi.DeleteTask | backend/app/api/tasks.py:118-134 | 404 iff the task is missing or foreign, with nothing changed; otherwise the task and its job are removed and the id counter is kept |
| AiService.ContainsIsSubstring | backend/app/services/ai_service.py:66 | The scanning substring test agrees with "occurs at some position" |
| AiService.HasUrgency | backend/app/services/ai_service.py:60-66 | A context is urgent iff its lower-cased "title description" text contains one of "urgent", "asap", "important", "critical" or "deadline" |
| AiService.CountHigh | backend/app/services/ai_service.py:70 | The number of high-priority tasks is at most the number of tasks |
| AiService.CountHighAppend | backend/app/services/ai_service.py:70 | The count over a concatenation is the sum of the counts |
| AiService.CountHighExtremes | backend/app/services/ai_service.py:70 | The count is 0 iff no task is high, and the number of tasks iff every task is high |
| AiService.SuggestPriority | backend/app/services/ai_service.py:55-83 | No context gives medium with the default reason. Without history: urgent gives high with the urgency reason, otherwise medium with the new-user reason. With history: urgent or high share above 0.3 gives high; else share below 0.1 gives low; else medium; each with its own reason text |
| AiService.FromHistory | backend/app/services/ai_service.py:69-79 | With history, urgency or a high-priority share above 0.3 gives high, a share below 0.1 gives low, and anything between gives medium; each priority comes with its own fixed reason text |
| AiService.ShareThresholds | backend/app/services/ai_service.py:72-76 | The share's comparisons with 0.3 and 0.1 are decided by the counts: 10 * high > 3 * total and 10 * high < total |
| AiService.RatioAbove | backend/app/services/ai_service.py:72-74 | The integer comparison `10a > cn` decides `a/n > c/10` |
| AiService.RatioBelow | backend/app/services/ai_service.py:72-76 | The integer comparison `10a < cn` decides `a/n < c/10` |
| AiService.UrgencyForcesHigh | backend/app/services/ai_service.py:74-82 | With a context, urgent wording always gives high |
| AiService.HourOfDay | backend/app/services/ai_service.py:117 | The hour of an instant is in 0..23 |
| AiService.TruncateToHour | backend/app/services/ai_service.py:126 | Truncation gives the on-the-hour instant at or before `t`, less than an hour earlier |
| AiService.Completed | backend/app/services/ai_service.py:94 | Only done tasks with a due date are kept |
| AiService.CompletedMultiplicity | backend/app/services/ai_service.py:94 | Every done task with a due date is kept as often as it occurs; every other task is dropped |
| AiService.DueHours | backend/app/services/ai_service.py:115-117 | One hour of the day per completed task, in task order: the hour of its due instant |
| AiService.PreferredHours | backend/app/services/ai_service.py:121-122 | At most two hours are preferred |
| AiService.PreferredHoursAreTop | backend/app/services/ai_service.py:121-122 | One or two preferred hours, each in the histogram; no hour left out has a higher count than a preferred one |
| AiService.PreferredOfCompleted | backend/app/services/ai_service.py:113-122 | With completed tasks, the preferred hours are one or two hours of the day at which some completed task is due |
| AiService.PreferredRankingIsStable | backend/app/services/ai_service.py:121 | Hours with equal counts keep their first-seen order in the ranking |
| AiService.CappedConfidence | backend/app/services/ai_service.py:130-134 | The confidence is count/n while that is at most 0.9, and exactly 0.9 above it |
| AiService.MatchesExactly | backend/app/services/ai_service.py:128-136 | The scanned offsets are exactly the ones below `k` at a preferred hour, ascending |
| AiService.EveryHourRecursThrice | backend/app/services/ai_service.py:86-128 | Every hour of the day occurs three times among the 72 on-the-hour instants of the window |
| AiService.WindowHoldsTwoMatches | backend/app/services/ai_service.py:128-145 | The window always holds two preferred instants, so the fallback slot is never added |
| AiService.BuildHistogram | backend/app/services/ai_service.py:114-118 | The histogram loop builds the insertion-ordered histogram of the completed tasks' due hours |
| Counting.HistogramFacts | backend/app/services/ai_service.py:114-118 | A histogram has distinct keys and positive counts; its counts add up to the number of keys counted; each count is that key's number of occurrences |
| AiService.ScanWindow | backend/app/services/ai_service.py:124-136 | The scan loop returns the slots of the first preferred instants; it stops with two slots or after the whole window |
| AiService.SuggestTimeSlots | backend/app/services/ai_service.py:86-149 | Without completed tasks: the two default slots at now+2h and now+24h, an hour long, confidence 1/2. Otherwise: the first two on-the-hour instants of the window at a preferred hour, an hour long, with the capped share as confidence |
| AiService.SlotsInWindow | backend/app/services/ai_service.py:124-136 | The first two preferred instants of the window meet every condition on scanned slots |
| AiService.ScannedSlotsUnique | backend/app/services/ai_service.py:128-136 | The conditions on the scanned slots determine the slots completely |
| AiService.GetSuggestions | backend/app/services/ai_service.py:21-52 | The priority and its reason are the decision table's; without completed tasks the slots are the defaults at now + 2 h and now + 24 h with the new-user reasoning; otherwise the slots are the scanned ones and the reasoning names the preferred hours |
| Text.Lower | backend/app/services/ai_service.py:61-62 | Lower-casing keeps the length and maps exactly 'A'..'Z' to 'a'..'z' |
| Text.WordsOfPair | backend/app/api/auth.py:107 | Splitting "a b" on whitespace gives back the two words |
| Text.Words | backend/app/api/auth.py:107 | `split()` gives non-empty words without whitespace |
| Auth.StatusCode | backend/app/api/auth.py:27-31 | An already registered e-mail is 400, a malformed `sub` is a server error, every other failure is 401 |
| Auth.FindByEmail | backend/app/api/auth.py:25-26 | Finds a user with the e-mail iff one exists |
| Auth.FindById | backend/app/api/auth.py:133-134 | Finds a user with the id iff one exists |
| Auth.UserTable.Register | backend/app/api/auth.py:21-48 | A known e-mail is rejected with 400 and nothing stored; otherwise one user is appended with the next id and the hashed password; e-mails stay unique |
| Auth.RegisterKeepsWellFormed | backend/app/api/auth.py:25-41 | Registering a new e-mail keeps ids sequential and e-mails unique |
| Auth.LoginFailsAlike | backend/app/api/auth.py:51-61 | A missing user and a wrong password fail with the same error; login succeeds iff the user exists and the password verifies |
| Auth.LoginAfterRegister | backend/app/api/auth.py:34-69 | A user just registered logs in with its password and gets tokens for its id |
| Auth.Login | backend/app/api/auth.py:51-69 | Every failure is "Incorrect email or password"; success iff a user has the e-mail and the password verifies; the access token carries that user's id and the e-mail, the refresh token the id only |
| Auth.Refresh | backend/app/api/auth.py:72-91 | Refresh fails iff the token does not decode to a "refresh" payload. Otherwise the access token carries the payload's `sub` and its email, or "" when it has none, and the refresh token carries the `sub` |
| Auth.RefreshDropsEmail | backend/app/api/auth.py:64-86 | A refreshed access token carries e-mail "", and refreshing again is stable |
| Auth.AccessTokenCannotRefresh | backend/app/api/auth.py:76-80 | An access token is never accepted as a refresh token |
| Auth.Authenticate | backend/app/api/auth.py:94-141 | Each check fails with its own error: missing or empty header, not two words, scheme other than bearer, token that is not an access token, no `sub`, non-integer `sub`, no user with that id. Success returns the stored user whose id is the token's `sub` |
| Auth.LoginTokenAuthenticates | backend/app/api/auth.py:63-141 | A login's access token sent as "Bearer token", with the scheme in any case, authenticates the user who logged in |
| Auth.WrongSchemeRejected | backend/app/api/auth.py:106-112 | A scheme other than "bearer", in any case, is rejected as an invalid scheme |
| Auth.RefreshTokenIsNotAccess | backend/app/api/auth.py:119-124 | A refresh token presented as a bearer token is rejected as invalid |
| Decimal.ParseIntToString | backend/app/api/auth.py:133 | `int(str(i)) == i` |
| Decimal.NatToStringInjective | backend/app/services/task_service.py:31 | Distinct ids render to distinct decimal strings |
| Decimal.ParseInt | backend/app/api/auth.py:133 | On the ASCII sign-and-digits subset of `int(s)`: parsing succeeds iff `s` is digits with an optional sign in front |
| Decimal.IntToString | frontend/src/api/tasks.ts:52-53 | `toString()` of a number is non-empty and starts with '-' iff the number is negative |
| Notifications.FirstMatch | backend/app/api/notifications.py:32-36 | Finds the first row with the caller's user id and endpoint, or reports that there is none |
| Notifications.SubscriptionTable.Subscribe | backend/app/api/notifications.py:22-55 | The table becomes the upsert of the request, and the answer is always "subscribed" |
| Notifications.UpsertExisting | backend/app/api/notifications.py:38-42 | An existing row keeps its id, user, endpoint and creation time and takes the new keys; every other row is unchanged |
| Notifications.UpsertNew | backend/app/api/notifications.py:43-51 | Without a matching row, exactly one row is appended; a key missing from the request is stored as "" |
| Notifications.Upserted | backend/app/api/notifications.py:32-51 | The table grows by at most one row; every row with another user or endpoint is unchanged in place; any added row has this user and endpoint |
| Notifications.UpsertCount | backend/app/api/notifications.py:32-53 | The number of rows with the key goes from 0 to 1 and otherwise stays the same |
| Notifications.UpsertIdempotent | backend/app/api/notifications.py:32-53 | Repeating the same request leaves the table as it is |
| ReminderJob.ScheduledFor | backend/app/jobs/reminder_job.py:28 | The reminder instant if set, else the due instant if set, else now |
| ReminderJob.ReminderBody | backend/app/jobs/reminder_job.py:31 | The body is never empty. It is the default iff the description is missing, empty or the default text itself; any other body is the description |
| ReminderJob.ReminderPayload | backend/app/jobs/reminder_job.py:29-33 | The title is "Reminder: " followed by the task title, the body is as above, and `task_id` is the task's id |
| ReminderJob.TaskTitle | backend/app/jobs/reminder_job.py:30 | A title has the task title back iff it starts with "Reminder: " |
| ReminderJob.ReminderTitleRoundTrip | backend/app/jobs/reminder_job.py:30 | Removing the prefix from the payload title gives back the task's title |
| ReminderJob.ReminderPayloadInjective | backend/app/jobs/reminder_job.py:29-33 | Equal payloads come from tasks with the same id, title and body |
| ReminderJob.NewNotification | backend/app/jobs/reminder_job.py:24-34 | The stored record is for the task's owner and task, on channel web push, scheduled as above, not yet delivered |
| ReminderJob.ReminderEvents | backend/app/jobs/reminder_job.py:35-48 | The record is stored first, then push and e-mail are attempted, then it is marked delivered |
| ReminderJob.NotificationLog.SendReminder | backend/app/jobs/reminder_job.py:13-48 | An unknown task id changes nothing. Otherwise one record is appended with the next id and marked delivered whatever the senders did, and the trace gains the four events in order |
| Analytics.CountsWithinTotal | backend/app/api/analytics.py:26-41 | Completed and overdue are disjoint counts of the caller's tasks, so together they are at most the total |
| Analytics.Select | backend/app/api/analytics.py:26-41 | A filtered query keeps exactly the rows that pass its condition, so it is never longer than the table |
| Analytics.SelectMultiplicity | backend/app/api/analytics.py:26-41 | A row that passes the condition keeps its multiplicity and any other row vanishes; the query keeps every row iff every row passes |
| Analytics.OwnedCount | backend/app/api/analytics.py:26-41 | A count over the caller's tasks is 0 iff none of them qualifies, and equals their total iff all of them do |
| Analytics.CompletedCount | backend/app/api/analytics.py:29-33 | At most the total; 0 iff the caller has no done task; equal to the total iff every task of the caller is done |
| Analytics.OverdueCount | backend/app/api/analytics.py:35-41 | At most the total; 0 iff no task of the caller is open and past due; equal to the total iff all of them are |
| Analytics.CompletionRate | backend/app/api/analytics.py:92 | 0 without tasks; otherwise the rate times the total is 100 times the completed count |
| Analytics.CompletionRateBounds | backend/app/api/analytics.py:92 | The completion rate lies in [0, 100], and is 100 iff every task is done |
| Analytics.GroupByDay | backend/app/api/analytics.py:44-56 | One row per day with tasks created in the last 14 days, days ascending and distinct, each count positive and equal to the tasks created that day, counts summing to all such tasks |
| Analytics.FillTasksPerDay | backend/app/api/analytics.py:58-61 | The loop stores each grouped row's count under its day, and nothing else |
| Analytics.TasksPerDay | backend/app/api/analytics.py:43-61 | `tasks_per_day` has exactly the recent creation days as keys, each with its number of tasks |
| Analytics.Deadlines | backend/app/api/analytics.py:78-86 | One entry per upcoming task, carrying its id, title, due date and priority |
| Analytics.Upcoming | backend/app/api/analytics.py:63-77 | The first min(10, n) of the caller's n open tasks due within the next seven days, each at most as often as the table holds it, ordered by due instant; no such task due earlier than a listed one is left out |
| Analytics.UpcomingComplete | backend/app/api/analytics.py:65-77 | With ten or fewer candidates, every one of them is listed |
| Analytics.GetSummary | backend/app/api/analytics.py:17-95 | The summary's counts, rate, per-day map and deadline list are the ones above, and completed + overdue <= total |
| Sorting.SortStable | backend/app/services/ai_service.py:121 | Sorting keeps equal elements in their original order |
| Sorting.SortSorted | frontend/src/components/TasksChart.tsx:33 | Sorting with a total, transitive order gives an ordered list |
| Sorting.SortPermutes | backend/app/services/ai_service.py:121 | Sorting is a permutation: every element is kept, as often as before |
| VapidKeys.ToBytes | backend/scripts/generate_vapid_keys.py:21-22 | `to_bytes(32, 'big')` succeeds iff the value is below 2^256, and gives 32 bytes |
| VapidKeys.BigEndian | backend/scripts/generate_vapid_keys.py:21-22 | The big-endian rendering has the requested length |
| VapidKeys.GenerateVapidKeys | backend/scripts/generate_vapid_keys.py:19-32 | Fails iff x, y or the private value does not fit in 32 bytes; otherwise the public key is 86 and the private key 43 characters of the URL-safe alphabet, with no '+', '/' or '=' |
| VapidKeys.UrlSafeNoPaddingShape | backend/scripts/generate_vapid_keys.py:26-32 | The unpadded URL-safe encoding uses only the URL-safe alphabet and has the unpadded length |
| VapidKeys.PublicKeyOf | backend/scripts/generate_vapid_keys.py:19-26 | The public key is the unpadded URL-safe encoding of x's and then y's 32-byte big-endian forms |
| VapidKeys.PublicKeyRoundTrip | backend/scripts/generate_vapid_keys.py:19-26 | Re-padding and decoding the public key gives 64 bytes, with no 0x04 prefix, whose halves are x and y |
| VapidKeys.PrivateKeyRoundTrip | backend/scripts/generate_vapid_keys.py:28-32 | Re-padding and decoding the private key gives the 32-byte private value |
| Base64.DecodeEncode | backend/scripts/generate_vapid_keys.py:26 | Decoding an encoding gives the bytes back, in either alphabet |
| Base64.StripEncode | backend/scripts/generate_vapid_keys.py:26 | Removing the '=' padding of an encoding leaves the unpadded encoding |
| Base64.RepadUnpadded | frontend/src/pages/Settings.tsx:26-31 | Putting the '=' padding back on an unpadded encoding gives the padded encoding |
| TasksClient.ListPath | frontend/src/api/tasks.ts:46-57 | The requested path is "/tasks?" followed by the serialized parameters the filters call for, even when there are none |
| TasksClient.ListParamsFacts | frontend/src/api/tasks.ts:47-53 | A parameter is sent iff its filter is truthy, with that filter's text. Names keep the order status, priority, due_from, due_to, page, size, so no name is sent twice |
| TasksClient.ParamsBeforeSound | frontend/src/api/tasks.ts:47-53 | The parameters appended before a given line are the truthy filters up to it, in append order |
| TasksClient.NoFiltersNoParams | frontend/src/api/tasks.ts:48-53 | Without filters no parameter is appended |
| TasksClient.TruthyString | frontend/src/api/tasks.ts:48-51 | A string filter is sent iff it is present and non-empty, with its own text |
| TasksClient.TruthyNumber | frontend/src/api/tasks.ts:52-53 | A number filter is sent iff it is present and non-zero, as its decimal text |
| TasksClient.SearchParams.Append | frontend/src/api/tasks.ts:48-53 | `append` adds the pair at the end and keeps every earlier pair |
| TasksClient.FalsyFiltersSkipped | frontend/src/api/tasks.ts:50-53 | Page or size 0 and an empty date bound are not sent |
| TasksClient.NoFiltersPath | frontend/src/api/tasks.ts:55 | Without filters the path is exactly "/tasks?" |
| TasksClient.ListQueryRoundTrip | frontend/src/api/tasks.ts:47-55 | Parsing the serialized query gives back exactly the appended pairs, in order |
| FormUrlencoded.DecodeEncode | frontend/src/api/tasks.ts:55 | Percent-decoding the form encoding of a string gives its UTF-8 bytes |
| FormUrlencoded.ParseSerialize | frontend/src/api/tasks.ts:55 | Parsing a serialized pair list gives back each pair's bytes, in order |
| FormUrlencoded.Serialize | frontend/src/api/tasks.ts:55 | The serialization is empty iff there are no pairs |
| FormUrlencoded.Parse | frontend/src/api/tasks.ts:55 | At most one pair per character; empty text has no pairs; text without '&' is a single pair |
| FormUrlencoded.EncodeByte | frontend/src/api/tasks.ts:55 | A byte encodes to one character or a three-character escape, never '&' or '=' |
| AuthStore.Step | frontend/src/store/authStore.ts:25-34 | `setTokens` keeps the user and authenticates; `setUser` keeps tokens and flag; `logout` gives the initial state |
| AuthStore.ReplayConsistent | frontend/src/store/authStore.ts:20-34 | In every reachable state, `isAuthenticated` holds iff both tokens are present |
| AuthStore.AuthenticatedIffTokensSinceLogout | frontend/src/store/authStore.ts:26-33 | The store is authenticated iff `setTokens` ran since the last `logout` |
| AuthStore.LogoutIdempotent | frontend/src/store/authStore.ts:28-34 | A second logout changes nothing |
| AuthStore.AuthenticatedWithoutUser | frontend/src/store/authStore.ts:25-27 | Being authenticated does not imply that a user is loaded |
| AuthStore.Store.SetTokens | frontend/src/store/authStore.ts:25-26 | The new state is the `setTokens` step of the old one, and the flag stays in step with the tokens |
| AuthStore.Store.SetUser | frontend/src/store/authStore.ts:27 | The new state is the `setUser` step of the old one |
| AuthStore.Store.Logout | frontend/src/store/authStore.ts:28-34 | The new state is the initial state |
| TaskFilters.ChangeStatus | frontend/src/components/TaskFilters.tsx:19-24 | Choosing a status keeps the priority; "" clears the status; otherwise the status has the chosen wire value |
| TaskFilters.StatusShown | frontend/src/components/TaskFilters.tsx:18 | The status drop-down always shows one of its options |
| TaskFilters.PriorityShown | frontend/src/components/TaskFilters.tsx:36 | The priority drop-down always shows one of its options |
| TaskFilters.ChangePriority | frontend/src/components/TaskFilters.tsx:37-42 | Choosing a priority keeps the status; "" clears the priority; otherwise the priority has the chosen wire value |
| TaskFilters.ShowClear | frontend/src/components/TaskFilters.tsx:51 | The Clear button is shown iff a status or a priority is set |
| TaskFilters.ChooseShownIsIdentity | frontend/src/components/TaskFilters.tsx:18-41 | Choosing the option a drop-down shows changes nothing |
| TaskFilters.ShownAfterChange | frontend/src/components/TaskFilters.tsx:18-41 | After a change, the drop-down shows the chosen option |
| TaskFilters.ChangesCommute | frontend/src/components/TaskFilters.tsx:19-42 | A status change and a priority change commute |
| TaskFilters.ClearHidesButton | frontend/src/components/TaskFilters.tsx:51-54 | After Clear both drop-downs show "All" and the button is hidden |
| TasksChart.Render | frontend/src/components/TasksChart.tsx:22-48 | "No task data" iff the data or the map is missing; "no tasks" iff the map is empty; otherwise dates, labels and counts are aligned, one per key, and `counts[i]` is the map's value at `dates[i]` |
| TasksChart.DefaultOrderIsTotalOrder | frontend/src/components/TasksChart.tsx:33 | The default sort order on strings is total and transitive |
| TasksChart.StrLeAntisymmetric | frontend/src/components/TasksChart.tsx:33 | Two strings each ordered before the other are equal |
| TasksChart.StrLeTotal | frontend/src/components/TasksChart.tsx:33 | Any two strings are ordered one way or the other |
| TasksChart.StrLeTransitive | frontend/src/components/TasksChart.tsx:33 | The string order is transitive |
| TasksChart.ObjectKeys | frontend/src/components/TasksChart.tsx:33 | `Object.keys` lists every key of the object, in its order |
| TasksChart.CountsOf | frontend/src/components/TasksChart.tsx:34 | Each count is the object's value at the date in the same position |
| TasksChart.LabelsOf | frontend/src/components/TasksChart.tsx:48 | Each label is the locale rendering of the date in the same position |
| TasksChart.LineDates | frontend/src/components/TasksChart.tsx:33 | The plotted dates are ascending and are exactly the map's keys |
| TasksChart.LineDatesStrictlyAscend | frontend/src/components/TasksChart.tsx:33 | With distinct keys the dates strictly increase, so no date is plotted twice |
| Settings.ChunksSplitKey | frontend/src/pages/Settings.tsx:17 | The 2-character chunks put back together are the key, and only the last chunk may be shorter: a split, not a decoding |
| Settings.Chunks | frontend/src/pages/Settings.tsx:17 | Every chunk has one or two characters |
| Settings.ChunkNumber | frontend/src/pages/Settings.tsx:16-17 | A chunk is a JSON number only if it ends in a digit |
| Settings.ParseChunkArray | frontend/src/pages/Settings.tsx:16-18 | The array parses iff every chunk is a JSON number, giving one number per chunk |
| Settings.ToUint8 | frontend/src/pages/Settings.tsx:15 | `new Uint8Array` gives one byte per number |
| Settings.KeyText | frontend/src/pages/Settings.tsx:14-20 | The JSON text exists iff a non-empty key is configured |
| Settings.ServerKeyAsWritten | frontend/src/pages/Settings.tsx:14-20 | An unset or empty key gives an undefined server key |
| Settings.AsWrittenRejectsLetterKeys | frontend/src/pages/Settings.tsx:14-20 | A URL-safe key starting with anything other than a digit or '-' makes the page's key parse throw |
| Settings.AsWrittenRejectsGeneratedKey | frontend/src/pages/Settings.tsx:14-20 | The key the script prints for x = 0 is rejected by the page as written |
| Settings.ServerKey | frontend/src/pages/Settings.tsx:14-20 | An unset key gives an undefined server key; a decoded key starts with the 0x04 marker |
| Settings.ServerKeyOfGeneratedKey | frontend/src/pages/Settings.tsx:14-20 | Every key the script prints becomes the 65-byte point 0x04, x, y |
| Settings.KeyField | frontend/src/pages/Settings.tsx:26-31 | An absent key encodes to "" |
| Settings.KeyFieldRoundTrip | frontend/src/pages/Settings.tsx:26-31 | The server can decode each key field back to the browser's key bytes |
| Settings.PayloadOf | frontend/src/pages/Settings.tsx:23-33 | The endpoint is copied verbatim and both keys are standard base64 of their bytes |
| Settings.Message | frontend/src/pages/Settings.tsx:35-43 | Each of the three alerts is shown exactly for its own outcome: success, unsupported browser, failure |
| Settings.AttemptWith | frontend/src/pages/Settings.tsx:8-45 | Unsupported iff no push support; a key that threw or a subscription that did not resolve fails with nothing posted; success iff the key, the subscription and the POST all succeed, and then the payload is the subscription's |
| Settings.Attempt | frontend/src/pages/Settings.tsx:8-45 | The page as written, with the chunked `JSON.parse` key: unsupported iff no push support; success iff the key parsed, the subscription resolved and the POST succeeded; a key that throws fails with nothing posted |
| Settings.AttemptIntended | frontend/src/pages/Settings.tsx:8-45 | The same attempt with the intended key decoding |
| Settings.LetterKeyFails | frontend/src/pages/Settings.tsx:14-40 | On a supporting browser, a URL-safe key starting with a letter or '_' fails before anything is subscribed or posted, and the failure alert is shown |
| Settings.GeneratedKeyNeverSubscribes | frontend/src/pages/Settings.tsx:14-40 | With the key the script prints for x = 0, the page as written never subscribes: it fails on a supporting browser and reports no support otherwise |
| Settings.IntendedUsesGeneratedKey | frontend/src/pages/Settings.tsx:12-37 | With the intended decoding, every printed key reaches the subscription as the 65-byte point, and the attempt succeeds iff the subscription resolves and the POST succeeds |
| Settings.NothingPostedWithoutSubscription | frontend/src/pages/Settings.tsx:9-35 | On the page as written, nothing is sent to the server unless push is supported, the key parsed and the subscription resolved |
| Settings.SettingsPage.HandleSubscribe | frontend/src/pages/Settings.tsx:8-45 | The outcome is the page's attempt with the key as written and the alert matches it; the flag becomes true only on success; a key the page cannot parse leaves the flag unchanged |
| ServiceWorkers.LastMember | frontend/src/service-worker.ts:5-7 | A member is found iff the object has one with that name |
| ServiceWorkers.Property | frontend/src/service-worker.js:4 | Reading a property throws iff the payload is `null`; only an object yields a value |
| ServiceWorkers.OrDefault | frontend/public/service-worker.js:4-6 | A truthy value is used as is; otherwise the default text |
| ServiceWorkers.PayloadOf | frontend/src/service-worker.ts:4 | An absent payload is `{}`; the TypeScript worker also turns a falsy payload into `{}`; otherwise the payload is kept |
| ServiceWorkers.OnPush | frontend/src/service-worker.ts:3-14 | Throws iff the payload is `null`; otherwise the title and body are the payload's, or the worker's defaults where they are missing or falsy, the icon and badge are the worker's, and the payload is attached iff the worker attaches data |
| ServiceWorkers.OnClick | frontend/public/service-worker.js:13-17 | A click closes the notification, then opens the worker's task page exactly once |
| ServiceWorkers.NoDataShowsDefaults | frontend/public/service-worker.js:3-6 | A push without data shows the worker's default title and body |
| ServiceWorkers.PayloadTextShown | frontend/src/service-worker.js:4-6 | A non-empty title and body in the payload are shown verbatim |
| ServiceWorkers.EmptyTextFallsBack | frontend/src/service-worker.ts:5-7 | An empty title and body fall back to the defaults |
| ServiceWorkers.TsWorkerNeverThrows | frontend/src/service-worker.ts:4-13 | The TypeScript worker shows a notification for every payload |
| ServiceWorkers.JsWorkersThrowOnNull | frontend/src/service-worker.js:3-4 | Both JavaScript workers throw on a `null` payload; the TypeScript worker treats it as no payload |
| ServiceWorkers.OtherMembersIgnored | frontend/public/service-worker.js:3-9 | Payload members other than title and body do not change the notification text |

The three workers differ only in constants:

- `PublicWorker` is frontend/public/service-worker.js:4-16;
- `TsWorker` is frontend/src/service-worker.ts:5-19;
- `JsWorker` is frontend/src/service-worker.js:4-17.

## Left out

- TaskService.TaskStore.CreateTaskWithReminder: compares the stored reminder with `now` as instants. Python compares a naive value read back from the database with an aware `now`, which raises; that behaviour is modelled separately under Findings.
- TaskService.TaskStore.UpdateTaskWithReminder: the same instant comparison, with the as-written behaviour under Findings.
- TasksApi.CreateTask: follows the intended comparison in the service it calls. Time-zone awareness of the request's two dates is not modelled; a request mixing a naive and an aware date makes Python raise on the endpoint's own check.
- TasksApi.UpdateTask: follows the intended merged check and the intended service comparison; the as-written merged check is under Findings.
- TaskService.TaskStore.CreateTaskWithReminder: ids come from a counter that never goes back. SQLite without AUTOINCREMENT gives a new row the largest id in use plus one, so deleting the newest task lets its id be reused.
- TasksApi.CreateTask: the same counter, so ids of deleted tasks are never reused here, unlike in SQLite.
- Databases, sessions and the scheduler are in-memory maps and sequences, and commits are atomic assignments.
- Concurrency, transactions, async/await and the scheduler's run-time firing are not modelled.
- Clocks are parameters: `now` in the services, and `now` and `later` in the reminder job.
- JWT encoding and decoding, password hashing and verification are function parameters. The security module is not part of this model.
- `notification_service.py` and `email.py` are not part of this model.
  - The reminder job's two send calls are recorded as trace events only.
  - As written, the e-mail sender is a coroutine called without `await`, so no e-mail would be sent.
- Floating point is modelled as exact values: `completion_rate` as a real, the high-priority share and the slot confidence as exact ratios. ISO-8601 formatting of instants is not modelled.
- AiService.SuggestPriority: Python's `model_dump()` conversion of the context is not modelled. The context is a map of optional strings, and an empty map counts as no context, as in Python.
- Analytics.TasksPerDay: the day keys are day numbers (`t / 86400`), not ISO date strings. A map has no order, so the grouped rows' ascending order is stated on the rows, before they enter the map.
- Analytics.Upcoming: the order among tasks with the same due instant is the stable order of the table. SQL leaves it unspecified.
- TasksApi.ListTasks: the same holds for equal creation instants. The order of the table stands in for the database's unspecified order.
- Decimal.ParseInt: only the ASCII sign-and-digits subset of Python's `int(s)` is modelled. Inputs that Python also accepts (surrounding spaces, underscores between digits, non-ASCII digits) are rejected here.
- Auth.Authenticate: `int(sub)` is modelled for an optional sign followed by digits. Python's extra leniency (surrounding spaces, underscores, non-ASCII digits) is not modelled.
- Decimal.IntToString: JavaScript writes numbers from 1e21 on in exponent notation; the model always writes plain digits. Page numbers and sizes never come near that.
- Text.Lower: ASCII lower-casing only. The strings compared against it ("bearer" and the urgency keywords) are decided the same way as with full Unicode lower-casing.
- E-mail normalisation by the request schema is not modelled; e-mails are compared as given.
- The EC key generation itself is not modelled. x, y and the private value are natural-number inputs.
- The key script's printing and its `__main__` block are not modelled.
- No backend route serves the public key that the client's notifications API asks for, so there is nothing to model there.
- TasksChart.StrLe: `sort()` compares UTF-16 code units; the model compares code points. They differ only between characters above U+FFFF and characters in U+E000–U+FFFF.
- `toLocaleDateString` is a parameter of the chart.
- Settings.Chunks: a regular-expression `.` matches UTF-16 code units; the model matches characters.
- Settings.ServerKeyAsWritten: `JSON.parse` is modelled only for chunks of URL-safe base64 text, the format of the generated keys, so its `requires` restricts the configured key to that alphabet.
- Settings.Attempt: stated only for configured keys of URL-safe base64 text (its requires), because the chunked `JSON.parse` is modelled only for those.
- Settings.SettingsPage.HandleSubscribe: the same restriction on the configured key, for the same reason.
- Settings.NothingPostedWithoutSubscription: the same restriction on the configured key, for the same reason.
- The settings page's `navigator.serviceWorker.ready` never resolving is not modelled, nor is the console error log.
- The subscribe attempt's outcome is decided by `Platform` parameters.
- The service worker's registration helper (the readiness race and timeout) is not part of this model.
- ServiceWorkers.OnPush: `event.data.json()` is taken as already parsed. A payload that is not valid JSON, which makes the handler throw, is not modelled. The DOMString conversion of a non-string title or body by `showNotification` is not modelled either: the value is handed over as is.
- The non-`list` methods of the task client only forward requests to HTTP and are not modelled.
- The auth store's persistence to local storage is not modelled.
- The UI components' rendering is not modelled.
- The backend has no unsubscribe or subscription-status endpoint and the client none of the matching calls, so the model has none.

## Findings

| source | as written | input that shows it | evidently intended | confidence | as-written member | corrected member |
|---|---|---|---|---|---|---|
| frontend/src/pages/Settings.tsx:14-20 | The configured key is cut into 2-character chunks and parsed as a JSON array of numbers. Any URL-safe base64 key starting with a letter or '_' makes `JSON.parse` throw, so subscribing always fails with "Failed to subscribe to push notifications". | The public key the key script prints for x = 0 (it starts with 'A') | Decode the key from URL-safe base64, re-padded, and put the 0x04 marker of an uncompressed P-256 point in front (section 3.2 of RFC 8292), since the script leaves the marker out | not executed | Settings.AsWrittenRejectsGeneratedKey | Settings.ServerKeyOfGeneratedKey |
| backend/app/services/task_service.py:29-30 | The reminder is compared with an aware `datetime.now(timezone.utc)` after the row is committed and reloaded, and the reloaded value is naive. Any set reminder makes the comparison raise TypeError, so the endpoint answers 500 with the row stored and no job. On update, the old job has already been removed. | A create request with a reminder one hour from now | Compare the reminder with now as instants and schedule the job iff it is in the future | not executed | TaskService.NewTaskWithReminderRaisesAsWritten | TaskService.TaskStore.CreateTaskWithReminder |
| backend/app/api/tasks.py:104-112 | One merged date may come from the request, which carries a time zone, and the other from the stored row, which does not. The comparison then raises TypeError before anything changes, and the endpoint answers 500. | Moving only the due date, given with a time zone, of a task that has a reminder | Check the merged reminder against the merged due date as instants | not executed | TasksApi.MovingDueDateRaisesAsWritten | TasksApi.MergedCheckIsCheckOfResult |
