# KPI Dashboard frontend, modelled in Dafny

The KPI Dashboard is a browser application over a Google Apps Script
backend. Supervisors see task statistics and KPIs, administrators manage
employees and tasks, and employees update the progress of their own tasks.
This project models the deterministic core of its frontend scripts and
proves properties of that model:

- **the API layer** (`Api`, frontend/api.js):
  - the retry loop of `callGoogleAppsScript`, run against a sequence of
    per-attempt transport outcomes;
  - the GET parameters;
  - the facade payloads;
  - the error-message choice of `handleAPIError`;
  - `batchAPICall`;
  - the TTL cache, `cachedAPICall` and `clearCache`.
- **the supervisor dashboard** (`Dashboard`, frontend/dashboard.js):
  - the KPI arithmetic, done in exact integers;
  - the employee filter;
  - CSV quoting;
  - how `loadRealData` accepts the two answer shapes.
- **the admin panel** (`Admin`, frontend/admin.js):
  - the e-mail pattern;
  - the ordered form validation and the duplicate check;
  - editing state for tasks;
  - the delete warning.
- **the employee screen** (`EmployeeTasks`, frontend/employee.js):
  - the in-place sort of an employee's tasks, over an `array`;
  - due-date labels and indicators;
  - the status filter and statistics;
  - the rule for recording progress;
  - the modal that saves a task's progress.
- **sign-in** (`Auth`, frontend/auth.js):
  - the permission tables;
  - role tests;
  - navigation by role;
  - token expiry;
  - how the role is loaded.
- **the controller** (`App`, frontend/app.js):
  - the bounded notification history;
  - screen switching;
  - role gating of the buttons and cards;
  - the loading flag.
- **configuration** (`Config`, frontend/config.js): the per-environment
  merge.

Three helpers are written identically in several scripts: `formatStatus`
in frontend/admin.js, frontend/dashboard.js and frontend/employee.js;
`truncateText` in frontend/admin.js and frontend/dashboard.js; and
`isTaskOverdue` in frontend/dashboard.js and frontend/employee.js. Each is
modelled once, in `Tasks`, with the records of tasks and employees. JavaScript strings, object
spread, `includes`, `trim` and `Math.round`/`Math.ceil` of ratios are
modelled in `Common`.

Conventions:

- Dates are integer millisecond timestamps; a missing date is `None`.
- "Now" is always a parameter.
- A JavaScript object is an ordered list of (key, value) pairs, so property
  order and spread semantics are explicit.
- What the network, the DOM or the user supplies (an answer, whether an
  element exists, a confirmation) is a parameter.

## Model

| member | source | states |
|---|---|---|
| Config.EnvironmentOverrides | frontend/config.js:80-81 | the chosen overrides never repeat a key (unknown or missing names fall back to development) |
| Config.GetConfig | frontend/config.js:80-83 | every property the environment sets takes the environment's value, every other one keeps `APP_CONFIG`'s |
| Config.UnknownEnvironmentIsDevelopment | frontend/config.js:80-81 | an unknown environment name and a missing one both configure like `development` |
| Config.ProductionSettings | frontend/config.js:71-75 | production turns DEBUG off and logs errors only; all other properties but the CORS origin keep their application-wide values |
| Tasks.FormatStatus | frontend/dashboard.js:660-667 | the three status keys map to their display names; any other value is returned unchanged |
| Tasks.FormatStatusIdempotent | frontend/admin.js:619-626 | formatting a formatted status changes nothing |
| Tasks.TruncateText | frontend/dashboard.js:643-646 | a text that fits is returned as is; a longer one becomes its first `maxLength` characters plus "..." |
| Tasks.TruncateTextPrefix | frontend/admin.js:608-611 | a truncated text is at most 3 longer than the limit and shows a prefix of the original followed by the ellipsis |
| Tasks.CountStatusUnion | frontend/dashboard.js:235-238 | counts over disjoint status sets add up to the count over their union |
| Tasks.CompletedAndOverdueDisjoint | frontend/dashboard.js:236-239 | completed and overdue tasks together never outnumber all tasks |
| Tasks.CountStatusAll | frontend/dashboard.js:235 | when every status is in the set, every task is counted |
| Tasks.NoOverdueWhenAllCompleted | frontend/dashboard.js:669-672 | a list of completed tasks has no overdue task |
| Tasks.TasksOf | frontend/admin.js:567 | keeps exactly the tasks with the employee id, and no more than there were |
| Tasks.TasksOfConcat | frontend/dashboard.js:523-529 | filtering by employee preserves list order |
| Api.MutationsArePosted | frontend/api.js:47-50 | an action starting with add, update or delete never goes by GET |
| Api.FlattenData | frontend/api.js:62-68 | no more parameters than data properties |
| Api.FlattenDataConcat | frontend/api.js:63-67 | the parameters follow property order |
| Api.FlattenDataMembers | frontend/api.js:63-67 | `key=value` is sent iff the data has that property with a value that is neither null nor undefined and converts to that text |
| Api.UserParams | frontend/api.js:71-76 | at most `userEmail` and `userToken`, and the token only with a non-empty e-mail |
| Api.GetParams | frontend/api.js:58-76 | the action comes first, then at most the data and the two user parameters |
| Api.ShortCircuitCases | frontend/api.js:144 | a GET answer ends the attempt unless it is null or has `success === false` |
| Api.TryAttempt | frontend/api.js:141-185 | one attempt equals its specification: GET first for simple actions, then POST, with the POST's outcome classified |
| Api.CallGoogleAppsScript | frontend/api.js:125-228 | the loop's result, attempt count, requests and waits equal the specification `Call` |
| Api.Backoff | frontend/api.js:213-216 | one wait per retried attempt |
| Api.BackoffAt | frontend/api.js:215 | the wait after attempt k is RETRY_DELAY·(k+1) |
| Api.ReachesAttempt | frontend/api.js:129-218 | if the first k attempts all fail with a retryable error, the run continues from attempt k with k waits |
| Api.DecidedAt | frontend/api.js:146-209 | the first attempt that does not retry decides the run: success returns, an abort breaks to the final message, auth and stream errors are rethrown as they are |
| Api.Exhausted | frontend/api.js:129-227 | when every attempt retries, all MAX_RETRIES attempts are made, with no wait after the last, and the final message is built from the last error |
| Api.LoopBounds | frontend/api.js:129-218 | from any attempt the loop makes no more than MAX_RETRIES attempts, always fewer waits than attempts, and the waits follow the backoff |
| Api.CallBounds | frontend/api.js:129-216 | at most MAX_RETRIES attempts, at least one, and the k-th wait is RETRY_DELAY·(k+1) |
| Api.GetShortCircuit | frontend/api.js:142-148 | a GET answer that short-circuits is returned in that attempt with no POST |
| Api.GetRejectedFallsThrough | frontend/api.js:144-185 | a GET answer with `success === false` falls through to a POST in the same attempt |
| Api.GetThrowSkipsPost | frontend/api.js:143-218 | a GET that throws ends the attempt without a POST |
| Api.NonJsonStopsAfterOneAttempt | frontend/api.js:171-227 | a non-JSON POST answer stops after one attempt, and the message still says "failed after MAX_RETRIES attempts" |
| Api.LacksFirstChar | frontend/api.js:193 | a text without a marker's first character does not contain that marker |
| Api.ParseErrorIsBackendMessage | frontend/api.js:192-224 | an "Unexpected token" error aborts the loop and ends with the backend-not-accessible message |
| Api.FinalMessageCases | frontend/api.js:222-225 | the final message is the backend message iff the last error contains "Unexpected token" |
| Api.UnauthorizedIsRethrown | frontend/api.js:165-205 | an HTTP 401 error ("...auth...") without an HTML marker is rethrown unchanged |
| Api.FacadeActions | frontend/api.js:233-412 | every facade names a catalog action; exactly the list reads, the lookup by e-mail, the KPI metrics and authentication go by GET first |
| Api.WithIdFields | frontend/api.js:251-257 | `{ id, ...data }` carries the id unless the data sets that key itself, and every data property unchanged |
| Api.TaskUpdateExample | frontend/api.js:308-314 | a task update sends `taskId` followed by the data |
| Api.HandleApiError | frontend/api.js:417-444 | the first matching case decides: an empty message gives the generic text, then "timeout"/"network", "auth", "permission" and "not found" each give their fixed message; any other message is shown as it is; sign-out is scheduled iff the auth case is taken |
| Api.BatchApiCall | frontend/api.js:464-479 | the loop collects exactly the successes and the failures, in order |
| Api.BatchPartition | frontend/api.js:468-476 | every call lands in exactly one of the two lists, and there are no errors iff every call returned |
| Api.ApiCache.constructor | frontend/api.js:484-486 | the cache starts empty with a five-minute TTL |
| Api.ApiCache.Set | frontend/api.js:488-493 | the entry is overwritten with the data and the current time |
| Api.ApiCache.Get | frontend/api.js:495-502 | a fresh entry (strictly younger than the TTL) is returned; otherwise the key is removed and nothing is returned |
| Api.ApiCache.Clear | frontend/api.js:504-506 | the cache becomes empty |
| Api.ApiCache.Delete | frontend/api.js:508-510 | only the key is removed |
| Api.ApiCache.ClearCache | frontend/api.js:533-543 | a non-empty pattern removes exactly the keys containing it and keeps every other entry; no pattern or an empty one clears the cache |
| Api.ApiCache.CachedApiCall | frontend/api.js:516-528 | a fresh truthy entry is returned without a call; otherwise the call's answer is returned and stored |
| Api.CacheWindow | frontend/api.js:497 | a value stored at t is read back until t + TTL, exclusive |
| Api.ClearByTasksExample | frontend/api.js:536 | clearing by "tasks" drops exactly the keys containing "tasks" |
| Dashboard.SumProgressBounds | frontend/dashboard.js:268 | with progress values in 0..100, the sum lies between 0 and 100·n |
| Dashboard.CalculateAverageProgress | frontend/dashboard.js:265-269 | 0 for no tasks |
| Dashboard.AverageProgressIsPercentage | frontend/dashboard.js:265-269 | the rounded average of percentages is a percentage |
| Dashboard.OnTimeAtMostCompleted | frontend/dashboard.js:277-282 | no more tasks are on time than are completed |
| Dashboard.AllOnTime | frontend/dashboard.js:278-281 | when every task is on time (a missing date counts as on time), every completed task is counted |
| Dashboard.CalculateOnTimeDelivery | frontend/dashboard.js:274-284 | in 0..100, and 0 when nothing is completed |
| Dashboard.OnTimeDeliveryFull | frontend/dashboard.js:274-284 | with completed tasks all on time the rate is 100 |
| Dashboard.CalculateProductivity | frontend/dashboard.js:289-299 | clamped to 0..100, and 0 for no tasks |
| Dashboard.CompletionRate | frontend/dashboard.js:248 | round(100·completed/total) lies in 0..100, is 0 for no tasks and 100 when all are done |
| Dashboard.CalculateKpiData | frontend/dashboard.js:234-260 | the three status counts fit in the total, completed and overdue fit too, the rates are percentages, the employee counts equal the list length |
| Dashboard.AllCompletedIsFullyProductive | frontend/dashboard.js:248-298 | when every task is completed, the completion rate and the productivity are both 100 |
| Dashboard.ProductivityAtLeastCompletionRate | frontend/dashboard.js:248-298 | with nothing overdue, productivity is at least the completion rate |
| Dashboard.GetFilteredTasks | frontend/dashboard.js:523-529 | no filter returns the list itself; a filter keeps exactly that employee's tasks |
| Dashboard.EscapeQuotes | frontend/dashboard.js:721 | escaping never shortens a text |
| Dashboard.UnescapeEscape | frontend/dashboard.js:721 | doubling the quotes is undone exactly |
| Dashboard.QuoteCell | frontend/dashboard.js:721 | a cell starts and ends with a quote |
| Dashboard.QuoteCellRoundTrip | frontend/dashboard.js:721 | every cell reads back as the text it was made from |
| Dashboard.CsvLines | frontend/dashboard.js:718-723 | a header line from the first row's keys, then one line per row in header order |
| Dashboard.DownloadCsv | frontend/dashboard.js:712-724 | no data gives "No data to export" and no file; otherwise a file is produced |
| Dashboard.ReadEscaped | frontend/dashboard.js:721 | an escaped cell body and its closing quote read back as the value, whatever follows unless it starts with a quote |
| Dashboard.ReadJoinedCells | frontend/dashboard.js:719-722 | a line of quoted cells joined by commas reads back as the values, leaving the following text |
| Dashboard.ReadJoinedRecords | frontend/dashboard.js:718-723 | lines of quoted cells joined by newlines read back as the whole table |
| Dashboard.CsvFileReadsBack | frontend/dashboard.js:712-724 | the file is the header line, a newline, then rows that a CSV reader turns back into each row's values in header order ("undefined" where a row lacks the header) |
| Dashboard.AcceptList | frontend/dashboard.js:165-180 | a list is accepted only from a bare array or a successful wrapped array |
| Dashboard.ReadList | frontend/dashboard.js:165-212 | the shape test yields a list exactly when the response is accepted, and that list |
| Dashboard.BothShapesAccepted | frontend/dashboard.js:165-180 | `{success:true, data:[...]}` and a bare array give the same list; a rejected call or `success:false` gives none |
| Dashboard.LoadFailsOnlyWithoutData | frontend/dashboard.js:204-228 | loading fails exactly when neither tasks nor employees arrived; an empty list counts as data |
| Dashboard.SupervisorDashboard.constructor | frontend/dashboard.js:7-15 | no tasks, no employees, no KPIs, no filter |
| Dashboard.SupervisorDashboard.LoadRealData | frontend/dashboard.js:130-229 | the fields take the accepted lists (or empty ones), the KPIs are computed from them, and the load throws iff nothing arrived |
| Admin.IndexOf | frontend/admin.js:604 | the first position of a character, or -1 when absent |
| Admin.IsValidEmailMatchesPattern | frontend/admin.js:603-606 | the structural check holds iff the text matches `^[^\s@]+@[^\s@]+\.[^\s@]+$` |
| Admin.ValidEmailMatches | frontend/admin.js:604 | a valid address splits as the pattern demands |
| Admin.MatchedEmailIsValid | frontend/admin.js:604 | a text matching the pattern passes the check |
| Admin.EmailExamples | frontend/admin.js:603-606 | "a@b.c" is valid; missing dot, empty local part, second "@" and a space are not |
| Admin.HandleAddTask | frontend/admin.js:70-98 | rejected iff the description is blank, the due date or the employee is missing; otherwise the new task is sent |
| Admin.AddTaskRejectionOrder | frontend/admin.js:85-98 | the first failing check decides the message |
| Admin.NewTaskNotStarted | frontend/admin.js:74-82 | a new task is sent not started, at 0%, with the entered description and employee |
| Admin.HandleAddEmployee | frontend/admin.js:136-163 | rejected iff the name or e-mail is blank, the e-mail is invalid, or a loaded employee has it in any letter case; otherwise exactly the form is sent |
| Admin.UpdateEmployee | frontend/admin.js:515-537 | rejected iff the name is blank or the e-mail invalid |
| Admin.UpdateEmployeeRequest | frontend/admin.js:516-537 | an accepted edit sends the employee id, name and e-mail |
| Admin.ValidEmailNotBlank | frontend/admin.js:149-157 | a valid e-mail is never blank, so its blank check is subsumed |
| Admin.UpdateAllowsDuplicateEmail | frontend/admin.js:523-532 | an e-mail already in use is refused when adding and sent when editing |
| Admin.FindById | frontend/admin.js:326 | the first item whose id is the one sought, or none iff no item has it; `editTask` looks up tasks with it and `deleteEmployee` employees (frontend/admin.js:560) |
| Admin.FormatRole | frontend/admin.js:628-635 | the three role keys map to their display names; any other value is returned unchanged |
| Admin.FormatRoleIdempotent | frontend/admin.js:628-635 | formatting a formatted role changes nothing |
| Admin.DeleteEmployeePrompt | frontend/admin.js:559-572 | unknown employee iff no id matches; the warning count is 0 iff the employee has no task |
| Admin.DeleteCountTracksTasks | frontend/admin.js:567-571 | adding a task of that employee raises the count by one, any other task leaves it |
| Admin.AdminPanel.constructor | frontend/admin.js:7-13 | no tasks, no employees, nothing being edited |
| Admin.AdminPanel.EditTask | frontend/admin.js:325-332 | an unknown id reports "Task not found" and keeps the edit; a known id starts editing that task |
| Admin.AdminPanel.CancelEdit | frontend/admin.js:376-377 | nothing is being edited |
| Admin.AdminPanel.UpdateTask | frontend/admin.js:400-430 | nothing is sent without an edit; otherwise the form is sent for that task, and only a successful answer ends the edit |
| EmployeeTasks.Comparator | frontend/employee.js:113-117 | the comparator has no value only between two tasks of the same group when one lacks a due date |
| EmployeeTasks.ComesBeforeAgreesWithComparator | frontend/employee.js:113-117 | where the comparator is a number, the listing order is "the comparator is not positive" |
| EmployeeTasks.ComesBeforeTotal | frontend/employee.js:113-117 | any two tasks can be ordered |
| EmployeeTasks.ComesBeforeTransitive | frontend/employee.js:113-117 | the order is transitive |
| EmployeeTasks.ListedGroups | frontend/employee.js:113-117 | in a listed sequence every incomplete task precedes every completed one, and due dates ascend within each group |
| EmployeeTasks.EmployeeTaskManager.SortTasks | frontend/employee.js:113-117 | the array is sorted in place into listing order and holds the same tasks |
| EmployeeTasks.EmployeeTaskManager.UpdateTasksList | frontend/employee.js:97-117 | without the container nothing moves; otherwise the tasks are listed in order, always keeping the same tasks |
| EmployeeTasks.EmployeeTaskManager.LoadEmployeeTasks | frontend/employee.js:61-77 | a successful answer replaces the list with its tasks (none when data is missing), sorted when the list container exists and in the order received otherwise; any other answer shows the load error and keeps the list |
| EmployeeTasks.DaysUntilBounds | frontend/employee.js:299-300 | the rounded-up day count n has more than n−1 days and at most n days left |
| EmployeeTasks.IsTaskDueSoon | frontend/employee.js:336-342 | due soon iff dated, incomplete, and due no more than 3 days ahead and less than a day late |
| EmployeeTasks.DueDateLabel | frontend/employee.js:295-323 | exactly one label: no date; completed; overdue iff late by a whole day or more; today iff less than a day late up to due now; soon iff due within 3 days; normal beyond; the day count is the rounded-up day difference |
| EmployeeTasks.DueLabelExamples | frontend/employee.js:299-320 | due this moment is "Due today"; ten days late is 10 days overdue; a day and a half ahead is 2 days left |
| EmployeeTasks.DueSoonIsTodayOrSoon | frontend/employee.js:306-342 | due soon iff the label is "today" or "soon" |
| EmployeeTasks.OverdueLabelMeansOverdue | frontend/employee.js:309-331 | a task labelled overdue is overdue |
| EmployeeTasks.LateByLessThanADay | frontend/employee.js:300-331 | a task late by under a day is overdue yet labelled "Due today" and due soon |
| EmployeeTasks.IndicatorOf | frontend/employee.js:134-140 | completed first, then overdue, then due soon; one indicator at most |
| EmployeeTasks.DueSoonIndicatorNotLate | frontend/employee.js:134-140 | a due-soon card is not yet due and due within three days |
| EmployeeTasks.UndatedHasNoIndicator | frontend/employee.js:134-140 | an incomplete undated task gets no indicator |
| EmployeeTasks.FilterTasks | frontend/employee.js:347-348 | no status shows all tasks; a status keeps exactly the tasks with it |
| EmployeeTasks.WithStatus | frontend/employee.js:348 | keeps exactly the tasks with the status |
| EmployeeTasks.WithStatusConcat | frontend/employee.js:348 | the filter keeps list order: filtering a concatenation concatenates the filtered parts |
| EmployeeTasks.FilterCountsStatus | frontend/employee.js:83-91 | the filter shows as many tasks as the statistics count for that status |
| EmployeeTasks.TaskStatistics | frontend/employee.js:83-91 | assigned is the list length; in progress (`in_progress` only) and completed fit in it and equal the filtered counts |
| EmployeeTasks.SmallChangeRecordsNothing | frontend/employee.js:232-235 | a change under 5 points, with no notes and the same status, records no entry |
| EmployeeTasks.StatusChangeOrNoteRecords | frontend/employee.js:232-235 | a status change or a note always records an entry |
| EmployeeTasks.EmployeeTaskManager.constructor | frontend/employee.js:7-13 | no tasks, nothing open |
| EmployeeTasks.EmployeeTaskManager.OpenTaskModal | frontend/employee.js:177-201 | after a history read that did not fail, that task is open; otherwise an error is shown and the previous task stays |
| EmployeeTasks.EmployeeTaskManager.CloseTaskModal | frontend/employee.js:287-290 | nothing is open |
| EmployeeTasks.ProgressEntry | frontend/employee.js:232-258 | an entry is made iff one is due, as `addProgress` for that task with the new status |
| EmployeeTasks.EmployeeTaskManager.SaveTaskDetails | frontend/employee.js:208-282 | with no task: "No task selected" and no call; completing below 100% needs confirmation; a failed update, or a due progress entry whose call throws or answers null, reports the failure and keeps the modal and the list; otherwise the modal closes and the list is reloaded as `loadEmployeeTasks` does (sorted with the container, as received without it) |
| Auth.GetUserPermissions | frontend/auth.js:372-384 | `read_own_tasks` without a user or role; the fixed list of admin, supervisor and employee; the employee list for other roles |
| Auth.HasPermissionIff | frontend/auth.js:389-392 | a permission is held iff it is listed or the user is an administrator |
| Auth.EmployeeCannotManageUsers | frontend/auth.js:372-392 | an employee or unknown role cannot manage users or read everything |
| Auth.HasAnyRoleIsSomeRole | frontend/auth.js:426-443 | having any of several roles is having one of them |
| Auth.NoRoleBeforeLoad | frontend/auth.js:426-443 | without a user or role no role test succeeds and only `read_own_tasks` is granted |
| Auth.NavFor | frontend/auth.js:280-308 | the employee entry always shows; the supervisor entry for admin and supervisor; the admin entry for admin only |
| Auth.NavNested | frontend/auth.js:280-308 | each visible entry implies the less privileged ones |
| Auth.ReportedRole | frontend/auth.js:247 | a role is reported iff the answer succeeded and its data holds a non-empty role, and then it is that role |
| Auth.ReportedSupervisorIsUsed | frontend/auth.js:246-253 | a configured backend answering `{success: true, data: {role: "supervisor"}}` makes the user a supervisor |
| Auth.ResolvedRole | frontend/auth.js:231-275 | admin when unconfigured or when the call throws; the reported role; otherwise employee; never empty |
| Auth.UnreachableBackendGrantsAll | frontend/auth.js:264-274 | a failed role lookup grants every permission |
| Auth.NoReportedRoleIsEmployee | frontend/auth.js:256-260 | an answer without a role makes the user an employee with the employee's permissions |
| Auth.Session.constructor | frontend/auth.js:11-13 | nobody is signed in |
| Auth.Session.HandleCredentialResponse | frontend/auth.js:80-115 | a decodable credential signs its user in with no role yet; any other credential reports the generic error and changes nothing |
| Auth.Session.SignOut | frontend/auth.js:199-226 | no user, not signed in, and `isUserSignedIn()` is false |
| Auth.Session.GetAuthToken | frontend/auth.js:346-367 | the token iff it decodes and `exp` lies strictly after now; an expired token signs out; no user, no token or an undecodable token change nothing |
| Auth.Session.UpdateNavigationForRole | frontend/auth.js:280-308 | the navigation becomes the role's |
| Auth.Session.LoadUserRole | frontend/auth.js:231-275 | without a user nothing happens; otherwise the user takes the resolved role, the navigation follows, and the backend is asked iff it is configured |
| App.Record | frontend/app.js:297-306 | at most 10 entries, the new one last, and the rest are the most recent earlier ones in order |
| App.LastEntries | frontend/app.js:305 | the last 10 entries, or all when there are fewer |
| App.RecordAllKeepsLast | frontend/app.js:297-306 | after any series of notifications the history is the 10 most recent, oldest first |
| App.ClickResult | frontend/app.js:43-67 | the team buttons navigate iff the user is a supervisor or administrator; the employee button always does |
| App.ButtonsMatchNavigation | frontend/app.js:43-67 | a team button works iff the role's navigation shows the supervisor entry |
| App.AppState.constructor | frontend/app.js:6-11 | login screen, not loading, no notifications |
| App.AppState.ShowNotification | frontend/app.js:274-307 | without the container nothing changes; otherwise the entry is recorded and the history stays within 10 |
| App.AppState.ShowError | frontend/app.js:250-253 | an error notification is recorded |
| App.AppState.UpdateNavigationAccess | frontend/app.js:205-220 | with a user, both cards show iff the role is supervisor or admin; without one nothing changes |
| App.ScreenLoading | frontend/app.js:157-185 | the admin panel sets loading; the dashboard sets it iff there is a user; the employee screen without a user clears it; other screens leave it |
| App.ScreenError | frontend/app.js:157-185 | an initialiser reports an error before its first `await` iff there is no user and the screen is the supervisor dashboard or the employee screen |
| App.AppState.CheckTokenExpiry | frontend/api.js:106-107 | an expired token signs the user out and shows the login screen ("Requested page not found" when the page has none); otherwise nothing changes |
| App.AppState.ShowScreen | frontend/app.js:128-185 | an existing screen becomes current, with its initialiser's loading flag, error and cards; a team screen shown with an expired token signs the user out and ends on the login screen; any other id keeps the screen and the flag and shows "Requested page not found" |
| App.AppState.Click | frontend/app.js:43-67 | an allowed click on a screen the page has navigates there, or to the login screen when the token has expired, with that screen's loading flag and errors; a screen the page lacks keeps the screen, flag and session and shows "Requested page not found"; the screen changes to no other; a denied click keeps it and the session and shows the error; the team cards never change |
| App.AppState.ShowLoading | frontend/app.js:225-226 | the loading flag becomes the argument |

## Left out

- Network, DOM, timers and storage: `fetch`, response decoding, `setTimeout`
  backoff, auto-refresh, `localStorage`, Google Identity Services and JWT
  decoding. Their results are parameters: per-attempt outcomes, whether an
  element exists, a decoded credential. Only the computed waits are kept.
- `checkTokenExpiry` inside Api.CallGoogleAppsScript: the loop's decisions do
  not depend on it. Its effect (an expired token signs the user out and
  shows the login screen) is modelled by App.AppState.CheckTokenExpiry for
  the first call a screen's initialiser starts. The checks made by later
  attempts, and by calls that run after an `await`, are not modelled.
- `testBackendConnection`, `safeAPICall`, `loadDashboardData`,
  `loadAdminData` and the mock data getters: they are I/O, logging or
  fallback data.
- `checkExistingSession` (its input comes from `localStorage` and the Google
  library) and `handleAuthError`'s other messages. A failed decode is
  modelled with the default message only.
- `updateAuthUI` as a whole. It reads `currentUser` and `isSignedIn`. After a
  sign-in it switches to `dashboardNav` and starts `loadUserRole`; with an
  unconfigured script URL that sets the role "admin" and the admin
  navigation before returning (frontend/auth.js:104, 177, 237-240). After a
  sign-out it switches to `loginScreen`. Auth.Session.HandleCredentialResponse
  stops before that call, and Auth.Session.LoadUserRole states the role part
  on its own. The switch after a sign-out is modelled only where a token
  check signs the user out (App.AppState.CheckTokenExpiry). The user-info
  and sign-in button displays are not modelled.
- Floating point. `Math.round(a/b)` is the exact integer `(2a+b) div 2b`, and
  `Math.ceil` is exact integer ceiling division. Rounding at exact halves
  of binary fractions is not modelled.
- Date parsing and locale formatting. The due-date label keeps the day count
  and the remark but not the locale-formatted date.
- Undated tasks in the employee sort. The source comparator is `NaN` for them,
  which leaves their order to the engine. The model lists them after the
  dated tasks of their group.
- EmployeeTasks.EmployeeTaskManager.LoadEmployeeTasks: does not model the
  employee-id lookup through `getUserRole`. Data that is an object rather
  than an array is taken as a failed load that keeps the old list; the
  source stores the object before the statistics throw.
- Lower-case conversion is ASCII only; non-ASCII letters compare unchanged.
- Property keys that clash with `Object.prototype` members (a role named
  `constructor`, say) are not modelled. The permission and status tables are
  plain lookups.
- Non-numeric progress values (`parseInt` giving `NaN`) and dates that do
  not parse.
- Api.Loop, Api.Call, Api.CallGoogleAppsScript: the transport is a fixed
  list of outcomes and must hold at least MAX_RETRIES of them.
- The edit-mode submit listener in frontend/app.js:89-99 reads
  `window.adminPanel`, which frontend/admin.js:652 sets to `null` and nothing
  updates. The model keeps `updateTask` as a method of the panel and does
  not model that listener.
- `hasRole`, `isUserSignedIn` and `getCurrentUser` in frontend/app.js
  delegate to the ones in frontend/auth.js when that module is loaded. Only
  the latter are modelled.
- `exportToCSV` / `exportMyTasks` row building: only the CSV text built from
  rows is modelled.
- Tasks.TruncateText: lengths count Unicode characters. JavaScript counts
  UTF-16 code units, so text with characters outside the Basic Multilingual
  Plane (emoji, say) is cut at a different place.
- EmployeeTasks.EmployeeTaskManager.SortTasks: JavaScript's `sort` is stable,
  so tasks with equal keys keep their received order. The contract states
  the listing order and the same multiset, but not the order among ties.
- Admin.HandleAddTask: `createdBy` is a parameter. The source reads
  `getCurrentUser().employeeId` before any check (frontend/admin.js:80), so
  with nobody signed in it throws instead, and the global handler shows "An
  unexpected error occurred. Please try again." (frontend/app.js:421-428).
- App.AppState.ShowScreen: the supervisor dashboard shown without a user
  rethrows its error after showing it (frontend/dashboard.js:77-78). The
  rejected promise later reaches the same global handler, which adds "An
  unexpected error occurred. Please try again."; that later notification is
  not modelled.
- App.AppState.ShowScreen, App.AppState.Click: each screen's initialiser is
  followed only up to its first `await` (loading flag, an error without a
  user, the cards, and the token check of the first API call it starts).
  The asynchronous loads that follow, and the auto-refresh they start, are
  not modelled. The session is cleared on an expired token, but the
  `localStorage` entries that `signOut` removes are not modelled.
- EmployeeTasks.EmployeeTaskManager.SaveTaskDetails: the loading indicator
  it toggles and the `clearCache('tasks')` after the reload are not
  modelled. The reload is given its answer directly, as for
  `LoadEmployeeTasks`.
- Api.ApiCache.CachedApiCall: a call that throws leaves the entry as `Get`
  left it. The source does not catch, so the error reaches the caller; the
  model returns it as `Threw`.
