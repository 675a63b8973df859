# RaterHub task tracker — a Dafny model

The tracker is a browser userscript. It keeps two records in the page's
persistent storage:

- the task counter under `taskData_v2`: target, achieved, left, the history
  of counted task ids, and count;
- the user time (UT) under `utData`: per calendar day, a total and the
  seconds recorded for each task id.

It also keeps three tab-scoped session flags: a start time per task, `submittedTask`
and `skipTaskCountOnce`. A task page's `beforeunload` handler counts a task
at most once, and only when it was submitted within two minutes of being
opened. It then records the page timer's seconds as UT, with at most 120 s
per task per day.

This project models that logic as pure functions over immutable data:

- `Common`: the `Option` type, identifiers and the script's constants
  (700, 2 × 60 × 1000 ms, 120 s).
- `TimeFormat`: `formatTime`. `ParseTime` is a reader written as its partner,
  so that the round trip can be stated.
- `TaskStore`: the stored task record as JSON may hold it, and the
  defaulting read `initTaskStorage`. It also holds the decision of
  `updateTarget` and the counting step of the unload handler.
- `UserTime`: the stored UT record, and the repairing read `initializeUT`.
  It also holds the accumulation of `updateUT` under the per-task ceiling and
  the live figure the dashboard shows. Ghost definitions state that each
  day's total is the sum of its tasks' seconds.
- `Tracker`: one tab as a state machine. The events are loading a page,
  clicking a submit control, leaving the page, the reset button, the target
  editor and the once-a-second dashboard refresh. The storage writes of
  `updateDashboardUI` are modelled as `Refresh`, because the reads it
  performs can write defaults back.

The clock (`now` in milliseconds), the day key and the timer's reading are
parameters. A page's timer reading is `Option<Reading>`, where `None` means
no readable "M:SS" display.

Three behaviours of the script worth noting:

- a confirmed reset leaves `submittedTask` as it is;
- the history is an ordered sequence that `includes` searches;
- a rejected target input still performs a read, and that read writes the
  default record over unusable data.

## Model

| member | source | states |
|---|---|---|
| TimeFormat.FormatTime | raterhub-task-tracker.user.js:89-95 | reading the formatted text back gives exactly the clamped number of seconds, so no information is lost |
| TimeFormat.FormatTimeInjective | raterhub-task-tracker.user.js:89-95 | two durations format identically only if they are equal after clamping negatives to zero |
| TimeFormat.FormatTimeFields | raterhub-task-tracker.user.js:90-93 | the hour, minute and second fields recombine to the clamped input, minutes and seconds are below 60, and hours are non-zero exactly from 3600 s |
| TimeFormat.FormatTimeHourField | raterhub-task-tracker.user.js:94 | an "h" appears in the text if and only if the duration is at least one hour |
| TimeFormat.FormatTimeFieldWidths | raterhub-task-tracker.user.js:94 | the text ends in a digit, "m ", two digits and "s"; from one hour on it has "h " before a two-digit minute field; below ten minutes it is exactly six characters long |
| TimeFormat.FormatTimeExamples | raterhub-task-tracker.user.js:89-95 | -5 s shows as "0m 00s", 65 s as "1m 05s" and 3725 s as "1h 02m 05s" |
| TimeFormat.NatToStringValue | raterhub-task-tracker.user.js:94 | the decimal text of a number denotes that number |
| TimeFormat.PadStartValue | raterhub-task-tracker.user.js:94 | left-padding a digit string with zeros keeps it a digit string of the same value |
| TimeFormat.RenderRoundTripWithHours | raterhub-task-tracker.user.js:94 | the layout with an hour field reads back as hours × 3600 + minutes × 60 + seconds |
| TimeFormat.RenderRoundTripWithoutHours | raterhub-task-tracker.user.js:94 | the layout without an hour field reads back as minutes × 60 + seconds |
| TaskStore.InitTaskStorage | raterhub-task-tracker.user.js:138-157 | missing, corrupt or history-less data reads as the default record (700 target, 700 left), which is written back; usable data stays in storage unchanged; the record read always has a non-zero target, a falsy target becomes 700, and `left` = max(0, target − achieved) |
| TaskStore.SaveRoundTrip | raterhub-task-tracker.user.js:151-161 | a normalised record that is saved reads back as itself and causes no further write |
| TaskStore.InitTaskStorageIdempotent | raterhub-task-tracker.user.js:138-157 | reading twice gives the first read's record and storage |
| TaskStore.ApplyTarget | raterhub-task-tracker.user.js:236-250 | a positive parsed target replaces the target and recomputes `left` while keeping achieved, history and count; NaN or a non-positive input leaves the visible record unchanged and storage as the read left it |
| TaskStore.CountTask | raterhub-task-tracker.user.js:337-344 | afterwards the id is always in the history; a new id is appended, achieved and count grow by one, and `left` follows; an id already counted changes nothing |
| TaskStore.DefaultConsistent | raterhub-task-tracker.user.js:146-148 | the default record satisfies the bookkeeping invariant |
| TaskStore.CountTaskConsistent | raterhub-task-tracker.user.js:338-343 | counting keeps the history duplicate-free and achieved = count = its length |
| TaskStore.ApplyTargetConsistent | raterhub-task-tracker.user.js:240-244 | changing the target keeps the bookkeeping invariant |
| TaskStore.FirstTaskExample | raterhub-task-tracker.user.js:337-343 | one counted task on empty storage gives target 700, achieved 1, left 699, count 1 |
| UserTime.RepairDay | raterhub-task-tracker.user.js:111-112 | an existing day entry gets a numeric total and an object of task seconds; members that are already usable are kept |
| UserTime.InitializeUT | raterhub-task-tracker.user.js:97-115 | today's entry is always usable afterwards and other dates are kept; a missing or falsy entry is created as {total 0, no tasks} and the map written back; an existing one is repaired in memory only |
| UserTime.InitializeUTIdempotent | raterhub-task-tracker.user.js:97-115 | a second read sees what the first one returned and writes nothing new |
| UserTime.AddedSecs | raterhub-task-tracker.user.js:122-126 | for a non-negative session the seconds added lie between 0 and the session, and bring the task to min(current + session, max(current, 120)) |
| UserTime.AddSession | raterhub-task-tracker.user.js:120-131 | the task's seconds become min(current + session, max(current, 120)); the day total grows by exactly what the task gained; other tasks are untouched; no key is created when nothing is gained |
| UserTime.RecordUT | raterhub-task-tracker.user.js:117-132 | an empty id or a negative session leaves the record alone; otherwise today's entry gets the capped addition, its total grows by what the task gained, its other tasks and other dates are unchanged, and the map is written back |
| UserTime.ZeroSessionRecordsNothing | raterhub-task-tracker.user.js:127-132 | a session of 0 s adds nothing: the record written back is today's read, unchanged |
| UserTime.AddSessionCapped | raterhub-task-tracker.user.js:122-128 | a session never lowers a task's seconds and never lifts them past 120 |
| UserTime.RecordSessionsCapped | raterhub-task-tracker.user.js:117-132 | any run of sessions for one task leaves its seconds for the day at most 120 |
| UserTime.TwoSessionsExample | raterhub-task-tracker.user.js:121-131 | two 80 s sessions on a fresh day record 120 s for the task and for the day |
| UserTime.DisplayUT | raterhub-task-tracker.user.js:279-291 | the live figure is at least today's total and at most the total plus what the ceiling still allows the task; it is the total when there is no task id or no timer |
| UserTime.DisplayPreviewsRecord | raterhub-task-tracker.user.js:284-288 | the live figure equals the day total that recording the same timer reading would store |
| UserTime.InitializeUTConsistent | raterhub-task-tracker.user.js:107-113 | reading keeps every day's total equal to the sum of its tasks' seconds, each within 0..120 |
| UserTime.AddSessionConsistent | raterhub-task-tracker.user.js:123-131 | a session keeps the day's total equal to the sum of its tasks' seconds, each within 0..120 |
| UserTime.RecordUTConsistent | raterhub-task-tracker.user.js:117-132 | recording keeps that invariant for every date |
| UserTime.RepairDayAsWritten | raterhub-task-tracker.user.js:112 | as written, the repair leaves a `null` tasks member in place |
| UserTime.RecordUTAsWritten | raterhub-task-tracker.user.js:117-132 | as written, `updateUT` fails exactly when today's entry exists with `tasks: null` |
| UserTime.RecordUTAsWrittenAgrees | raterhub-task-tracker.user.js:117-132 | apart from that case, the written and the repaired versions record the same thing |
| UserTime.NullTasksLoseSessions | raterhub-task-tracker.user.js:111-121 | with `tasks: null` today, the written version records nothing; the repaired one records min(session, 120) |
| Tracker.Refresh | raterhub-task-tracker.user.js:252-257 | the dashboard's reads leave the record the script sees unchanged and leave both keys in a parsed form |
| Tracker.RefreshIdempotent | raterhub-task-tracker.user.js:252-257 | refreshing twice is the same as refreshing once |
| Tracker.UpdateUT | raterhub-task-tracker.user.js:117-134 | the guard changes nothing; otherwise the UT record is the recorded one and the task record seen is unchanged |
| Tracker.UpdateTarget | raterhub-task-tracker.user.js:236-250 | an accepted target changes only target and left of the record seen; a rejected one changes neither record as seen and leaves the UT key alone |
| Tracker.LoadPage | raterhub-task-tracker.user.js:425-447 | a task page with an id keeps an existing start time or records now, and no other start time changes; any other page clears all start times; the flags and the records seen are unchanged, and today's UT entry exists afterwards |
| Tracker.ClickSubmit | raterhub-task-tracker.user.js:306-313 | a submit click sets `submittedTask` and changes nothing else |
| Tracker.StartTime | raterhub-task-tracker.user.js:328-335 | a task's start time is the one stored for it; a task with none reads as 0, which the handler's `startTime &&` test treats as missing |
| Tracker.WithinBudget | raterhub-task-tracker.user.js:331-335 | the time test holds exactly when the task has a stored, non-zero start time and at most 120 000 ms have passed since it |
| Tracker.Unload | raterhub-task-tracker.user.js:316-357 | the start time is always consumed, as are the skip flag and the submit flag, except that a skip leaves the submit flag; with skip or without a submit, storage is untouched; the task is counted exactly when submitted, a start time exists, at most 120 000 ms have passed and the id is new; the timer's seconds are recorded exactly when submitted, not skipped and the timer is readable |
| Tracker.Reset | raterhub-task-tracker.user.js:393-403 | a confirmed reset makes both records read as empty or default, sets the skip flag and clears every start time; a cancelled reset changes nothing |
| Tracker.FreshTabInvariant | raterhub-task-tracker.user.js:146-148 | empty storage satisfies the bookkeeping and UT-sum invariants |
| Tracker.RefreshInvariant | raterhub-task-tracker.user.js:252-257 | the dashboard's reads keep both invariants |
| Tracker.UnloadInvariant | raterhub-task-tracker.user.js:334-355 | leaving a page keeps both invariants |
| Tracker.StepInvariant | raterhub-task-tracker.user.js:316-403 | every event, the once-a-second refresh included, keeps both invariants |
| Tracker.RunInvariant | raterhub-task-tracker.user.js:316-403 | any sequence of events keeps both invariants |
| Tracker.AtMostOnceFromFreshTab | raterhub-task-tracker.user.js:338-343 | from empty storage, no id is ever counted twice, achieved is the number of counted ids, and every day's total is the sum of its tasks' seconds, each at most 120 |
| Tracker.CountedIdNotRecounted | raterhub-task-tracker.user.js:338-344 | leaving the page of an already counted id never changes the task record |
| Tracker.OverBudgetNotCounted | raterhub-task-tracker.user.js:335 | a submit more than two minutes after the start never raises achieved |
| Tracker.RecordingIndependentOfCounting | raterhub-task-tracker.user.js:347-356 | what leaving the page does to the UT record does not depend on the clock |
| Tracker.ResetThenUnload | raterhub-task-tracker.user.js:317-320 | the unload that follows a reset consumes the skip flag and writes nothing, so the record reads as the default |
| Tracker.FirstTaskScenario | raterhub-task-tracker.user.js:316-357 | loading at 1000 ms, submitting, and leaving at 61 000 ms with the timer at 1:00 counts the task (achieved 1, 699 left) and records 60 s |

## Left out

- The dashboard's DOM is not modelled: building it, its styles, the progress
  bar percentage (floating point) and the signature. Its storage side
  effects are modelled as `Tracker.Refresh`. The one-second interval timer
  appears only through its ticks, the `Tick` event.
- The conflict check (`checkIncompleteTasks`, `showNotification`) is not modelled. It is a
  network request and a DOM notice, and touches no stored record.
- JSON text, `JSON.parse` and `JSON.stringify` are not modelled. Stored data
  is abstracted to the cases the script distinguishes.
- Numeric fields that hold strings, floats or `NaN` in stored data are not
  modelled. A falsy field is 0 and every other field is an integer.
- A UT record that parses to an array is not modelled, and neither is a
  truthy day entry that is not an object.
- `todayKey` is a parameter, not derived from the clock.
- `location.reload` and the `confirm` dialog are not modelled. The dialog's
  answer is a parameter of `Reset`.
- Two tabs writing storage concurrently are not modelled. Each event runs on its own.
- Tracker.Unload: a timer text that splits into non-numbers gives `NaN` in
  the script. `NaN` passes the guard of `updateUT`, and `NaN > 0` is false,
  so nothing is added and only the map is written back, exactly as for a
  0:00 reading. The model's timer is a pair of naturals or absent, so this
  case is not a separate input.
- UserTime.DisplayUT: `NaN` and negative timer readings are not modelled.
- UserTime.InitializeUT: models the corrected repair of a day entry, in which
  `tasks: null` becomes `{}` (see Findings). `RecordUT` and every `Tracker`
  event build on it. With `tasks: null` stored for today, the script as
  written keeps the null and `updateUT` throws, so the claims that today's
  entry is usable afterwards and that the timer's seconds are recorded do not
  hold of the script in that one case. `UserTime.RecordUTAsWritten` models
  that behaviour.
- A truthy `taskHistory` that is not an array (such as `{}` or `5`) is not
  modelled. It passes the read at line 143, and the unload handler then
  throws at line 338 outside any `try`, so that unload also skips recording
  the timer's seconds.
- A day's `tasks` member that is an array is not modelled. It survives the
  repair because `typeof []` is `'object'`. Serialising it drops the
  per-task seconds added at line 128, while line 129 still raises the total.
- TimeFormat.FormatTime: the input is an integer, so the
  `Math.floor` of a fractional number of seconds is not modelled.
- Tracker.UpdateTarget: `parseInt` is modelled as its result (`None` for
  NaN). A missing input element, which returns before any read, is not
  modelled.

## Findings

| source | as written | input that shows it | evidently intended | confidence | as-written member | corrected member |
|---|---|---|---|---|---|---|
| raterhub-task-tracker.user.js:112 | `typeof tasks !== 'object'` is false for `null`, so a day entry `{total: 0, tasks: null}` is not repaired; `updateUT` then throws at line 121, and the unload handler's `try` swallows the error, so every session of that day is lost | stored UT `{"<today>": {"total": 0, "tasks": null}}`, then any submitted task page left with a readable timer | a `null` tasks member is replaced by `{}` like any other non-object, and the session is recorded | not executed | UserTime.RecordUTAsWritten, UserTime.NullTasksLoseSessions | UserTime.RepairDay, UserTime.InitializeUT, UserTime.RecordUT |
