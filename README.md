# TaskHarbour student dashboard: a Dafny model of its task store

TaskHarbour is a browser dashboard for students. Tasks are grouped by subject and
carry subtasks, estimates, time studied, a due date, a soft deadline and a scheduled
date. Everything lives in one script (`main.js`). The UI reads and writes the global
`tasks` array, two lifetime counters (`totalTimeAccumulated`, `totalTasksCompleted`),
the streak state (`streakCount`, `lastStudyDate`) and the `subjects` list. This project
models that state and the rules that update it and derive views from it:

- `Tasks` (tasks.dfy): the task and subtask records, `createTask`, lookup by id, and
  the normalisation loop that runs on tasks reloaded from storage.
- `Store` (store.dfy): the class `TaskStore`. It holds the task list and the two
  lifetime counters. Its methods are the in-place operations of the page: add a task,
  add or toggle a subtask, add 15 minutes studied or estimated, schedule a task, and
  complete it. Completing removes the task from the list.
- `Streak` (streak.dfy): the class `StreakTracker` and `updateStreak`, a three-way
  update keyed on day equality, with lemmas about runs of consecutive days.
- `Classifier` (classifier.dfy): the "today" and "upcoming" filters.
- `Stats` (stats.dfy): the totals of `updateStats` and the loop of the "today" panel.
- `Subjects` (subjects.dfy): the default subjects, `trim`, ASCII lower-casing, and the
  class `SubjectList` whose `AddSubject` is the append logic of `addSubjectPrompt`.
- `Sequences`, `Wrappers`: `filter`, `findIndex`, `splice(i, 1)` as functions; `Option`.
- `Scenarios` (scenarios.dfy): client methods. They show what a caller can conclude
  from the contracts alone, on usage scenarios of the dashboard.

Calendar dates are integer day numbers, and "yesterday" is `today - 1`. A date that
is null, missing, or the empty string of an unset date input is `None`. That empty
string is falsy and never equals a date string, so every consumer treats it like null.
The current day (`today`, `now`) and every fresh id are parameters.

Behaviour kept as the code has it:
- Completing an open task adds its `timeSpent` to `totalTimeAccumulated`. But every
  `addTimeSpent` has already added its 15 minutes to that counter. So time studied on
  a task that is later completed is counted twice. `Scenarios.EssayScenario` shows
  this: 15 minutes studied, then completion, raise the counter by 30.
- Completing a task that is already marked completed still removes it and still
  records a study day. Only the counters are left alone.
- `estimatedTime` is an `int`; the form's `parseInt(…) || 0` (main.js:237) accepts
  negative numbers.

## Model

| member | source | states |
|---|---|---|
| Tasks.CreateTask | main.js:16-28 | a new task carries the given title, subject, estimate and dates, has 0 minutes spent, is open, unscheduled and has no subtasks |
| Tasks.Normalise | main.js:187-193 | a reloaded record keeps its id, title, subject, dates and subtasks; a present counter or flag is kept and a missing one becomes 0 or false; the record is given back unchanged by saving exactly when every counter and the flag were present |
| Tasks.IndexOf | main.js:521-522 | the lookup by id gives -1 exactly when no task has the id; otherwise the first index whose task has it |
| Tasks.SubtaskIndexOf | main.js:451 | the subtask lookup gives -1 exactly when no subtask has the id; otherwise the first index carrying it |
| Tasks.IndexOfUnique | main.js:498 | with unique task ids, the lookup finds the one task with that id |
| Tasks.WellFormedRemove | main.js:531 | removing a task keeps task ids unique, and subtask ids unique within each task |
| Tasks.NormaliseSerialise | main.js:186-194 | a task written with every field present reloads as the same task |
| Tasks.NormaliseDefaults | main.js:188-190 | missing time fields reload as 0 and a missing completion flag as false; id and subtasks are kept |
| Tasks.NormaliseAll | main.js:186-194 | the reload loop keeps order and length, and defaults each record's missing fields |
| Tasks.SaveReload | main.js:185-194 | saving the whole task list and reloading it gives back the same tasks in the same order |
| Classifier.TodayTasks | main.js:549-555 | a task is listed iff it is in the store and its scheduled date or due date is today; store order is kept |
| Classifier.UpcomingTasks | main.js:557-573 | a task is listed iff one of its present dates lies in [now, now + 7]; a task with no dates is never listed; store order is kept |
| Classifier.TodayTasksMultiplicity | main.js:551-554 | each task of the day is listed as many times as it occurs in the store, and no other task is listed |
| Classifier.UpcomingTasksMultiplicity | main.js:562-572 | each upcoming task is listed as many times as it occurs in the store, and no other task is listed |
| Classifier.UndatedTaskNeverListed | main.js:562-571 | a task whose three dates are absent is in neither the today view nor the upcoming view |
| Stats.TotalTimeSpent | main.js:579 | the time total of the store; never negative when no task has a negative time |
| Stats.TotalTimeSpentBounds | main.js:579 | with no negative times, each task's time spent is at most the time total |
| Stats.CompletedCount | main.js:580 | the number of completed tasks: at most the number of tasks, and 0 exactly when no task is completed |
| Stats.Remaining | main.js:265 | the minutes still needed for one task: the larger of 0 and estimate minus time spent |
| Stats.RemainingMinutes | main.js:264-266 | the sum of `max(estimatedTime - timeSpent, 0)` is never negative |
| Stats.IncompleteCount | main.js:268-270 | the number of open tasks is at most the number of tasks |
| Stats.TotalTimeSpentAppend | main.js:579 | the time total of a concatenation is the sum of the parts' totals |
| Stats.TotalTimeSpentUpdate | main.js:579 | replacing one task changes the time total by exactly that task's change in time spent |
| Stats.TotalTimeSpentRemove | main.js:579 | removing one task lowers the time total by exactly its time spent |
| Stats.CompletedCountAppend | main.js:580 | the completed count of a concatenation is the sum of the parts' counts |
| Stats.CompletedCountUpdate | main.js:580 | replacing one task changes the completed count only through that task's flag |
| Stats.CompletedCountRemove | main.js:580 | removing a task lowers the completed count by one exactly when that task was completed |
| Stats.IncompletePlusCompleted | main.js:268-270 | open tasks plus completed tasks is the number of tasks |
| Stats.NoneCompletedCount | main.js:580 | a store with no completed task has a completed count of 0 |
| Stats.CreatedTaskStats | main.js:17-30 | a new task carries the given fields, has 0 minutes spent, is open, unscheduled and without subtasks; appending it leaves the time and completed totals unchanged, adds one open task, and needs its whole positive estimate |
| Stats.TodayTotals | main.js:258-270 | the loop gives the remaining minutes and the open-task count of exactly the tasks of the day |
| Streak.Yesterday | main.js:605-609 | the day before today |
| Streak.NextStreak | main.js:591-598 | after a completion the last study day is today; same day: the state is unchanged; the day after the last study day: streak + 1; otherwise 1 |
| Streak.SameDayIdempotent | main.js:591-593 | a second completion on the same day changes nothing |
| Streak.NextStreakConsistent | main.js:594-601 | after a completion the last study day is today, and the streak is at least 1 if the state was consistent |
| Streak.GapResets | main.js:596-597 | after a gap of two days or more, or with no study day recorded, the streak restarts at 1 |
| Streak.ConsecutiveRun | main.js:594-597 | completions on n consecutive days give a streak of n, or the old streak plus n when the run starts the day after the last study day |
| Streak.ThreeDayStreak | main.js:586-603 | starting with no record, completions on three consecutive days give a streak of 3 |
| Streak.StreakTracker.constructor | main.js:588-589 | the saved last study day is kept; an unreadable streak count is 0 |
| Streak.StreakTracker.UpdateStreak | main.js:586-603 | same day: unchanged; the day after the last study day: streak + 1; otherwise 1; in both updating cases the last study day becomes today |
| Store.TaskStore.constructor | main.js:183-199 | the saved tasks are loaded normalised and in order, or none; unreadable counters are 0 |
| Store.TaskStore.AddTask | main.js:241-242 | exactly the created task is appended; the counters do not change; a fresh id keeps ids unique |
| Store.TaskStore.AddSubtask | main.js:415-427 | an open subtask is appended to the end of the matched task's list, and no other task changes; an absent task id changes nothing |
| Store.TaskStore.ToggleSubtaskComplete | main.js:448-457 | only the matched subtask's flag flips; an absent task id or subtask id changes nothing |
| Store.TaskStore.AddTimeSpent | main.js:497-508 | the matched task's time spent and the lifetime time counter each rise by exactly 15, and no other task changes; an absent id changes nothing |
| Store.TaskStore.AddEstimatedTime | main.js:511-518 | only the matched task's estimate rises by 15; the counters and the time total stay the same; an absent id changes nothing |
| Store.TaskStore.ToggleComplete | main.js:521-537 | exactly that task is removed and the others keep their order; an open task adds 1 completed and its time spent to the counters, a completed one changes neither counter; the streak is updated for today; an absent id changes nothing, the streak included |
| Store.TaskStore.ScheduleTask | main.js:540-547 | only the matched task's scheduled date changes; an absent id changes nothing |
| Subjects.LoadSubjects | main.js:48-59 | the saved list when it can be read; otherwise the four defaults, which have no case-insensitive duplicates |
| Subjects.Trim | main.js:120 | the trimmed name is the slice of the name that starts after its leading white space and is followed only by white space; it has no white space at either end, and is empty exactly when the name is all white space |
| Subjects.Lower | main.js:122 | the lower-cased name has the same length and no upper-case ASCII letter; each upper-case ASCII letter becomes its lower-case letter and every other character is kept |
| Subjects.TrimUnpadded | main.js:120 | a name with no white space at either end is its own trimmed form |
| Subjects.TrimIdempotent | main.js:120 | trimming twice is trimming once |
| Subjects.ContainsIgnoringCase | main.js:122 | true exactly when some subject equals the name up to letter case |
| Subjects.DefaultsDistinct | main.js:54-57 | the default subjects are pairwise different up to letter case |
| Subjects.AppendKeepsDistinct | main.js:122-127 | appending a name with no case-insensitive match keeps the list free of case-insensitive duplicates |
| Subjects.SubjectList.constructor | main.js:48-59 | the saved list if it can be read, otherwise the four defaults, which have no case-insensitive duplicates |
| Subjects.SubjectList.AddSubject | main.js:117-132 | the trimmed name is appended exactly when it is non-empty and matches no subject up to letter case; otherwise the list is unchanged; lists without case-insensitive duplicates keep that property |

## Left out

- Rendering and event wiring: `renderTasks`, the markup of `renderToday` and `renderUpcoming`, `renderSubjects` colours, `renderSubtasks`, `toggleAddSubtaskForm`, `renderStats`, `renderStreak`, `updateSubjectSelect`. They only draw the model's state. This includes the display fallback of a missing subject to "Misc" and the per-subject filter of the task list at main.js:344-347.
- The subtask form's own check that a trimmed title is not empty (main.js:389-390). It lives in a rendering handler. `AddSubtask` takes the title as given, as `addSubtask` does.
- Storage: `localStorage`, `JSON.parse` and `JSON.stringify`. Saved values are parameters of the constructors: `None` for an absent task list or counter, and for a counter that `parseInt` cannot read; `Unreadable` for a subject list that `JSON.parse` rejects. Writing back to storage is not modelled, because the in-memory state is what storage mirrors.
- Store.TaskStore.constructor: an unreadable saved task list is not modelled. `JSON.parse` at main.js:185 has no `try`/`catch`, so in the source it throws out of start-up: the counters of main.js:198-199 are never declared and the page's handlers are never assigned. The model's `None` stands only for the absent list of main.js:184.
- Id generation with `Date.now()` and `Math.random()`. Ids are parameters. Uniqueness is kept when the given id is fresh, as stated in the `Valid()` clauses.
- The conversion `Number(task.id)` at reload. Ids are integers throughout.
- The form's `parseInt(…) || 0` parsing of the estimate. The estimate is an integer parameter.
- JavaScript numbers are doubles. The model uses unbounded integers, so very large totals lose no precision here.
- Classifier.TodayTasks: `today` is an abstract day number. The source takes the UTC date of the current instant (`toISOString`).
- Classifier.UpcomingTasks: compares day numbers with the closed window [now, now + 7]. The source compares the current instant, time of day included, with dates parsed as UTC midnight. So in the source a task dated today usually falls before `now` and is not upcoming, while a date seven days ahead is. That time-of-day behaviour is not modelled.
- Streak.StreakTracker.UpdateStreak: "yesterday" is `today - 1` on day numbers. The source takes the UTC date of the local time minus one calendar day.
- Subjects.Lower: lower-cases ASCII letters only. `toLowerCase` folds all of Unicode, so two names equal up to non-ASCII case are distinct here.
- Subjects.Trim: removes the white-space and line-terminator characters listed in `IsWhiteSpace` (the ECMAScript set). It is not checked against a full Unicode category table.
- `prompt` and `alert`. The prompt's answer is a parameter (`None` when cancelled). The "already exists" alert is simply the no-op branch.
- URL navigation: `goToSubject`, `exitSubjectView`, `getSubjectFromURL`, `enterSubjectView`.
- `percentCompleted`, the hours formatting (`/ 60`, `toFixed(1)`) and `formatDate`. These are floating point and locale output.
- `addSubtaskTimeSpent`, `addSubtaskEstTime`, `updateSubtaskScheduledDate`. They update subtask fields that `addSubtask` never sets, so their result in the source is `NaN` or an ad-hoc field rather than a defined behaviour.
