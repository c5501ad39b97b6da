# Scheduled webhook tasks, in Dafny

The service keeps tasks that call a webhook on a schedule (once, by a cron expression or at an
interval), an append-only history of everything that happened to them, and a parser that turns
texts such as "next friday at 5pm" into schedules, with a language model for everything it does not
read itself.  This project models that logic and proves what it promises.

- **Lifecycle** (`Lifecycle`, `LifecycleInvariants`, `LifecycleTheorems`, `LifecycleSchedules`,
  `OverlappingRequests`, `HistoryTrail`, `OnceExecution`, `Tenants`, `TaskService`).  One state machine for task rows,
  history, registered schedules and everything in flight.  Requests, manual runs and executors are split
  into their atomic steps (load, webhook call, commit, background job, removal of the schedule), any
  number of each may be in flight, and the scheduler may fire any task at any time.  A run is any
  sequence of steps.  The theorems hold for every run; what overlapping requests can break is
  characterised exactly, step by step and over whole runs.  `TaskService.Service` is the same machine as
  mutable state, one method per handler and executor step, each with its new state written out, proved
  equal to its step and to keep every promise.
- **Prompts** (`Prompts`, `PromptPlaceholders`).  Successive `str.replace` passes against one
  simultaneous substitution, for any placeholders and then for the program's own eight.
- **Triggers and history rows** (`DateTimes`, `Calendar`, `IsoFormat`, `Triggers`, `FireStream`,
  `TaskHistory`, `StoredHistory`).  The calendar, the ISO 8601 printer and reader (the profile of
  section 5.6 of RFC 3339), the stored form of a trigger, upcoming fires, the history table with its
  CHECK constraint, and the way from a run of the lifecycle to the rows of that table and back.
- **Reading schedules** (`RelativeSchedule`, `RelativePhrases`, `Weekdays`, `TriggerParse`,
  `ScheduleReading`).  The leftmost scanner for relative phrases and what the phrases mean, read off the
  text; the completion calls with their format fallback, the retry loop, and the function that joins them.
- **Listings** (`Paging`, `Listings`).  Filters, counts and pages of the two listing routes.
- `Options`, `Text` and `Webhook` hold what the others share.

What the documentation of the routes does not mention: two requests on one task that overlap can leave a
schedule without a task (`OverlappingRequests` says exactly when); an interval from 2^31 seconds up to
the longest time span registers a schedule and then gets no task
(`OverlappingRequests.CreationAccountedIff`); and listing tasks by `next_run_at` gives no stable pages,
because paused tasks are all tied (`Listings.PausedTasksAreTied`).

## Model

| member | source | states |
|---|---|---|
| LifecycleTheorems.HistoryReplaysToRows | app/scheduler/executor.py:97-134 | Under every interleaving of split requests, manual runs, executors and scheduler steps, folding a task's history in commit order gives exactly whether its row exists, whether it is active and whether it is a once-task; a task without history is a task that never was |
| LifecycleInvariants.CommitKeeps | app/db/dependencies.py:17-22 | Committing any well-built transaction, however long ago it was built, keeps rows and replayed history in step |
| LifecycleInvariants.StepKeeps | app/scheduler/executor.py:97-134 | Each of the fourteen kinds of step keeps the invariant over rows, history and everything in flight, and only extends the history |
| LifecycleInvariants.DeletedSince | app/routes/tasks.py:363-367 | A task that was live at some point of the history and has no row at a later one was deleted in between |
| LifecycleTheorems.HistoryIsAppendOnly | alembic/versions/2026_05_24_1400-b2c3d4e5f6a7_add_task_history.py:151-166 | The history at any point of a run is a prefix of the history at its end |
| LifecycleTheorems.SnapshotsAgree | app/services/task_history.py:43-126 | In every run all entries of one task carry one owner, and each deleted snapshot and each executed URL agree with the task's created snapshot |
| LifecycleTheorems.NoCallGoesMissing | app/scheduler/executor.py:112-131 | In every state of every run: webhook calls finished = execution entries + answered scheduled calls + answered manual calls + lost commits, and a lost one is a successful call of a once-task that was deleted after its load |
| LifecycleTheorems.JobWasLoaded | app/scheduler/executor.py:103-110 | Every executor past its load has a load step behind it that found the row present and active, at a point where the history replays to the same |
| LifecycleTheorems.OnlyJobsWriteScheduled | app/scheduler/executor.py:113-122 | Only the commit of an answered executor adds a scheduled execution, and it does so for the task it loaded |
| HistoryTrail.ScheduledRowWasLoadedLive | app/scheduler/executor.py:97-122 | Stale schedules do no harm: in every run each scheduled execution in the history was committed by an executor that had found its task present and active at an earlier load, and is exactly the owner and URL of the row found there with the status, success and error of the reply to that executor's call in between |
| HistoryTrail.JobWasCalled | app/scheduler/executor.py:103-112 | Every answered executor has its load and, after it, its call behind it, and holds the outcome of that very reply |
| HistoryTrail.ManualRowWasRequested | app/routes/tasks.py:224-266 | In every run each manual execution goes back to a request of the task's owner, a second load that still found the task and a call, in this order before its commit; it is exactly the URL of the row the request found with the status, success and error of the reply to that call |
| HistoryTrail.OtherRowWasHandled | app/routes/tasks.py:110-367 | In every run each created, activated, deactivated or deleted entry goes back to the handler of such a request of the user and task it names, on a row that was there and paused or active accordingly, and repeats the URL and schedule of the request or the row; that very step wrote it, or the commit of the same request later on |
| HistoryTrail.EntryWasWritten | app/db/dependencies.py:17-22 | Each entry of the history of a run was written by one step, which wrote nothing else |
| LifecycleSchedules.OnceTaskNextRun | app/routes/tasks.py:323-334 | In every run, split requests included, an active once-task has `next_run_at` equal to its `run_at` and an inactive one has none |
| LifecycleSchedules.TaskNextRun | app/routes/tasks.py:127-138 | In every run, requests split and overlapping in any way, a task of any kind has a next run if and only if it is active and its trigger can fire |
| LifecycleSchedules.InactiveTaskNextRun | app/routes/tasks.py:287-289 | In particular no inactive task has a next run, in every run |
| LifecycleSchedules.SchedulesAccountedIff | app/scheduler/service.py:48-68 | With every registered schedule belonging to an active task or to one whose executor still owes its removal, a step breaks this if and only if it is a registration without such a task, the commit of a pause or deletion whose schedule is still up, or a whole creation that is too long to commit |
| OverlappingRequests.SchedulesPromisedIff | app/scheduler/service.py:48-68 | A registered schedule may also belong to a task that a request is about to make active; a step breaks this if and only if it commits the end of a task, or fails to commit its start, while the schedule is up and nobody else vouches for it, or registers a schedule that nobody vouches for, or is a whole creation that is too long |
| OverlappingRequests.PromisedRunIff | app/scheduler/service.py:48-68 | Throughout a run every registered schedule has an active task, an executor that owes its removal or a request about to make its task active, if and only if none of these steps occurs in the run |
| OverlappingRequests.FrameworkOrderKeepsPromise | app/db/dependencies.py:17-22 | In the framework's order, the background job before the commit, one unfinished request per task and no creation too long to commit mean that none of these steps occurs; a schedule whose task has no unfinished request then belongs to an active task or to one whose executor owes the removal |
| OverlappingRequests.DeletedDuringActivation | app/routes/tasks.py:341-367 | One unfinished request per task is needed: in the framework's order a deletion during an activation leaves a schedule without a task and with nothing to take it down |
| OverlappingRequests.NoScheduleLeftBehindIff | app/routes/tasks.py:110-367 | With whole requests and any number of executors every registered schedule belongs to an active task or to one whose executor owes the removal, throughout the run, if and only if no creation is too long to commit |
| OverlappingRequests.CreationAccountedIff | app/routes/tasks.py:125-147 | One undisturbed creation in the framework's order leaves a schedule behind if and only if its interval can be built and does not fit the history's column, that is 2^31 <= seconds <= 86399999999999; a trigger that cannot be built fails before anything is registered |
| OverlappingRequests.WholeRequestIs | app/db/dependencies.py:17-22 | A split request that nothing disturbs does what the whole request does, in either order of commit and background job, and leaves nothing to be done |
| OverlappingRequests.UnstorableCreateBreaksSchedules | app/services/task_history.py:20-26 | The concrete case: an interval of 2^31 seconds registers the schedule of a task that never gets a row |
| LifecycleSchedules.CommitJobAccounted | app/scheduler/executor.py:128-134 | The commit of an execution leaves every schedule accounted for, the deactivated once-task's by the removal it owes |
| OnceExecution.AtMostOneSuccess | app/scheduler/executor.py:128-131 | With whole requests, a clock that never goes back, no fires before the time and one executor at a time on a once-task, a once-task has at most one successful scheduled execution in the whole run |
| OnceExecution.EveryRuleIsNeeded | app/scheduler/executor.py:97-134 | None of the four rules can be spared: for each there is a run that keeps the other three and in which a once-task succeeds twice |
| OnceExecution.EarlyFireBreaks | app/routes/tasks.py:323-331 | A run that keeps every rule but timely fires: a task fired before its time is activated again and succeeds twice |
| OnceExecution.ClockBackBreaks | app/routes/tasks.py:323-331 | A run that keeps every rule but the monotone clock, with two successes |
| OnceExecution.SplitActivationBreaks | app/routes/tasks.py:333-334 | A run that keeps every rule but whole requests: an activation loaded before the success commits after it |
| OnceExecution.OverlapBreaks | app/scheduler/executor.py:103-131 | A run that keeps every rule but one executor at a time: two overlapping executors both succeed |
| OnceExecution.NoFurtherSuccessIff | app/routes/tasks.py:323-331 | After a success of a once-task no continuation of a disciplined run succeeds again if and only if the row is gone or no executor in flight can still commit a success of it |
| OnceExecution.SpentRun | app/routes/tasks.py:323-331 | Once a once-task is over, inactive, due and in no executor's hands, every activation is refused and it never succeeds again |
| OnceExecution.PotentSucceeds | app/scheduler/executor.py:112-131 | An executor that still holds a present task can always be continued to one more success |
| Tenants.NonInterference | app/db/scope.py:20-32 | Two runs that agree on a user's own steps, whatever other users do in either, leave that user the same visible rows and the same history entries, and answer each of the user's requests alike |
| Tenants.OwnStepsSuffice | tests/test_multi_tenant.py:7-60 | A run and the run of one user's steps alone agree on that user's rows, schedules, history and everything in flight for that user |
| Tenants.ForeignTaskIsNotFound | app/routes/tasks.py:55-65 | In every state of every run a request on another user's task is answered with 404 and leaves nothing to be done, and a manual run of it does not begin |
| TaskService.StepIsValid | app/routes/tasks.py:110-367 | Every step that leaves requests whole keeps the history invariant, the next runs and the balance of calls together, and keeps every schedule accounted for exactly when it is no creation whose interval can be built but not stored |
| TaskService.Service.CreateTask | app/routes/tasks.py:110-147 | Status, rows, history and schedules of a creation, case by case in terms of the request: 422 for an empty cron zone or an interval that is not positive; 500 without any change for a refused cron expression, an interval over 86399999999999 seconds or a once-time out of range; else 201 with the schedule registered, and the row, with its next run, and the entry unless the interval has 2^31 seconds or more; every schedule stays accounted for exactly if the row came |
| Webhook.FireTaskWebhook | app/scheduler/executor.py:48-80 | Success exactly for 2xx replies, the status of the reply exactly when one came, an error exactly for failures, quoting the three digits of the status or the reason |
| TaskService.ManualSteps | app/routes/tasks.py:224-266 | An undisturbed manual run appends exactly one execution entry with the reply's outcome, whatever the webhook answers, and changes nothing else; an invisible task is left alone |
| TaskService.Service.constructor | app/scheduler/executor.py:29-39 | The empty service satisfies every promise |
| TaskService.Service.GetTaskOr404 | app/routes/tasks.py:55-65 | A task is found exactly when its row exists and belongs to the user |
| TaskService.Service.CommitChanges | app/db/dependencies.py:17-22 | A session commit sets the active flag, sets the next run only if the session changed it, and adds the history entry; when the row has vanished it changes nothing |
| TaskService.Service.DeactivateTask | app/routes/tasks.py:278-298 | 404 exactly for tasks that are not the user's; an active task gets its row paused without a next run, one entry and its schedule dropped; a paused one stays as it is |
| TaskService.Service.ActivateTask | app/routes/tasks.py:311-343 | 404 exactly for tasks that are not the user's; 422 exactly for a paused task without a next fire, or with a once-time not after now; a paused task that can run gets its row active with that next run, one entry and its schedule registered; everything else stays as it is |
| TaskService.Service.DeleteTask | app/routes/tasks.py:354-367 | 404 exactly for tasks that are not the user's; otherwise the row is gone, the history has one more entry with the row's URL and schedule, and the schedule of an active task is dropped |
| TaskService.Service.RunTask | app/routes/tasks.py:224-266 | 404 exactly for tasks that are not the user's; otherwise one execution entry with the outcome of the reply, which is there even when the answer is 502, and rows and schedules are untouched |
| TaskService.Service.ExecuteLoad | app/scheduler/executor.py:103-110 | An execution begins exactly when the row exists and is active, and holds the row as it was |
| TaskService.Service.ExecuteCall | app/scheduler/executor.py:112-112 | The executor keeps task, row and place of its load and gets the outcome of this reply; the call is counted and nothing else changes |
| TaskService.Service.ExecuteCommit | app/scheduler/executor.py:113-131 | The entry with the executor's own outcome is appended unless a successful once-task has lost its row; exactly in that case and for a failed call the execution raises; a successful once-task is paused without a next run and owes its removal, no other row changes |
| TaskService.Service.ExecuteRemove | app/scheduler/executor.py:133-134 | Exactly the schedule of the executed once-task is dropped |
| Prompts.SuccessiveIsSubstituteIff | app/prompts/loader.py:72-78 | For well-formed names and bracketless values, the successive replacements equal one simultaneous left-to-right substitution on every template if and only if no value lies inside a name replaced later |
| Prompts.SuccessiveIsSubstitute | app/prompts/loader.py:74-78 | The equality itself, for every template, from the condition on the values |
| Prompts.PassCreatesOnlyAround | app/prompts/loader.py:78-78 | A pass creates an occurrence of the rest of a name only around the value it writes |
| Prompts.PassThenSubstitute | app/prompts/loader.py:78-78 | One pass followed by substituting the others is substituting all of them |
| Prompts.Trap | app/prompts/loader.py:74-78 | When a value lies inside a later name, a template on which the passes replace text that the template never held |
| Prompts.SuccessiveAnyOrder | app/prompts/loader.py:74-78 | When the values stay clear of every name, the passes give the same result in every order |
| Prompts.CheckSeesUnknown | app/prompts/loader.py:79-80 | After the substitution a "[INJECT_" remains exactly when the template holds one that begins no known placeholder |
| Prompts.CheckIsRightIff | app/prompts/loader.py:79-81 | Under the condition of the substitution theorem, the final check accepts exactly the templates whose markers are all known, for all templates, if and only if no value can make up an "[INJECT_" with what stands around it |
| Prompts.RenderTriggerParsePrompt | app/prompts/loader.py:72-81 | The loop renders the successive replacements, fails exactly when a marker is left, and gives the simultaneous substitution under the conditions above |
| PromptPlaceholders.RenderingIsSubstitutionIff | app/prompts/loader.py:7-14 | For the program's own eight names and the values of any time and zone, the passes are a simultaneous substitution of every template if and only if the zone name lies inside none of the six names replaced after it |
| PromptPlaceholders.RenderingCheckIsRightIff | app/prompts/loader.py:47-81 | For a zone name inside none of the six later names, the final check is right about every template if and only if the zone name cannot make up an "[INJECT_" |
| PromptPlaceholders.ValuesAreStamps | app/prompts/loader.py:47-69 | Seven of the eight values are dates or date-times in ISO form, the other one is the zone name |
| PromptPlaceholders.PlaceholderValues | app/prompts/loader.py:47-69 | By the text of each marker, read back from the value put in its place: the current time is now, the two times of tomorrow are 9:00 and 8:15 on the next day, one hour later is 3600 seconds after now, each with the zone's offset at its own wall-clock time |
| PromptPlaceholders.ZoneAndDateValues | app/prompts/loader.py:52-54 | The zone marker gets the zone's name and the date marker the date of now |
| PromptPlaceholders.WeekdayValues | app/prompts/loader.py:40-64 | The Friday marker gets a Friday at 17:00 and the Tuesday marker a Tuesday at 9:00, each one to seven days ahead |
| PromptPlaceholders.PlaceholdersFailIff | app/prompts/loader.py:47-69 | The values cannot be made exactly from 9999-12-28 on, when the calendar has no Tuesday left |
| PromptPlaceholders.StampIsClear | app/prompts/loader.py:52-69 | An ISO value lies inside no name and completes no broken marker |
| PromptPlaceholders.UtcIsClear | app/services/trigger_parse.py:129-134 | The default zone name meets every condition |
| IsoFormat.ParsePrint | app/scheduler/triggers.py:59-64 | Reading back a printed date-time gives it back, for all naive and aware date-times with whole-minute offsets |
| IsoFormat.PrintParse | app/scheduler/triggers.py:47-47 | Printing a read text gives it back exactly for the canonical spellings |
| IsoFormat.PrintedChars | app/scheduler/triggers.py:64-64 | What the printer can write: digits and separators, at least 19 of them, a digit first |
| IsoFormat.PrintedLayout | app/scheduler/triggers.py:64-64 | Where year, month, day, hour, minute, second, fraction and offset stand in the printed text |
| IsoFormat.ReadsIff | app/scheduler/triggers.py:47-47 | A text is read as a date-time if and only if it spells it: its date and time with any character between them, its fraction or none for zero, its offset or, for UTC, "Z" or "-00:00" |
| Calendar.FromOrdinalInverse | app/prompts/loader.py:54-54 | Dates and their ordinals correspond one to one over years 1 to 9999 |
| Calendar.OrdinalsCountDays | app/prompts/loader.py:54-54 | The day after a date, by the lengths of the months and the leap years written out, has the next ordinal |
| Calendar.FirstAndLast | app/prompts/loader.py:54-54 | 0001-01-01 is day 1 and 9999-12-31 is day 3652059 |
| Calendar.WeekdaysFollow | app/prompts/loader.py:40-44 | The weekdays go round from Monday, 0, to Sunday, 6, and 2024-01-01 is a Monday |
| Triggers.StoreAndRebuild | app/scheduler/triggers.py:38-70 | Encoding a valid specification into the stored dictionary and building the trigger from the row equals building it directly, a naive time meaning UTC |
| Triggers.StoredKeys | app/scheduler/triggers.py:55-70 | The stored object holds exactly the keys of its kind: the once-time as text that reads back as it, in UTC if it had no offset, the cron expression and zone, or the seconds |
| Triggers.StoredAlikeIff | app/scheduler/triggers.py:24-70 | Two valid specifications are stored alike if and only if they build the same trigger |
| Triggers.NextRunIs | app/scheduler/triggers.py:73-84 | The next run of a once-trigger is its own instant, in UTC if it has no offset, and that of a cron or interval trigger is what the library finds for that very expression and zone or number of seconds |
| Triggers.NextRunFromRow | app/scheduler/triggers.py:73-84 | The next run computed from the stored row is the one computed from the request |
| FireStream.TakeUpcoming | app/scheduler/triggers.py:87-98 | The skipping loop terminates on every strictly increasing stream, exhausted or unbounded, with the first `count` fires not before now |
| FireStream.ComputeUpcomingRunTimes | app/scheduler/triggers.py:101-113 | The same for a stored schedule: for cron the first `count` fires of the library's stream not before now, none missing; for an interval those of the multiples from its start, with closed forms; for once the single time if it is not past |
| FireStream.FirstFiresComplete | app/scheduler/triggers.py:93-98 | No fire is missing: one not before now is listed, or the list is full of earlier ones |
| FireStream.FirstFiresUnique | app/scheduler/triggers.py:93-98 | Stream, clock and count determine the list and the number of skipped fires |
| FireStream.IntervalUpcoming | app/scheduler/triggers.py:93-96 | An interval started at or before now skips exactly ceil((now - start) / period) fires, its first result lies in [now, now + period) and the others are a period apart |
| FireStream.OnceUpcoming | app/scheduler/triggers.py:95-98 | A once-trigger gives its single fire if it is not past, else nothing |
| TaskHistory.SnapshotAccepted | alembic/versions/2026_05_24_1400-b2c3d4e5f6a7_add_task_history.py:45-109 | The snapshot row of a valid task always has the shape the constraint asks for and is accepted exactly when the columns can hold its schedule |
| TaskHistory.ShapeIff | alembic/versions/2026_05_24_1400-b2c3d4e5f6a7_add_task_history.py:45-109 | The constraint lets in exactly the rows the recorders write: snapshots, bare activations and deactivations, and executions that have a status if they succeeded |
| TaskHistory.SnapshotSurvives | app/schemas/history.py:89-128 | An accepted snapshot reads back with the same URL and the same schedule: cron expression and zone, interval, or instant |
| TaskHistory.ColumnsOfStored | app/services/task_history.py:11-40 | The recorder reads from a stored dictionary exactly the columns of its specification, the once-time as the instant the scheduler uses |
| TaskHistory.LifecycleSurvives | app/services/task_history.py:74-88 | Activation and deactivation rows are accepted and read back as such |
| TaskHistory.ExecutionSurvives | app/services/task_history.py:103-126 | The row of every webhook outcome is accepted and reads back with source, URL and outcome unchanged |
| StoredHistory.RunsAreStored | app/schemas/history.py:104-139 | Each history entry of every run is a row the table accepts and reads back as the recorded event, for every stored specification of that schedule |
| StoredHistory.TableTellsState | alembic/versions/2026_05_24_1400-b2c3d4e5f6a7_add_task_history.py:45-109 | In every state of every run the stored rows of a task, replayed by their columns, say whether the task has a row and whether it is active |
| StoredHistory.TableExists | app/services/task_history.py:52-126 | Every run has such a table |
| TriggerParse.CallLlm | app/services/trigger_parse.py:95-126 | The formats are tried in order until a call does not raise; the exact calls made, three at most, and the result: the stripped text, or which error, by the deciding answer |
| TriggerParse.ParseWithRetries | app/services/trigger_parse.py:155-196 | The loop ends at the deciding attempt with its outcome; each attempt's calls carry the messages of its time; at most three calls per attempt |
| TriggerParse.ParseOnce | app/services/trigger_parse.py:190-194 | One attempt consumes its own answers and gives the outcome of the attempt |
| TriggerParse.DecidesUnique | app/services/trigger_parse.py:183-189 | There is one deciding attempt: the first that is no parse error, or the last allowed one |
| TriggerParse.MessagesInOrder | app/services/trigger_parse.py:172-181 | The messages are the initial ones followed by one correction per rejected attempt, the i-th quoting the i-th failure in the fixed sentence |
| TriggerParse.StartBounds | app/services/trigger_parse.py:95-126 | n attempts take between n and 3n completion calls |
| TriggerParse.AcceptedIsSound | app/services/trigger_parse.py:63-92 | An accepted reply is schedulable and is a read date-time, a valid cron expression in the asked zone or a positive interval |
| TriggerParse.AcceptedIff | app/schemas/trigger_parse.py:44-93 | A reply is accepted as a specification if and only if it decodes to fields of its own kind alone, can be scheduled and says exactly that: its valid cron expression in the asked zone, its positive count times 1, 60, 3600, 86400 or 604800 seconds, or the date-time its own text reads as |
| TriggerParse.RetriedIff | app/services/trigger_parse.py:54-92 | Every other reply is a parse error, which is retried, except a JSON value that is no object, which is not |
| TriggerParse.RejectedFor | app/services/trigger_parse.py:63-92 | Each error text exactly in its own case |
| TriggerParse.AttemptAcceptedIff | app/services/trigger_parse.py:190-194 | An attempt is accepted as a specification if and only if the first of its at most three answers that is no failure holds a text that, stripped, asks for exactly that |
| TriggerParse.AttemptFailsIff | app/services/trigger_parse.py:47-60 | An attempt ends the loop with an error if and only if that answer has no usable choice or its text is a JSON value that is no object |
| Text.StripIs | app/services/trigger_parse.py:51-51 | The stripped text is the part between the first and the last character that is no white space |
| ScheduleReading.ParseTriggerTextToSpec | app/services/trigger_parse.py:129-196 | The model is asked exactly when the text holds no relative phrase and the prompt renders; a phrase gives its once-trigger with the zone's offset, never before now, if that can be scheduled; each other outcome without a call is its own error; otherwise the outcome is the retry loop's over the prompt and the text |
| ScheduleReading.SystemPromptIs | app/services/trigger_parse.py:145-153 | Unless the zone name lies inside a later placeholder name, the prompt is the template with every marker replaced at once, and there is none exactly if the file cannot be read, if the values overflow or if the start of a marker is left |
| RelativeSchedule.TryParseOnceSchedule | app/parsing/relative_schedule.py:105-146 | The parser's branches in order, whose meaning the lemmas of RelativePhrases give; a phrase it accepts is a real date-time not before now in the zone's wall clock |
| RelativePhrases.DurationPhrase | app/parsing/relative_schedule.py:111-130 | The first "in <amount> <unit>" of a text without recurring words, in any case and at any place, decides: n times 1, 60, 3600 or 86400 seconds after now for digits, "a", "an" and "one" to "ten", an overflow past year 9999, and no phrase if the amount names no number |
| RelativePhrases.DurationWritten | app/parsing/relative_schedule.py:55-58 | Put together from a lead word, white space, an amount and a unit, between any two pieces of text that do not run into it, such a phrase stands where it was written |
| RelativePhrases.TomorrowPhrase | app/parsing/relative_schedule.py:132-135 | Without a duration, "tomorrow" gives the next day at the text's time of day: 9:00 for morning, 12:00 for noon, 14:00 for afternoon, 18:00 for evening, 0:00 for midnight, else the written time, else 9:00; an overflow exactly past year 9999 |
| RelativePhrases.NextPhrase | app/parsing/relative_schedule.py:137-144 | Without these, the first "next <weekday>" gives the day with that weekday's number, one to seven days ahead, at the text's time of day |
| RelativePhrases.WrittenTime | app/parsing/relative_schedule.py:50-53 | The first written time of any text, with or without minutes, is read as on a 12-hour clock, 12 being midnight or noon, and is none past 23:59 |
| RelativePhrases.NoWrittenTime | app/parsing/relative_schedule.py:75-78 | A text in which no time stands anywhere has none |
| RelativePhrases.RecurringIff | app/parsing/relative_schedule.py:7-13 | The eleven words that make a schedule recurring |
| RelativePhrases.NoPhraseIff | app/parsing/relative_schedule.py:105-146 | Exactly these texts are left to the language model: those with a recurring word, those whose first duration has an amount that names no number, and those without a duration, "tomorrow" and a next weekday |
| RelativeSchedule.PhraseIsNotPast | app/parsing/relative_schedule.py:111-144 | A phrase is never before now on the wall clock, and equals now exactly for durations of zero |
| RelativeSchedule.NextWeekdayLands | app/parsing/relative_schedule.py:136-144 | "next <weekday>" lands on that weekday at the least positive distance, 1 to 7 days, on the date the prompt loader computes |
| RelativeSchedule.ScanReadsPrintedTime | app/parsing/relative_schedule.py:50-53 | Any 24-hour time written in 12-hour form, after any text without digits and before any text that does not continue the word, is read back, when no time-of-day keyword occurs |
| RelativeSchedule.AtIsIdle | app/parsing/relative_schedule.py:50-53 | The optional leading "at" never changes what the leftmost search returns |
| RelativeSchedule.ParseAtTime | app/parsing/relative_schedule.py:75-89 | Every result is a valid clock time, equal to the search result converted to 24 hours |
| RelativeSchedule.ParseTimeOfDay | app/parsing/relative_schedule.py:92-97 | The first keyword of the table that occurs decides, else the written time; every result is a valid clock time |
| RelativeSchedule.TargetOnDay | app/parsing/relative_schedule.py:100-102 | The result is on the day asked for, at a full minute, later than now, unless that lies past year 9999 |
| Weekdays.NextWeekday | app/prompts/loader.py:40-44 | The result is on the asked weekday, 1 to 7 days ahead, at the same time of day |
| Weekdays.DaysAheadIsLeast | app/parsing/relative_schedule.py:139-141 | No day in between is that weekday |
| Paging.PagesConcatenate | app/routes/history.py:47-51 | With distinct sort keys the pages at offsets 0, L, 2L, ... concatenate to the ordered list, whichever answers the database gives |
| Paging.EachRowOnceIff | app/routes/history.py:47-52 | Enough pages show each row exactly once, in whatever order the database lists tied rows, if and only if no page boundary separates two tied rows |
| Paging.OneListing | app/routes/history.py:15-17 | With distinct keys there is only one answer to an ordered query |
| Paging.CleanCutShared | app/routes/history.py:50-50 | A cut between rows with different keys cuts every answer into the same two sets of rows |
| Paging.TieLosesRow | app/routes/history.py:50-50 | Two rows tied across a boundary: answers under which the walk over the pages misses one of them |
| Listings.ListPage | app/routes/history.py:42-52 | Count and page are taken over the same conditions |
| Listings.HistoryFilters | app/routes/history.py:20-31 | With the user's scope the collected filters hold exactly for the rows the query asks for, the path's task before the query's |
| Listings.ListHistory | app/routes/history.py:34-58 | The entries of one page of the wanted rows, min(limit, max(0, total - offset)) of them, by creation time in the asked direction, and the total is the number of wanted rows |
| Listings.HistoryPagesConcatenate | app/routes/history.py:34-58 | On a fixed table with distinct creation times the pages of one query concatenate to the ordered wanted rows |
| Listings.ListTasks | app/routes/tasks.py:161-187 | The same for tasks: every listed task is one the user asked for, later ones stand higher or lower in the asked column by the asked direction, and those without a next run come last |
| Listings.TaskPagesConcatenate | app/routes/tasks.py:161-187 | On a fixed table with distinct sort keys the pages of one task query concatenate to the ordered wanted tasks |
| Listings.TaskPagesShowEachOnceIff | app/routes/tasks.py:83-93 | Enough pages of a task query show each wanted task exactly once, whatever the database makes of ties, if and only if no page boundary separates two tied tasks |
| Listings.PausedTasksAreTied | app/routes/tasks.py:91-93 | Sorting by `next_run_at` with more paused tasks than fit on a page: the pages do not show each task exactly once for every answer of the database |

## Left out

- Task parameters, webhook tokens, authentication, settings, logging, engine retries and migrations: plumbing without a property of its own.
- Scheduler internals: the scheduler is a set of task ids that may fire or be dropped at any time; the search for cron fires is an arbitrary strictly increasing stream.
- Task ids are fresh random UUIDs: an insert never meets an id used before.
- An exception inside a background job and a crash between two steps: an executor, request or run that stops between steps is a run that never takes the next one.
- "Active implies registered" is not promised by the program: a once-task whose call failed stays active without a schedule.
- Row-level security in the database: reads of a user see the user's rows, the executor sees all rows, and no write is refused by a policy.
- Whole requests run their background job before their commit, as the framework does; split requests leave the order open, so that theorems about one order name it.
- LifecycleSchedules.TaskNextRun: takes the answers of the scheduler library about one task to hang together: whether its trigger has a fire is settled at its creation, and a trigger without one has none later.  All other theorems hold for arbitrary answers.
- Time zone databases: a zone is a name and an offset at each wall-clock time, phrases move on the wall clock, and offsets are whole minutes; folds of the wall clock are not distinguished.
- RelativeSchedule.TryParseOnceSchedule: reads ASCII texts; digits, white space and letter cases outside ASCII, which the patterns of the source also match, are not modelled.
- IsoFormat.PrintParse: about the spellings that the reader here reads, which are those with a six-digit fraction or none and an offset in hours and minutes or "Z"; `fromisoformat` accepts further ones.
- TriggerParse.ParseTriggerJson: JSON decoding, field validation, the cron validator and the library's scheduling test are arbitrary functions; error texts are shortened.  A reply that is JSON but no object raises an error that is not retried, because the logging of the failure itself fails on it (app/services/trigger_parse.py:58); the model follows the code.
- TriggerParse.ParseWithRetries: with a negative retry setting the decorator still makes one attempt, as modelled.
- TaskHistory.InsertAndRead: of the table's constraints and types it checks the shape constraint, the 32-bit integers and the range of UTC dates.
- FireStream.TakeUpcoming: the generator and the `islice` around it are one loop.
- TaskService.Service.RunTask: a manual run that nothing interrupts; interrupted ones are runs of the state machine.
- Listings.ListTasks: the response copy of a row is the row itself.
- Response copying, enum declarations, the health route, `parse_trigger_text` and `resolve_trigger_spec`: one call or one match each.
