# TaskZen core, modelled in Dafny

TaskZen is a task manager. It has projects, tagged tasks with due dates or
daily, weekly or monthly recurrence, and goals with logged progress. It also
has a dashboard and Telegram reminders. This project models its core logic
and proves properties of it:

- **The reminder evaluators.** The scheduled endpoint `POST
  /api/cron/reminders` (`CronReminders`) and the older in-browser component
  (`ClientReminders`) scan the tasks at an instant `now`. They send
  due-soon, imminent, overdue and daily-nudge reminders. A grow-only set of
  keys both suppresses and records the sends (`Dedup`).
- **The data layer's list logic** (`Store`). This covers:
  - tag-name normalisation and find-or-create;
  - the documents `addTask` and `updateTask` write;
  - the per-day progress upsert of `logProgress`;
  - the read path, which de-duplicates and chunks tag ids, re-attaches tags
    and sorts tasks newest first.
- **The task form** (`Forms`). This covers:
  - the schema and its recurring-task refinement;
  - `handleSubmit` (the time merge, tag parsing, recurrence and goal nulling);
  - `resetForm`;
  - the effect that clears fields when the recurring switch flips.
- **The dashboard aggregation** (`Dashboard`), shared by the home page and
  the dashboard page. It computes counts, the goal list, the seven-day
  completion histogram, per-project counts and the sorted upcoming list.
- **The small UI rules.** These are:
  - the task card's status, progress and display predicates (`TaskCard`);
  - the goal-progress card (`GoalProgress`);
  - the task detail dialog (`TaskDetail`);
  - the progress-log dialog (`ProgressDialog`);
  - the sidebar's add-project control (`ProjectSidebar`).

Shared modules:

- `Types` holds the data model and the calendar functions.
- Instants are integer milliseconds in local time.
- `DayOf`, `HourOf` and `MinuteOf` give the calendar day, hour and minute.
- `Seqs` holds list helpers: `[...new Set]`, `filter`, `flatMap` and a
  stable sort.
- `Text` holds `trim`, `split`, `join` and `toLowerCase`.

State the source updates in place is modelled as classes:

- the reminder key set (`Dedup.Ledger`);
- the notification channel (`Dedup.Channel`);
- the two collections and the id counter (`Store.Database`);
- the form state (`Forms.TaskForm`, `ProgressDialog.ProgressLogDialog`,
  `ProjectSidebar.ProjectList`);
- the endpoint and the component with their key records
  (`CronReminders.ReminderRoute`, `ClientReminders.ReminderSystem`).

Each such method is proved against a function:

- The reminder scans match `Pass`. `Pass` is a fold (`Dedup.Fire`) over
  the candidate reminders.
- `Store` methods match `FindOrCreate`, `Upsert` and `AllWithTags`.
- The form handlers match `Submit` and `ResetValues`.

Lemmas then relate those functions to the rules as the source states them.

Two behaviours of the code that the model keeps as written:

- The scheduled endpoint records a reminder key after every attempted send, whether or not Telegram accepted the message (`src/app/api/cron/reminders/route.ts:56-57`). A failed send is therefore not retried.
- The in-browser component keys due-soon and overdue reminders by the day of `now`, not of the deadline (`src/components/reminder-system.tsx:35`). A due-soon window that spans midnight is therefore reminded twice (`ClientReminders.DueSoonAcrossMidnight`).

## Model

| member | source | states |
|---|---|---|
| Dedup.FireRecords | src/app/api/cron/reminders/route.ts:57 | after a pass the key record is the old record plus the key of every candidate considered, so keys are never removed and a key is recorded whether or not its send succeeded |
| Dedup.FiredKeysExactly | src/app/api/cron/reminders/route.ts:53-57 | a key is sent in a pass iff some candidate carries it and it was not recorded before the pass |
| Dedup.FiredOnce | src/app/api/cron/reminders/route.ts:66-69 | no key sent in a pass was already recorded, and no key is sent twice within one pass |
| Dedup.FiredAreCandidates | src/app/api/cron/reminders/route.ts:49-58 | every dispatch sent is one of the candidates the rules produced |
| Dedup.SecondPassSilent | src/app/api/cron/reminders/route.ts:18 | repeating a pass against the record it left sends nothing |
| Dedup.NeverSentTwice | src/app/api/cron/reminders/route.ts:18 | across two passes sharing one record, no key sent by the first is sent by the second, whatever the second's candidates |
| Dedup.KeySetAppend | src/app/api/cron/reminders/route.ts:38-98 | the keys of a concatenation of candidate lists are the union of their keys |
| Dedup.FireSnoc | src/app/api/cron/reminders/route.ts:38-98 | one more candidate is one more step of the fold |
| Dedup.Channel.Send | src/lib/telegram.ts:7-38 | every attempted message is appended to the outbox; delivery is possible only when the channel is configured |
| Dedup.Ledger.NotifyOnce | src/app/api/cron/reminders/route.ts:53-57 | a recorded key changes nothing; a new key is sent once and then recorded; the record only grows |
| Dedup.Ledger.Consider | src/components/reminder-system.tsx:47-51 | considering one more candidate keeps the record and the outbox exactly where the fold leaves them |
| CronReminders.ReminderRoute.constructor | src/app/api/cron/reminders/route.ts:18 | the module-level key set starts empty |
| CronReminders.ReminderRoute.Post | src/app/api/cron/reminders/route.ts:24-109 | a header other than `Bearer <CRON_SECRET>` gets 401 with no send and no key added; a failed task read gets the 500 reply carrying the error; otherwise exactly the messages of `Pass` are sent, in order, and the record becomes `Pass`'s record |
| CronReminders.ReminderRoute.ScanAll | src/app/api/cron/reminders/route.ts:38-98 | the loop over the tasks leaves the record and the outbox where the fold over all tasks' candidates leaves them |
| CronReminders.ReminderRoute.ScanTask | src/app/api/cron/reminders/route.ts:39-97 | one non-completed task's deadline checks followed by its daily-nudge check add exactly that task's candidates to the fold |
| CronReminders.ReminderRoute.ScanDeadline | src/app/api/cron/reminders/route.ts:42-81 | for a task with a due date and no recurrence: the due-soon, then imminent (only while the deadline is still ahead), then overdue checks, in that order |
| CronReminders.ReminderRoute.ScanDueSoon | src/app/api/cron/reminders/route.ts:46-58 | due-soon is considered iff `due - 1 day < now < due` and `now` is not on the due date's day, under the key of the due date's day |
| CronReminders.ReminderRoute.ScanImminent | src/app/api/cron/reminders/route.ts:61-72 | the loop over the windows 30 and 10 considers a window's reminder iff `window - 5 < minutesUntilDue <= window`, keyed by window and the due date's hour |
| CronReminders.ReminderRoute.ScanOverdue | src/app/api/cron/reminders/route.ts:74-80 | overdue is considered iff `now` is after the deadline, under the key of the due date's day |
| CronReminders.CandidatesStep | src/app/api/cron/reminders/route.ts:38-39 | the candidates of a task prefix grow by the next task's candidates; a completed task adds none |
| CronReminders.ImminentKeys | src/app/api/cron/reminders/route.ts:63-71 | an imminent key is produced iff its window is among the windows, its hour stamp is the due date's and the minutes until the deadline lie in that window's band |
| CronReminders.TaskCandidateKeys | src/app/api/cron/reminders/route.ts:39-97 | one task's candidate keys are exactly the keys the rule table `ReminderDue` calls for |
| CronReminders.CandidateKeys | src/app/api/cron/reminders/route.ts:38-98 | a key is among a scan's candidates iff some task's rules call for it |
| CronReminders.PassSends | src/app/api/cron/reminders/route.ts:38-98 | a key is sent iff it is new and some task's rules call for it; afterwards the record holds exactly the old keys and every key called for |
| CronReminders.PassSendsForTask | src/app/api/cron/reminders/route.ts:38-98 | with distinct task ids, a key of task `i` is sent iff it is new and that task's own rules call for it |
| CronReminders.PassSingle | src/app/api/cron/reminders/route.ts:38-98 | a pass over a single task sends, and records, exactly the new keys its rules call for |
| CronReminders.CompletedTaskSilent | src/app/api/cron/reminders/route.ts:39 | a completed task causes no send and adds no key |
| CronReminders.KindExclusive | src/app/api/cron/reminders/route.ts:42-90 | deadline reminders go only to tasks with a due date and no recurrence, the nudge only to daily tasks; weekly and monthly tasks never get any reminder |
| CronReminders.OneImminentPerPass | src/app/api/cron/reminders/route.ts:61-72 | the two imminent bands are disjoint, so at most one imminent reminder is sent per task per pass |
| CronReminders.DueSoonExcludesOverdue | src/app/api/cron/reminders/route.ts:46-80 | due-soon and overdue are never both sent for a task in one pass |
| CronReminders.SecondPassSendsNothing | src/app/api/cron/reminders/route.ts:18-98 | a second call with the same `now` and tasks sends nothing |
| CronReminders.LaterPassNeverResends | src/app/api/cron/reminders/route.ts:18 | a later call, with any tasks at any instant, never resends a key an earlier call sent |
| CronReminders.ScenarioDue | src/app/api/cron/reminders/route.ts:46-80 | between 1 and 59 minutes before a deadline at 01:00 or later, the only keys due are imminent keys of a window whose band holds the minute count |
| CronReminders.ScenarioPass | src/app/api/cron/reminders/route.ts:61-72 | a call `m` minutes before such a deadline sends exactly the new imminent keys of the bands holding `m` |
| CronReminders.ImminentAt28 | src/app/api/cron/reminders/route.ts:66 | 28 minutes before a deadline only the 30-minute band holds |
| CronReminders.ImminentAt9 | src/app/api/cron/reminders/route.ts:66 | 9 minutes before a deadline only the 10-minute band holds |
| CronReminders.ScenarioFirstPoll | src/app/api/cron/reminders/route.ts:61-72 | 28 minutes before the deadline, with nothing recorded, exactly the 30-minute reminder is sent and recorded |
| CronReminders.ScenarioQuietPoll | src/app/api/cron/reminders/route.ts:61-72 | 23 minutes before the deadline nothing is sent and the record is unchanged |
| CronReminders.ScenarioLastPoll | src/app/api/cron/reminders/route.ts:61-72 | 9 minutes before the deadline exactly the 10-minute reminder is sent, unless already recorded |
| CronReminders.ImminentScenario | src/app/api/cron/reminders/route.ts:61-72 | polling at 28, 23 and 9 minutes before a deadline sends the 30-minute reminder, then nothing, then the 10-minute reminder |
| CronReminders.MinutesAtPoll | src/app/api/cron/reminders/route.ts:61 | before the deadline, each 5-minute call sees exactly 5 whole minutes fewer |
| CronReminders.PollingHitsBand | src/app/api/cron/reminders/route.ts:61-72 | calling every 5 minutes from at least `w` minutes before a deadline, some call finds the window-`w` imminent reminder due |
| CronReminders.PollingHitsBandOnce | src/app/api/cron/reminders/route.ts:61-72 | no two calls of that schedule find the same window's reminder due |
| CronReminders.DueSoonScenario | src/app/api/cron/reminders/route.ts:45-58 | for a 10:00 deadline, a call at 18:00 the evening before sends only the due-soon reminder, and a call at 09:00 on the day sends nothing |
| CronReminders.NudgeBefore19 | src/app/api/cron/reminders/route.ts:88-90 | a call at 18:59 sends a daily task nothing and leaves the record as it was |
| CronReminders.NudgeFrom19 | src/app/api/cron/reminders/route.ts:84-97 | a call at 19:00 or later on a day with nothing logged sends the day's nudge exactly when it is not yet recorded, and records it |
| CronReminders.NudgeScenario | src/app/api/cron/reminders/route.ts:84-97 | a daily task with nothing logged gets nothing at 18:59, the nudge at 19:00 and nothing more at 19:30 |
| CronReminders.LoggedTodaySilent | src/app/api/cron/reminders/route.ts:86-89 | a daily task with progress logged today gets nothing at any call that day |
| ClientReminders.ReminderSystem.constructor | src/components/reminder-system.tsx:24 | the ref's key set starts empty |
| ClientReminders.ReminderSystem.CheckReminders | src/components/reminder-system.tsx:27-79 | nothing is sent or recorded while loading or without tasks; otherwise exactly the messages of `Pass` are sent and the record becomes `Pass`'s record |
| ClientReminders.ReminderSystem.ScanAll | src/components/reminder-system.tsx:32-78 | the loop over the tasks leaves the record and outbox where the fold over all candidates leaves them |
| ClientReminders.ReminderSystem.ScanTask | src/components/reminder-system.tsx:33-77 | one non-completed task's deadline and nudge checks add exactly its candidates to the fold |
| ClientReminders.ReminderSystem.ScanDeadline | src/components/reminder-system.tsx:38-61 | for a task with a due date and no recurrence, due-soon is considered iff `due - 1 hour < now < due` and overdue iff `now` is past the deadline, both keyed by the day of `now` |
| ClientReminders.ReminderSystem.ScanRecurring | src/components/reminder-system.tsx:64-77 | the nudge is considered for a daily task with no progress dated today at 19:00 or later |
| ClientReminders.CandidatesStep | src/components/reminder-system.tsx:32-33 | a task prefix's candidates grow by the next task's; a completed task adds none |
| ClientReminders.TaskCandidateKeys | src/components/reminder-system.tsx:33-77 | one task's candidate keys are exactly those its rule table calls for |
| ClientReminders.CandidateKeys | src/components/reminder-system.tsx:32-78 | a key is a candidate iff some task's rules call for it |
| ClientReminders.PassSends | src/components/reminder-system.tsx:32-78 | a key is sent iff it is new and called for; the record gains every key called for |
| ClientReminders.PassSendsForTask | src/components/reminder-system.tsx:33 | with distinct ids, task `i`'s keys follow its own rules alone, and a completed task gets nothing |
| ClientReminders.KeysCarryToday | src/components/reminder-system.tsx:35 | every key sent by a scan carries the day of `now` |
| ClientReminders.SecondPassSendsNothing | src/components/reminder-system.tsx:24-77 | a second scan with the same `now` and tasks sends nothing |
| ClientReminders.OverdueOncePerDay | src/components/reminder-system.tsx:35-60 | an overdue task is reminded once per calendar day: not again later the same day, but again on a later day |
| ClientReminders.DueSoonAcrossMidnight | src/components/reminder-system.tsx:35-52 | a deadline at 00:30 gets due-soon reminders at 23:45 the evening before and again at 00:10, because the key carries the day of `now` |
| Store.NormalizeNameForm | src/lib/firebase.ts:46 | a name that is non-empty after lower-casing and trimming is in stored form: lower case, trimmed, non-empty |
| Store.NormalizeTagName | src/lib/firebase.ts:46 | a stored-form name normalises to itself |
| Store.NonEmptyImagesMembers | src/lib/firebase.ts:46 | the mapped-and-filtered list holds exactly the non-empty images of the names |
| Store.NormalizeTagNames | src/lib/firebase.ts:46-47 | the normalised list is free of duplicates and every element is in stored form |
| Store.NormalizeTagNamesMembers | src/lib/firebase.ts:46-47 | a name is in the normalised list iff it is the non-empty normal form of some input name |
| Store.NormalizeTagNamesIdempotent | src/lib/firebase.ts:46-47 | normalising an already normalised list changes nothing |
| Store.NewNames | src/lib/firebase.ts:58 | the new names are names of the list that are not already stored |
| Store.NewNamesMembers | src/lib/firebase.ts:58 | a name is new iff it is in the list and not stored |
| Store.NewNamesDistinct | src/lib/firebase.ts:58 | filtering a list without repeats keeps it without repeats |
| Store.FreshTags | src/lib/firebase.ts:61-66 | the created tags carry the new names in order with consecutive fresh ids |
| Store.BuildTagBatch | src/lib/firebase.ts:61-66 | the batch loop builds exactly those tags and their ids, in name order |
| Store.ExistingIdsMembers | src/lib/firebase.ts:49-59 | an id comes back from the `in` query iff a stored tag with that id carries an asked-for name |
| Store.CreatedTagsValid | src/lib/firebase.ts:61-69 | creating tags keeps the stored tags valid: distinct ids below the counter, distinct stored-form names |
| Store.NamesCovered | src/lib/firebase.ts:58-67 | every asked-for name is carried by a stored or created tag whose id is returned |
| Store.IdsNamed | src/lib/firebase.ts:59-67 | every returned id is that of a stored or created tag carrying an asked-for name |
| Store.FindOrCreateCovers | src/lib/firebase.ts:42-71 | every normalised name is carried by a stored or created tag whose id is returned, and every returned id belongs to a tag carrying a normalised name |
| Store.FindOrCreateAgain | src/lib/firebase.ts:42-71 | running find-or-create again on the same names creates no tag |
| Store.Database.constructor | src/lib/firebase.ts:37-39 | both collections start empty |
| Store.Database.FindOrCreateTags | src/lib/firebase.ts:42-71 | follows `FindOrCreate` (an empty list gives `[]`; an `in` query over zero or more than 30 distinct names fails): a failure writes nothing; a success appends exactly the created tags, advances the counter by their number and returns the ids; tasks are untouched |
| Store.Database.ExistingTags | src/lib/firebase.ts:49-59 | the query's ids are the stored tags named in the list, and the map knows a name iff a stored tag carries it |
| Store.Database.CreateTags | src/lib/firebase.ts:61-69 | the batch appends one tag per new name with ids from the counter, and returns their ids |
| Store.NewTaskDocument | src/lib/firebase.ts:96-104 | a new task stores `progress = []` iff it has a goal, and no progress otherwise |
| Store.Database.AddTask | src/lib/firebase.ts:88-108 | a tag failure writes nothing; otherwise exactly one new task document is appended, with a fresh id and the tag ids find-or-create returned |
| Store.PatchTagIds | src/lib/firebase.ts:118-121 | a patch changes the tag ids only when it supplies tags, and never the id or the creation time |
| Store.Database.UpdateTask | src/lib/firebase.ts:110-129 | tags are touched only when the patch supplies them; a missing task document fails; otherwise only that document changes, to the patched task |
| Store.FindDate | src/lib/firebase.ts:155 | the index found is the first entry with the date, or the length when there is none |
| Store.UpsertShape | src/lib/firebase.ts:159-170 | an existing date's entry is replaced in place, keeping the length and the other entries; otherwise the entry is appended |
| Store.UpsertKeepsUniqueDates | src/lib/firebase.ts:155-170 | with one entry per date, the upsert keeps one entry per date, the date then holds exactly the new entry, and every other date's entry survives |
| Store.UpsertSum | src/lib/firebase.ts:159-170 | the progress total changes by the new value minus the value replaced, or grows by the new value when appended |
| Store.Database.FindTask | src/lib/firebase.ts:139-140 | the position of the task document, if it exists |
| Store.Database.FindLogIndex | src/lib/firebase.ts:155 | `findIndex`: the first index with the date, or -1 |
| Store.Database.LogProgress | src/lib/firebase.ts:138-173 | a missing task fails with "Task not found!" and nothing changes; otherwise only that task changes, its progress becoming the upsert of the log into it |
| Store.ChunkIds | src/lib/firebase.ts:201-204 | the chunks concatenate to the id list, each holds 1 to 30 ids, and all but the last hold exactly 30 |
| Store.ResolveTags | src/lib/firebase.ts:218 | resolved tags are stored tags whose ids are among the task's ids |
| Store.ResolveTagsIds | src/lib/firebase.ts:218 | the resolved tags' ids are the task's tag ids with unknown ids dropped, in order |
| Store.Database.ResolveFromMap | src/lib/firebase.ts:218 | mapping the ids through the fetched map and dropping misses gives the resolved tags |
| Store.Database.FetchTagChunks | src/lib/firebase.ts:206-214 | the map holds only stored tags under their ids, and every stored id of any chunk |
| Store.TagIdsCovered | src/lib/firebase.ts:197-204 | every tag id of every task lies in some chunk |
| Store.AllWithTags | src/lib/firebase.ts:217-219 | every task is read back with its tags resolved from its tag ids |
| Store.Database.FetchTasksWithTags | src/lib/firebase.ts:175-224 | an empty collection gives `[]`; otherwise the result is a permutation of the tasks with tags resolved, sorted newest first |
| Store.NoTagIds | src/lib/firebase.ts:199 | when there are no tag ids at all, every task has an empty tag-id list |
| Store.LookupUnique | src/lib/firebase.ts:212 | with distinct tag ids, looking up a stored tag's id finds that tag |
| Seqs.Dedupe | src/lib/firebase.ts:47 | `[...new Set(s)]`: no repeats, exactly the elements of the input, no longer than it, and in the order of their first occurrences in the input |
| Seqs.DedupeStep | src/lib/firebase.ts:47 | a new last element is appended after the de-duplicated front and a repeated one is dropped, keeping every promise of `Dedupe` |
| Seqs.DedupeDistinct | src/lib/firebase.ts:197 | de-duplicating a list without repeats leaves it unchanged |
| Seqs.SortBy | src/lib/firebase.ts:223 | the sort result is sorted by its key and a permutation of the input |
| Seqs.InsertBy | src/lib/firebase.ts:223 | inserting into a sorted list keeps it sorted and adds exactly the element |
| Seqs.FilterMembers | src/app/page.tsx:57 | a filter keeps exactly the elements satisfying the predicate |
| Seqs.FilterAppend | src/app/page.tsx:57 | filtering a concatenation filters each part in place, so order is kept |
| Seqs.FilterComplement | src/app/page.tsx:55-56 | the elements kept by a predicate and by its negation add up to the whole list |
| Seqs.FlattenMembers | src/lib/firebase.ts:197 | an element is in the concatenation iff it is in some piece |
| Text.Trim | src/lib/firebase.ts:46 | `trim` gives a trimmed string no longer than the input |
| Text.TrimIsSlice | src/lib/firebase.ts:46 | the trim is a slice `s[a..b]` of the input with only white space outside it |
| Text.TrimUnique | src/lib/firebase.ts:46 | a trimmed slice with only white space outside it is the trim, so the slice characterisation pins `trim` down |
| Text.TrimIdempotent | src/components/project-list.tsx:26-27 | trimming twice is trimming once |
| Text.TrimLeadingSpace | src/components/project-list.tsx:26 | a leading white-space character does not change the trim |
| Text.TrimTrailingSpace | src/components/project-list.tsx:26 | a trailing white-space character does not change the trim |
| Text.TrimEmptyIffBlank | src/components/project-list.tsx:26 | a string trims to nothing exactly when it is all white space |
| Text.ToLower | src/lib/firebase.ts:46 | `toLowerCase` maps each character, keeping the length |
| Text.Split | src/components/task-form.tsx:182 | `split` gives at least one piece and no piece contains the separator |
| Text.SplitJoin | src/components/task-form.tsx:182 | joining the pieces of `split` with the separator gives the string back |
| Text.SplitJoinTrim | src/components/task-form.tsx:182 | trimmed, separator-free pieces joined with separator-plus-space split and trim back to themselves |
| Forms.ParseNumber | src/components/task-form.tsx:175 | `Number` on a time piece: a blank piece gives 0, and any number read is non-negative (`None` stands for NaN) |
| Forms.MergeDueTime | src/components/task-form.tsx:173-177 | no due date stays none; an empty time leaves the date unchanged |
| Forms.SetHoursMinutes | src/components/task-form.tsx:176 | setting an hour and minute keeps the day and seconds and yields that hour and minute |
| Forms.ParsePad2 | src/components/task-form.tsx:175 | a two-digit rendering parses back to its number |
| Forms.MergeHHmm | src/components/task-form.tsx:174-176 | merging a typed `HH:mm` sets that hour, then that minute |
| Forms.MergeFormattedTime | src/components/task-form.tsx:173-177 | the time `resetForm` shows, merged back, gives the original date |
| Forms.MergeTypedTime | src/components/task-form.tsx:173-177 | a typed `HH:mm` lands the date on that hour and minute of the same day |
| Forms.ParseTags | src/components/task-form.tsx:182 | submitted tags are non-empty, trimmed and comma-free |
| Forms.ParseJoinedTags | src/components/task-form.tsx:182 | names joined with `", "` parse back to the same names when they are non-empty, trimmed and comma-free |
| Forms.ValidSubmission | src/components/task-form.tsx:64-72 | a valid form submits a recurrence and a goal exactly when recurring; a submitted goal has a positive target and no empty unit |
| Forms.ResetValues | src/components/task-form.tsx:116-146 | editing loads `isRecurring == !!recurrence`; a new task starts non-recurring with empty title and tags |
| Forms.ResetThenSubmit | src/components/task-form.tsx:116-188 | loading a task and submitting it unchanged gives back its title, description, project, due date, tag names and recurrence, and its goal when recurring with a non-zero target and non-empty unit |
| Forms.TaskForm.constructor | src/components/task-form.tsx:96-111 | the form mounts with the default values |
| Forms.TaskForm.RecurringChanged | src/components/task-form.tsx:155-167 | switching off clears recurrence and goal fields; switching on clears the due date and time; nothing else changes |
| Forms.TaskForm.SetRecurring | src/components/task-form.tsx:155-167 | flipping the switch runs the effect only when the value changed |
| Forms.TaskForm.Open | src/components/task-form.tsx:148-152 | opening loads `resetForm`'s values, followed by the effect when the switch changed |
| Forms.TaskForm.SubmitForm | src/components/task-form.tsx:170-188 | `handleSubmit` runs exactly on values the schema accepts, and passes on `Submit` of them |
| Forms.SwitchedOffSubmitsNoGoal | src/components/task-form.tsx:155-161 | after switching off and the effect, a submission has neither recurrence nor goal |
| Forms.SwitchedOnSubmitsNoDueDate | src/components/task-form.tsx:162-165 | after switching on and the effect, a submission has no due date |
| Dashboard.Compute | src/app/page.tsx:48-96 | null while loading, on error or without tasks or projects; otherwise `0 <= completed <= total`, `active = total - completed`, seven bars |
| Dashboard.ActiveCount | src/app/page.tsx:54-56 | the active count is the number of open tasks |
| Dashboard.GoalTasksExact | src/app/page.tsx:57 | the goal list holds exactly the tasks with a goal, in input order |
| Dashboard.Last7DaysShape | src/app/page.tsx:60 | the window is seven strictly ascending days ending today |
| Dashboard.Last7DaysIsRange | src/app/page.tsx:60 | the window is the days from six days ago to today |
| Dashboard.Histogram | src/app/page.tsx:61-71 | one bar per day of the window, labelled with that day |
| Dashboard.HistogramAt | src/app/page.tsx:61-71 | each bar counts the completed tasks last updated on its day |
| Dashboard.WeekBars | src/app/page.tsx:60-71 | the seven bars count days `today-6..today`, none exceeds the completed count, and together they count the completions in the week |
| Dashboard.LastWeekBars | src/app/page.tsx:55-71 | the dashboard's seven bars count the tasks completed on days `today-6..today`, none exceeds the completed count, and together they count the week's completions |
| Dashboard.CompletedOnBound | src/app/page.tsx:62-66 | a day's count never exceeds the completed tasks |
| Dashboard.HistogramSum | src/app/page.tsx:61-71 | bars over consecutive days add up to the completions in the whole range |
| Dashboard.TasksByProject | src/app/page.tsx:74-77 | every project entry has a positive count |
| Dashboard.TasksByProjectExact | src/app/page.tsx:74-77 | every entry is a project's name with its task count, every project with at least one task has its entry, and the list is empty iff no project has a task |
| Dashboard.UpcomingCandidatesMembers | src/app/page.tsx:81-84 | the filter keeps exactly the open tasks due on a day after today |
| Dashboard.UpcomingTasks | src/app/page.tsx:80-85 | every listed task is open and due after today |
| Dashboard.UpcomingExact | src/app/page.tsx:80-85 | the list holds exactly the open tasks due on a later day than today (today's and overdue ones excluded), in ascending due-date order |
| TaskCard.StatusByDay | src/components/task-item.tsx:40-46 | the status depends on days only: overdue iff due on an earlier day, due today iff today, upcoming iff later |
| TaskCard.Percentage | src/components/task-item.tsx:53-56 | 0 without a goal or with target 0; otherwise percentage times target is progress times 100 |
| TaskCard.PercentageReachesFull | src/components/task-item.tsx:53-56 | with a positive target, the percentage reaches 100 iff the progress reaches the target |
| TaskCard.PercentageMonotone | src/components/task-item.tsx:53-56 | more progress never shows a smaller percentage |
| TaskCard.Card | src/components/task-item.tsx:48-174 | checkbox iff no recurrence, repeat icon and recurrence badge iff recurrence; due badge iff a due date and no recurrence; title struck through iff completed; tag badges are the task's tags; goal bar and Log button iff a goal; current progress is the log sum (0 without logs) and the percentage is `Percentage` of it; red or amber only on open tasks |
| TaskCard.BadgeToneByDay | src/components/task-item.tsx:143-149 | on a one-off task with a due date: red iff open and due on an earlier day, amber iff open and due today |
| GoalProgress.Row | src/components/dashboard/goal-progress.tsx:16-23 | the row spreads the task, its progress sum (the sum of the log values, 0 without logs) and a percentage with `pct * target == current * 100`, reaching 100 iff the progress reaches the target |
| GoalProgress.Rows | src/components/dashboard/goal-progress.tsx:13-25 | no more rows than tasks; every row is a task with a positive target and its computed row |
| GoalProgress.RowsAreFiltered | src/components/dashboard/goal-progress.tsx:15 | the rows' tasks are exactly the tasks with a goal of positive target, in input order |
| GoalProgress.RowsMembers | src/components/dashboard/goal-progress.tsx:15 | a task gets a row iff it has a goal with positive target |
| GoalProgress.NotClamped | src/components/dashboard/goal-progress.tsx:18 | target 10 with logs 20 and 5 shows 250 percent |
| TaskDetail.FindProject | src/components/task-detail-modal.tsx:27-30 | the project found is one of the projects with the task's project id; none iff no project has it |
| TaskDetail.FindProjectUnique | src/components/task-detail-modal.tsx:29 | with distinct ids the lookup finds the one project carrying the id |
| TaskDetail.HasTimeIffPastFirstMinute | src/components/task-detail-modal.tsx:42-46 | a due date shows a time iff it is at least a minute past the start of its day |
| TaskDetail.MidnightHasNoTime | src/components/task-detail-modal.tsx:42-46 | a date picked without a time shows no time |
| TaskDetail.Detail | src/components/task-detail-modal.tsx:27-115 | nothing without a task; a due line iff a due date and no recurrence, a recurrence line iff a recurrence, never both; time only on the due line and only when the date has one; the project is `FindProject` of the task's project id; a goal section iff a goal; current progress is the log sum and the percentage is `Percentage` of it, 0 without a goal |
| ProgressDialog.Submit | src/components/progress-log-dialog.tsx:28-76 | a negative value is refused; a positive value with a task is logged under the form's date; zero, or no task, only closes |
| ProgressDialog.TotalOn | src/components/progress-log-dialog.tsx:78 | 0 when nothing is logged on the day |
| ProgressDialog.TotalOnEntry | src/components/progress-log-dialog.tsx:78 | with one entry per date, the figure is that date's entry |
| ProgressDialog.LoggedValueReplacesTotal | src/components/progress-log-dialog.tsx:69-76 | as written, after a log the day's figure is the value just entered |
| ProgressDialog.TwoLogsKeepOnlyTheSecond | src/components/progress-log-dialog.tsx:86 | logging 3 then 2 on one day leaves 2, not 5 |
| ProgressDialog.SubmitAdditive | src/components/progress-log-dialog.tsx:69-86 | corrected submit: same refusal and logging conditions, sending the day's figure plus the entered value |
| ProgressDialog.AdditiveLogAccumulates | src/components/progress-log-dialog.tsx:86 | with the corrected submit, each log adds its value to the day's figure |
| ProgressDialog.ProgressLogDialog.constructor | src/components/progress-log-dialog.tsx:42-51 | the form starts with the mount date and value 0 |
| ProgressDialog.ProgressLogDialog.TaskChanged | src/components/progress-log-dialog.tsx:53-63 | a newly selected task resets the form to the mount date and 0 |
| ProgressDialog.ProgressLogDialog.Input | src/components/progress-log-dialog.tsx:93-95 | typing sets only the value |
| ProgressDialog.ProgressLogDialog.SubmitForm | src/components/progress-log-dialog.tsx:69-76 | the action taken is `Submit` of the current state |
| ProgressDialog.ProgressLogDialog.LoggedToday | src/components/progress-log-dialog.tsx:78 | the figure shown is `TotalOn` of the task's progress at the mount date, 0 without a task |
| ProgressDialog.FindDateAt | src/components/progress-log-dialog.tsx:78 | `find` stops at the first entry with the date |
| ProgressDialog.LogSession | src/components/progress-log-dialog.tsx:53-76 | opening on a task, entering a positive value and submitting logs that value under the mount date |
| ProjectSidebar.AddedName | src/components/project-list.tsx:25-31 | no add iff the field is all white space; otherwise the added name is the trim of the field, non-empty and trimmed |
| ProjectSidebar.AddedNameStable | src/components/project-list.tsx:27 | typing an added name adds the same name again |
| ProjectSidebar.AddedNameIgnoresPadding | src/components/project-list.tsx:26-27 | a white-space character typed before or after the name never changes the added name |
| ProjectSidebar.ProjectList.constructor | src/components/project-list.tsx:22-23 | empty name, field closed |
| ProjectSidebar.ProjectList.StartAdding | src/components/project-list.tsx:63 | "Add Project" opens the field and keeps its text |
| ProjectSidebar.ProjectList.Cancel | src/components/project-list.tsx:58 | Cancel closes the field without adding and keeps its text |
| ProjectSidebar.ProjectList.Change | src/components/project-list.tsx:53 | typing sets the name and keeps the open state |
| ProjectSidebar.ProjectList.HandleAddProject | src/components/project-list.tsx:25-31 | adds the trimmed name iff it is not blank; an add clears and closes; a blank name changes nothing |
| ProjectSidebar.ProjectList.KeyDown | src/components/project-list.tsx:54 | Enter adds as the Add button does; any other key changes nothing |
| ProjectSidebar.AddSession | src/components/project-list.tsx:25-63 | open, type, Add: added iff the text has a non-space character, then closed and empty; otherwise still open with the text |
| Types.DayOfBounds | src/app/page.tsx:65 | an instant lies inside the day `startOfDay` assigns it |
| Types.DayOfMonotone | src/components/task-item.tsx:40-46 | a later instant is never on an earlier day |
| Types.TimeOfDayOffset | src/components/task-detail-modal.tsx:42-46 | an instant's offset into its day is its hours, minutes and the rest of its minute |
| Types.SumValuesAppend | src/components/task-item.tsx:48-51 | the progress sum of a concatenation is the sum of the sums |

## Left out

- Firestore I/O is not modelled: `getDocs`, `writeBatch`/`commit`, `arrayUnion`, `onSnapshot`, document ids and server timestamps. The store is two sequences and an id counter. A query returns documents in store order. A write either happens completely or not at all.
- Telegram delivery is left out (`src/lib/telegram.ts`, `src/app/actions.ts`). The channel records every attempted message, and its success flag is ignored, as the evaluators ignore it.
- The clock, time zones and daylight saving are left out. Instants are integer milliseconds in local time, and every day is 24 hours long. `now` is a parameter.
- `format` strings are not produced. Each key template is a datatype constructor, which is injective, as the rendered strings are.
- Timers and async sequencing are left out: `setInterval`, effect cleanup and `await`. A scan is one loop.
- Numbers are modelled as exact reals. Floating-point rounding, `toLocaleString` and NaN are left out.
- `Forms.ParseNumber`: `Number()` is modelled only on blank strings and digit strings. Anything else, including signs, decimals and exponents, is NaN.
- `Text.ToLower`: only ASCII letters are lower-cased.
- The AI extraction flow (`src/ai/flows/extract-task-from-url.ts`) is left out because it is an opaque model call.
- Pure rendering, charts, icons and the `slice(0, 5)` of the upcoming list are left out. For the three UI components, only the conditions under which a section or control appears are modelled.
- The zod and react-hook-form machinery is left out. Only the validation predicate and the submit transformation are modelled.
- React effect timing is not modelled. `TaskChanged` and `RecurringChanged` each model one run of the effect after the prop or field changed.
- The page that wires the progress dialog to `logProgress` is not part of this model. The finding below assumes it passes the dialog's value through unchanged.
- `deleteTask`, `addProject`, the `GET` handler and `console` logging are left out. They hold no logic beyond the I/O above.
- `Store.Database.FetchTasksWithTags` is pinned down by permutation and sortedness. That leaves open the relative order of tasks created at the same instant, which JavaScript's stable sort would keep.
- `Store.PatchTagIds`: a patch carrying `createdAt` is not modelled. The `updateTask` parameter type admits one (src/lib/firebase.ts:110), but `TaskPatch` has no such field, so a patch here never changes the creation time.
- `Store.Database.UpdateTask` models the `dueDate` conversion as the identity, because instants are already numbers here.

## Findings

| source | as written | input that shows it | evidently intended | confidence | as-written member | corrected member |
|---|---|---|---|---|---|---|
| src/components/progress-log-dialog.tsx:53-86 | the dialog asks for the "additional progress" and resets to 0 "for additive logging", but it sends the entered value as is, and `logProgress` (src/lib/firebase.ts:159-163) overwrites that day's entry with it | log 3 and then 2 on the same day: the day's total is 2 | the day's total grows by the entered value (5) | medium, not executed; the page wiring the dialog to `logProgress` is not in the model | ProgressDialog.TwoLogsKeepOnlyTheSecond | ProgressDialog.AdditiveLogAccumulates |
