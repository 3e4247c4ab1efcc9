# A verified model of a productivity app's screens

The app is a React Native productivity app. Its home screen holds a task list and three daily slots, each holding one task. Every slot keeps a log of typed and voice notes. The home screen also runs a project tracker: a project's milestones advance through named "footstones", and each footstone collects plan and update videos filmed with the camera. Four more screens share the same stored data:
- the tasks page adds and removes tasks and lists each task's notes;
- the "Listen to Notes" inbox flattens the notes and tracks which ones were viewed;
- the calendar marks the days a task falls on;
- the projects page creates projects and shows the footstone chains.

The household screen is separate from the rest. It keeps task types and laundry days and draws its own month grid.

This project states that behaviour in Dafny and proves properties of it. Pure computations become functions and lemmas: recurrence, the month grid, the stored formats and the loaders that clean what `JSON.parse` returns. State that a screen updates in place becomes a class with `modifies` clauses, and loops stay loops with invariants. The classes are:
- `Slots.SlotBoard`;
- `Progress.ProjectProgress`;
- `Capture.CaptureSessions`;
- `TaskList.TaskEditor`;
- `TasksPage.NotesInbox`;
- `Household.HouseholdPlanner`;
- `Projects.ProjectForm`.

Modules, one per file:
- `Wrappers`: `Option`.
- `Text`: JavaScript's `trim`, blank tests and decimal numerals.
- `Json`: parsed JSON values and the checks the loaders apply to them.
- `Dates`: calendar days, weekdays, `YYYY-MM-DD` strings and month arithmetic.
- `Lists`: dropping the element at a position.
- `Recurrence`: `occursOnDate`, which three screens duplicate, and the filters built on it.
- `MonthGrid`: the month grid and the day-to-tasks index.
- `Slots`: the slot scheduler, its stored encoding and the note logs.
- `Progress`: footstone chains, plan videos and started projects.
- `Capture`: video capture sessions.
- `TaskList`: task loaders, the task editor and the tasks page's per-task notes.
- `TasksPage`: the notes inbox.
- `Household`: household types and laundry days.
- `Projects`: the project form and the project and footstone loaders.

Notes on the model's choices:
- **The environment is a set of parameters.** The clock (`now` timestamps, elapsed milliseconds, today's date), stored values (passed in already parsed) and camera results (delivered through `OnResult`) all arrive as parameters.
- **Session ids.** The source takes session ids from the clock. Here they come from a counter, so they are distinct by construction.
- **Stop and Flip discard the recording.** "Stop" and "Flip Camera" add the running session's id to the aborted set (Home.tsx:1082, 1104). The result handler returns without filing when the session's id is in the aborted set (Home.tsx:395-396). In the source, though, the handler tests the set captured when recording started, and the two buttons store a new set, so the running session's id is never in the set it tests: as the code runs, a stopped or flipped recording is still filed. The model reads the current aborted set instead, so only a recording that reaches its time limit is filed (see "Stale React closures" under "## Left out").
- **Recurrence and category defaults on the tasks page.** The page keeps an empty-string recurrence or category. Only a non-string value takes the default. The emptiness check applies to the due date alone (Tasks.tsx:82-102).
- **The inbox's legacy note is not trimmed.** The inbox on the tasks page lists the legacy text note exactly as written. The tasks page's per-task view trims it (TasksPage.tsx:61-71; Tasks.tsx:148-156).

## Model

| member | source | states |
|---|---|---|
| Text.Trim | screens/home/pages/Tasks.tsx:261-262 | The trimmed string is no longer than the input and has no leading or trailing whitespace. |
| Text.TrimIsSlice | screens/home/pages/Tasks.tsx:261-262 | Trimming cuts a contiguous slice out of the string. |
| Text.TrimCutsWhitespace | screens/home/pages/Tasks.tsx:261-262 | Everything cut off on either side is whitespace. |
| Text.TrimEmptyIff | screens/home/pages/Tasks.tsx:263 | A string trims to empty exactly when it is all whitespace. This is the blank test every form uses. |
| Text.TrimOfTrimmed | screens/home/pages/Projects.tsx:116 | Trimming an already trimmed string leaves it unchanged. |
| Text.TrimIdempotent | screens/home/pages/Projects.tsx:116 | Trimming twice is the same as trimming once. |
| Text.DigitChar | screens/tasks/TasksPage.tsx:51 | A digit below 10 becomes the character whose numeric value it is. |
| Text.NatToString | screens/tasks/TasksPage.tsx:51 | `${n}` is a non-empty digit string without a leading zero whose value is n. |
| Text.IntToString | screens/home/Home.tsx:388 | `${i}` of a negative number is a '-' followed by the digits of its absolute value. |
| Text.FourDigits | screens/home/pages/Tasks.tsx:57 | A year from 1000 to 9999 prints as exactly four digits. |
| Json.Prop | screens/home/pages/Tasks.tsx:92 | A property is present exactly on an object that has that key, and it holds the object's value. |
| Json.Elem | screens/tasks/TasksPage.tsx:43 | Indexing an array gives its element when in range and `undefined` otherwise. Null, booleans and numbers give `undefined`. |
| Json.AsString | screens/home/pages/Tasks.tsx:92 | `typeof v === 'string'` holds exactly for a present string, and the result is that string. |
| Json.AsNumber | screens/tasks/TasksPage.tsx:44 | `typeof v === 'number'` holds exactly for a present number, and the result is that number. |
| Json.AsArray | screens/home/pages/Projects.tsx:29 | `Array.isArray` holds exactly for a present array, and the result is its items. |
| Json.Strings | screens/home/pages/Projects.tsx:32 | Filtering out non-strings keeps only strings that were in the array and never lengthens it. |
| Json.StringsMembers | screens/home/pages/Projects.tsx:32 | A string is in the result exactly when it is a string element of the array. |
| Json.StringsAppend | screens/home/pages/Projects.tsx:32 | Filtering a joined array is filtering each part and joining the results. |
| Json.StringsOfStrings | screens/home/pages/Projects.tsx:32 | Strings written out as JSON strings pass the filter unchanged and in order. |
| Lists.DropIndexFromSplice | screens/home/pages/Projects.tsx:111 | Filtering out position k from position `from` onwards cuts exactly element k. An out-of-range k cuts nothing. |
| Lists.DropIndex | screens/home/pages/Tasks.tsx:284-288 | `filter((_, i) => i !== k)` shortens the list by one, keeps the elements before k and moves the later ones down. An out-of-range k leaves the list unchanged. |
| Dates.DaysInMonth | screens/Calendar.tsx:102 | `new Date(y, m + 1, 0).getDate()` is a month length between 28 and 31. |
| Dates.Weekday | screens/Calendar.tsx:101 | `getDay()` is between 0 and 6. |
| Dates.WeekdayAnchors | screens/Calendar.tsx:101 | `getDay()` agrees with known dates: 2024-01-01 is a Monday, 1970-01-01 a Thursday, 2026-10-17 a Saturday. |
| Dates.NextDayWeekday | screens/Calendar.tsx:101 | The next calendar day, across month and year ends, is one day number later and falls on the following weekday. |
| Dates.WeekLaterSameWeekday | screens/personal/household/Household.tsx:146-154 | A date seven days later in the same month falls on the same weekday. |
| Dates.WeekLater | screens/personal/household/Household.tsx:146-154 | Adding seven days does not change the weekday residue. |
| Dates.YearStep | screens/home/pages/Tasks.tsx:178-199 | Each year adds its own length to the day count that `getTime()` compares. |
| Dates.YearsAscend | screens/home/pages/Tasks.tsx:178-199 | A later year starts after the whole of an earlier one. |
| Dates.MonthsAscend | screens/home/pages/Tasks.tsx:178-199 | A later month of the same year starts after the whole of an earlier month. |
| Dates.MonthsFillYear | screens/home/pages/Tasks.tsx:178-199 | The twelve months add up to the year's length. |
| Dates.DayWithinYear | screens/home/pages/Tasks.tsx:178-199 | A valid date's day count lies within its own year. |
| Dates.DayNumberOrder | screens/home/pages/Tasks.tsx:183 | Comparing local-midnight timestamps is calendar order (year, then month, then day), and equal timestamps are the same day. Both directions hold. |
| Dates.Pad2 | screens/home/pages/Tasks.tsx:57 | `padStart(2, '0')` gives digits whose value is n, exactly two of them when n is below 100. |
| Dates.ParseDate | screens/home/pages/Tasks.tsx:180 | A due date that parses has the `YYYY-MM-DD` shape and names a real calendar day. |
| Dates.FormatDate | screens/home/pages/Tasks.tsx:57 | `${year}-${mm}-${dd}` is the year's digits, a dash, two digits, a dash and two digits, and each part reads back as the year, month and day. |
| Dates.ParseFormatRoundTrip | screens/home/pages/Tasks.tsx:57 | A date written as `YYYY-MM-DD` (four-digit year) reads back as the same day. |
| Dates.ShiftMonth | screens/home/pages/Tasks.tsx:242-247 | `new Date(y, m + delta, 1)` is the first of a valid month exactly `delta` months away, with the year carried or borrowed. |
| Dates.ShiftMonthCompose | screens/home/pages/Tasks.tsx:242-247 | Moving a months and then b months is moving a+b months. Moving back -a undoes a move of a. |
| Dates.MonthIndexDetermines | screens/home/pages/Tasks.tsx:242-247 | Two first-of-month dates with the same month index are the same date. |
| Recurrence.OccursOnDate | screens/home/Home.tsx:122-142 | An empty or unparsable due date never occurs, and no task occurs before its anchor day. |
| Recurrence.WeeklyOccursIff | screens/home/pages/Tasks.tsx:178-199 | A weekly task occurs exactly on the days from its anchor on that share the anchor's weekday. |
| Recurrence.MonthlyOccursIff | screens/Calendar.tsx:73-94 | A monthly task occurs exactly on the days from its anchor on that have the anchor's day of the month. |
| Recurrence.MonthlyNeverInShorterMonth | screens/Calendar.tsx:73-94 | A monthly anchor on a day a month lacks is never moved to an earlier day, so the task does not occur in that month. |
| Recurrence.DailyOccursIff | screens/home/Home.tsx:122-142 | A daily task occurs on every day from its anchor on. |
| Recurrence.OnceOccursIff | screens/home/Home.tsx:122-142 | "Once" and any unrecognised recurrence occur on the anchor day and no other. |
| Recurrence.NewYear2024Parses | screens/home/Home.tsx:124 | "2024-01-01" reads as 1 January 2024. |
| Recurrence.WeeklyExample | screens/home/Home.tsx:122-142 | A weekly task anchored on Monday 2024-01-01 occurs on 2024-01-08 but not on 2024-01-09. |
| Recurrence.KeptFrom | screens/home/Home.tsx:144-149 | Each kept pair carries the task at its index, the filter accepted it, and indices strictly ascend. |
| Recurrence.KeptFromComplete | screens/home/Home.tsx:144-149 | Every position the filter accepts appears in the result. |
| Recurrence.KeptAll | screens/home/Home.tsx:144-149 | Every accepted position from 0 on is in the result. |
| Recurrence.TodaysTasks | screens/home/Home.tsx:144-149 | `todaysTasks` holds exactly the tasks due today, each paired with its position, once each, in list order. |
| Recurrence.TasksOn | screens/Calendar.tsx:138 | Filtering by day never lengthens the list. |
| Recurrence.TasksOnMembers | screens/Calendar.tsx:138 | The filter keeps exactly the tasks that occur on the day. |
| Recurrence.TasksOnAppend | screens/Calendar.tsx:138 | Filtering a concatenation concatenates the filtered parts, so order is kept. |
| Recurrence.TasksOnSingle | screens/Calendar.tsx:138 | A single task is kept exactly when it occurs on the day. |
| Recurrence.TasksForSelectedDay | screens/Calendar.tsx:134-139 | No selection, or one that does not parse, gives no tasks. Otherwise the result is the tasks occurring on the selected day. |
| MonthGrid.MonthCells | screens/home/pages/Tasks.tsx:204-213 | The push loops give weekday-of-the-1st blanks, then days 1..n, then fewer than seven blanks, making whole weeks. |
| MonthGrid.HouseholdCells | screens/personal/household/Household.tsx:94-108 | The household screen's spread-then-pad version builds the same kind of grid. |
| MonthGrid.ChunkWeeks | screens/Calendar.tsx:110-113 | The rows of seven put back together give the cells. Every row but the last has seven cells, and all rows do when the length is a multiple of seven. |
| MonthGrid.DaysWithTasks | screens/Calendar.tsx:115-125 | A day is a key exactly when some task occurs on it, and its list holds the tasks occurring on it, in order. |
| MonthGrid.CollectDay | screens/Calendar.tsx:117-123 | One day's inner loop adds the key with the day's tasks, or leaves the index alone when none occur. |
| MonthGrid.TasksOnPrefixStep | screens/Calendar.tsx:117-123 | Looking at one more task extends the day's list by that task exactly when it occurs on the day. |
| Slots.IndexOf | screens/home/Home.tsx:284 | `indexOf` gives -1 exactly when the value is absent, and otherwise its first position. |
| Slots.EncodeSlots | screens/home/Home.tsx:281-291 | For each task position, the stored number is -1 exactly when no slot holds it, and otherwise the first slot holding it. |
| Slots.NumbersJson | screens/home/Home.tsx:287 | The slot state is stored as an array of the same numbers. |
| Slots.DecodeSlots | screens/home/Home.tsx:302-320 | Restoring gives three slots, each empty or a current task position, with no position in two slots. |
| Slots.DecodeSlotsKeepsLast | screens/home/Home.tsx:309-315 | A slot holds the last in-range position whose stored entry names it, and is empty when no entry does. |
| Slots.SlotsRoundTrip | screens/home/Home.tsx:281-320 | Well-formed slots that were saved read back as the same slots. |
| Slots.TextValue | screens/home/Home.tsx:333 | A stored note's text is read back trimmed. |
| Slots.NoteFromJson | screens/home/Home.tsx:328-345 | A restored note is always clean: it has text or voice, its text is trimmed and non-empty, its voice is non-empty. |
| Slots.NotesFromJson | screens/home/Home.tsx:328-345 | A restored log is no longer than the stored one, and every note in it is clean. |
| Slots.SlotNotesFromJson | screens/home/Home.tsx:328-345 | A missing or non-array slot entry restores as an empty log, and every restored note is clean. |
| Slots.RestoreNoteLists | screens/home/Home.tsx:322-351 | Only a stored array is restored. It gives exactly three logs of clean notes. |
| Slots.NotesToJson | screens/home/Home.tsx:295 | Each note of a log is written as one stored entry. |
| Slots.NoteRoundTrip | screens/home/Home.tsx:328-345 | A clean note that was saved reads back unchanged. |
| Slots.NotesRoundTrip | screens/home/Home.tsx:328-345 | A clean log that was saved reads back unchanged and in order. |
| Slots.NoteListsRoundTrip | screens/home/Home.tsx:322-351 | Three clean logs that were saved read back as the same three logs. |
| Slots.FinishLeavesLaterSlotsShifted | screens/home/Home.tsx:502-520 | After a task is finished, a slot holding a later position names the task after its own, or no task when it held the last one. |
| Slots.SlotBoard.constructor | screens/home/Home.tsx:47-50 | The board starts with the given tasks, three empty slots and no notes. |
| Slots.SlotBoard.PickTask | screens/home/Home.tsx:483-500 | A pick succeeds exactly when a slot is chosen and no other slot holds the task. It then fills that slot and empties that slot's notes and nothing else. Otherwise nothing changes. |
| Slots.SlotBoard.ClearSlot | screens/home/Home.tsx:468-481 | Only that slot is emptied and only its notes are cleared. |
| Slots.SlotBoard.FinishTask | screens/home/Home.tsx:502-520 | An empty slot does nothing. Otherwise the finished task leaves the list, every slot naming it is emptied, the other slot numbers are unchanged, and only this slot's notes are cleared. |
| Slots.SlotBoard.SaveTextNote | screens/home/Home.tsx:916-936 | A note is saved exactly when an editor is open and the draft is not blank. Exactly one entry with the trimmed text is appended to that slot's log alone. |
| Slots.SlotBoard.SaveVoiceNote | screens/home/Home.tsx:990-1000 | A note is saved exactly when an editor is open and a non-empty recording exists. Exactly one voice entry is appended to that slot's log alone. |
| Slots.SlotBoard.RestoreSlots | screens/home/Home.tsx:302-320 | A stored array replaces the slots with its decoding. Anything else leaves them alone. |
| Slots.SlotBoard.RestoreNotes | screens/home/Home.tsx:322-351 | A stored array replaces the logs with the cleaned lists. Anything else leaves them alone. |
| Slots.SlotBoard.Restore | screens/home/Home.tsx:352-355 | Both restores happen only once the task list has loaded and is non-empty. |
| Progress.FirstDash | screens/home/Home.tsx:388 | In "digits-rest", the first dash is the one right after the digits. |
| Progress.ProjectKeyInjective | screens/home/Home.tsx:388 | Distinct (project, milestone) pairs never share a `${p}-${m}` key. |
| Progress.ProjectKey | screens/home/Home.tsx:388 | The key starts with the project's digits, which hold no dash, followed by a dash. |
| Progress.WithMedia | screens/home/Home.tsx:397-414 | An empty chain first gets a footstone named after the project. The video is then appended to exactly the chosen list of the last footstone; earlier footstones, the last one's name and its other list stay unchanged. |
| Progress.ProjectProgress.constructor | screens/home/Home.tsx:52-80 | No active project or milestone, no chains, no plan videos, nothing started, no last plan. |
| Progress.ProjectProgress.DisplayName | screens/home/Home.tsx:622-625 | The shown name is the current footstone's name, or the project's own name when the chain is empty. |
| Progress.ProjectProgress.HasExisting | screens/home/Home.tsx:1206-1207 | The replace warning shows exactly when the key has a non-empty chain, and then the shown name is that chain's last footstone's name. |
| Progress.LastPlan | screens/home/Home.tsx:1169-1174 | A chain has a last plan exactly when its current footstone's last plan is non-empty, and then it is that plan. |
| Progress.FiledPlanIsLast | screens/home/Home.tsx:397-424 | Filing a non-empty plan into a chain makes it the chain's last plan. |
| Progress.ProjectProgress.LatestPlan | screens/home/Home.tsx:1167-1180 | "Watch Last Plan" plays the last plan of the key's current footstone when that plan is non-empty; otherwise (no footstone, no plan, or an empty one) the "No plan found" alert is shown. |
| Progress.ProjectProgress.CreateFootstone | screens/home/Home.tsx:1225-1243 | A footstone is created exactly when the draft is not blank and a project and milestone are active. The trimmed name becomes the current footstone of that key; nothing else changes. |
| Progress.ProjectProgress.SaveToFootstone | screens/home/Home.tsx:397-414 | Only the given key's chain changes, as `WithMedia` describes. |
| Progress.ProjectProgress.RecordPlanVideo | screens/home/Home.tsx:415-421 | A plan replaces the key's plan video and becomes the last plan. |
| Progress.ProjectProgress.FileVideo | screens/home/Home.tsx:397-424 | A video joins the key's current footstone. A plan also sets the key's plan video and the last plan, so it is what "Watch Last Plan" plays next; an update leaves both unchanged. |
| Progress.ProjectProgress.StartProject | screens/home/Home.tsx:687-690 | The active key joins the started set. |
| Progress.ProjectProgress.SelectMilestone | screens/home/Home.tsx:850-861 | The chosen pair becomes active, and only its key leaves the started set. |
| Capture.Remaining | screens/home/Home.tsx:1074-1093 | A flip restarts with max(1, limit - elapsed): at least one second, together with the elapsed time covering the limit, and never more than the limit (or one second). |
| Capture.Toggled | screens/home/Home.tsx:1089 | Flipping always changes the facing. |
| Capture.CaptureSessions.constructor | screens/home/Home.tsx:67-86 | No session, no aborted ids, no pending results; not recording, back camera. |
| Capture.CaptureSessions.Start | screens/home/Home.tsx:375-387 | Without a camera nothing happens. Otherwise a fresh id (never pending, never aborted) becomes current, and its continuation captures the project, milestone, name and plan mode. |
| Capture.CaptureSessions.Record | screens/home/Home.tsx:1120-1122 | "Record" starts a session limited to 20 seconds in plan mode and 10 in update mode, capturing the mode; without a camera nothing changes. |
| Capture.CaptureSessions.ChooseMode | screens/home/Home.tsx:664-681 | "Plan" sets plan mode and "Update" clears it. |
| Capture.CaptureSessions.OpenCamera | screens/home/Home.tsx:1027-1031 | The prompt's film button shows the camera. |
| Capture.CaptureSessions.Flip | screens/home/Home.tsx:1074-1093 | While recording, the running session is aborted, the camera turns and recording restarts with `Remaining`. Otherwise only the camera turns. |
| Capture.CaptureSessions.Stop | screens/home/Home.tsx:1101-1113 | The running session is aborted and recording stops. |
| Capture.CaptureSessions.Close | screens/home/Home.tsx:1130-1134 | The camera is hidden and plan mode ends. |
| Capture.CaptureSessions.OnResult | screens/home/Home.tsx:390-428 | A result is filed exactly when it has a non-empty uri, its session had a project and milestone, and the session was not aborted. It is filed under that session's key, as a plan or an update; the camera then closes. Otherwise nothing but the recording flag and the used continuation changes. |
| TaskList.TasksToJson | screens/home/pages/Tasks.tsx:251 | Each task is written as one stored entry. |
| TaskList.StringOr | screens/home/pages/Tasks.tsx:96-97 | A string value is kept; anything else gives the fallback. |
| TaskList.PageTask | screens/home/pages/Tasks.tsx:82-102 | A bare string becomes a default task of that name. An object is kept exactly when its name is a string; an empty or missing due date takes the default, a non-string recurrence or category takes "Once" or "Personal". |
| TaskList.PageTasks | screens/home/pages/Tasks.tsx:82-102 | The cleaned list is no longer than the stored one, and with a non-empty default no task lacks a due date. |
| TaskList.ListedTask | screens/Calendar.tsx:37-49 | An entry is kept exactly when its name and due date are strings. A non-string recurrence or category takes "Once" or "Personal". |
| TaskList.ListedTasks | screens/Calendar.tsx:37-49 | The cleaned list is no longer than the stored one. |
| TaskList.LoadPageTasks | screens/home/pages/Tasks.tsx:76-106 | Only a stored array replaces the task list. |
| TaskList.LoadListedTasks | screens/Calendar.tsx:31-56 | Only a stored array replaces the task list. |
| TaskList.PageTaskOfJson | screens/home/pages/Tasks.tsx:82-102 | A stored task with a due date reads back unchanged on the tasks page. |
| TaskList.ListedTaskOfJson | screens/Calendar.tsx:37-49 | Any stored task reads back unchanged on the calendar. |
| TaskList.PageTasksRoundTrip | screens/home/pages/Tasks.tsx:82-102 | A stored list whose due dates are all non-empty reads back unchanged on the tasks page. |
| TaskList.ListedTasksRoundTrip | screens/Calendar.tsx:37-49 | Every stored list reads back unchanged on the calendar and the home screen. |
| TaskList.LegacyNamesLoad | screens/home/pages/Tasks.tsx:84-91 | A legacy list of bare names loads as default tasks of those names, in order. |
| TaskList.LoadersAgree | screens/Calendar.tsx:37-49 | The two cleaners agree on lists of objects whose named entries carry a non-empty string due date. |
| TaskList.BareStringOnlyOnTasksPage | screens/home/pages/Tasks.tsx:84-91 | A bare string is kept by the tasks page and dropped by the calendar. |
| TaskList.TaskEditor.constructor | screens/home/pages/Tasks.tsx:39-73 | An empty form due on the given date (or today), "Once", "Personal"; the picker on the current month. |
| TaskList.TaskEditor.Add | screens/home/pages/Tasks.tsx:260-282 | A task is added exactly when the name and due date are not blank. Then one trimmed task is appended at the end and the form resets and hides, and the status line reads "Saved locally on this device.". Otherwise only the status line changes. |
| TaskList.TaskEditor.Remove | screens/home/pages/Tasks.tsx:284-290 | Exactly the task at the index leaves the list, the others keep their order, and the status line reads "Saved locally on this device.". |
| TaskList.TaskEditor.GoMonth | screens/home/pages/Tasks.tsx:242-247 | The picker moves exactly `delta` months. |
| TaskList.ListedNoteFromJson | screens/home/pages/Tasks.tsx:133-140 | A listed note is clean, comes from an object, and carries its stored timestamp. |
| TaskList.ListedNotesFromJson | screens/home/pages/Tasks.tsx:132-141 | A listed log has only clean notes and is no longer than the stored one. |
| TaskList.LegacyNote | screens/home/pages/Tasks.tsx:148-156 | The legacy note exists exactly when the slot's stored text is a non-blank string, and is listed trimmed. |
| TaskList.TaskNotesFor | screens/home/pages/Tasks.tsx:125-158 | Only a task whose stored slot is a number >= 0 gets notes, and a task that gets notes gets at least one, all clean. |
| TaskList.MapOneTask | screens/home/pages/Tasks.tsx:125-158 | One step sets task idx's notes when it has any, and otherwise leaves the map alone. |
| TaskList.MapTaskNotes | screens/home/pages/Tasks.tsx:125-158 | A map exists exactly when the slot state is an array. Its keys are exactly the tasks that get notes, each with those notes. |
| TaskList.ListedLog | screens/home/pages/Tasks.tsx:132-141 | A log is listed entry for entry. |
| TaskList.ListedNoteRoundTrip | screens/home/pages/Tasks.tsx:133-140 | A clean note the home screen saved is listed with the same text, voice and timestamp. |
| TaskList.ListedLogRoundTrip | screens/home/pages/Tasks.tsx:132-141 | A clean log the home screen saved is listed entry for entry, in order. |
| TaskList.SlotLogShownForTask | screens/home/pages/Tasks.tsx:125-158 | A task stored as held by a slot with a non-empty log is shown exactly that log. |
| TasksPage.FieldText | screens/tasks/TasksPage.tsx:54-55 | `t?.[key] ?? fallback` is the string when there is one, and the fallback when the field is missing or null. |
| TasksPage.NoteIdExtendsLegacyId | screens/tasks/TasksPage.tsx:51 | A slot note's id (`NoteId`) is its task's legacy id followed by a bar and the note's position, so it never equals the legacy id. |
| TasksPage.LegacyIdShape | screens/tasks/TasksPage.tsx:63 | A legacy id (`LegacyId`) starts with the task's name and a bar when the name is a string, and ends with a bar and the task's position. |
| TasksPage.ViewedMeaning | screens/tasks/TasksPage.tsx:56 | `Boolean(viewedMap?.[id])` (`Viewed`) holds only for a recorded id; a recorded `true` counts as viewed and a recorded falsy value does not. |
| TasksPage.EntryItem | screens/tasks/TasksPage.tsx:47-58 | An entry gives an item exactly when it is an object with non-blank string text. The item's id, trimmed text, task fields and viewed flag are as stored. |
| TasksPage.SlotItems | screens/tasks/TasksPage.tsx:46-59 | A slot gives at most one item per entry. |
| TasksPage.SlotItemsListed | screens/tasks/TasksPage.tsx:46-59 | Every item of a slot has a non-empty note and is viewed exactly when its id is. |
| TasksPage.LegacyItem | screens/tasks/TasksPage.tsx:61-71 | The legacy note gives one item exactly when the stored text is a non-blank string. Its text is kept as written and is not empty, and it is viewed exactly when its id is. |
| TasksPage.TaskItems | screens/tasks/TasksPage.tsx:42-73 | Only a task whose stored slot is a number >= 0 gives items. |
| TasksPage.TaskItemsListed | screens/tasks/TasksPage.tsx:42-73 | Every item of one task has a non-empty note and is viewed exactly when its id is. |
| TasksPage.ItemsUpToStep | screens/tasks/TasksPage.tsx:41-73 | The walk over tasks (`ItemsUpTo`) appends each task's items after those of the tasks before it. |
| TasksPage.ItemsListed | screens/tasks/TasksPage.tsx:41-73 | Every item of the first tasks has a non-empty note and is viewed exactly when its id is. |
| TasksPage.Inbox | screens/tasks/TasksPage.tsx:40-75 | The inbox is empty unless the stored tasks and slot state are arrays. |
| TasksPage.InboxListed | screens/tasks/TasksPage.tsx:40-75 | Every item in the inbox has a non-empty note and is viewed exactly when its id is recorded as viewed. |
| TasksPage.MarkedOne | screens/tasks/TasksPage.tsx:94 | Exactly the items with the id become viewed, and the rest are unchanged. |
| TasksPage.MarkedAll | screens/tasks/TasksPage.tsx:110 | Every item becomes viewed, and nothing else changes. |
| TasksPage.Unviewed | screens/tasks/TasksPage.tsx:158-163 | The unviewed list holds exactly the items not yet viewed. |
| TasksPage.WithoutId | screens/tasks/TasksPage.tsx:158-163 | Removing an id keeps exactly the items with other ids. |
| TasksPage.UnviewedAfterMark | screens/tasks/TasksPage.tsx:87-100 | Marking an id takes exactly that id's items off the unviewed list and keeps the rest in order. |
| TasksPage.UnviewedAfterMarkAll | screens/tasks/TasksPage.tsx:102-114 | After marking all, nothing is unviewed. |
| TasksPage.MarkIdempotent | screens/tasks/TasksPage.tsx:87-100 | Marking an id twice is marking it once. |
| TasksPage.MarkedOneAppend | screens/tasks/TasksPage.tsx:94 | Marking distributes over concatenation. |
| TasksPage.EntryItemReloaded | screens/tasks/TasksPage.tsx:47-58 | An entry read again after its id was recorded as viewed gives the same item, marked when its id is the recorded one. |
| TasksPage.SlotItemsReloaded | screens/tasks/TasksPage.tsx:46-59 | A slot's items read again after an id was recorded are its items with that id marked. |
| TasksPage.LegacyItemReloaded | screens/tasks/TasksPage.tsx:61-71 | Likewise for the legacy note. |
| TasksPage.TaskItemsReloaded | screens/tasks/TasksPage.tsx:42-73 | Likewise for one task's items. |
| TasksPage.InboxReloaded | screens/tasks/TasksPage.tsx:87-100 | The stored viewed record and the shown list agree: reloading after `markViewed(id)` gives the list with id's items marked. |
| TasksPage.NotesInbox.constructor | screens/tasks/TasksPage.tsx:22 | No items, with the given viewed record. |
| TasksPage.NotesInbox.Load | screens/tasks/TasksPage.tsx:24-81 | The walk over tasks and entries pushes exactly the inbox's items, in order. |
| TasksPage.NotesInbox.CollectTask | screens/tasks/TasksPage.tsx:42-73 | One task's walk pushes exactly that task's items. |
| TasksPage.NotesInbox.MarkViewed | screens/tasks/TasksPage.tsx:87-100 | The record gains `id: true` and keeps every other entry. Exactly id's items become viewed and leave the unviewed list. |
| TasksPage.NotesInbox.MarkAllViewed | screens/tasks/TasksPage.tsx:102-114 | Every listed id is recorded as viewed, other recorded entries are kept, and nothing is left unviewed. |
| Household.Without | screens/personal/household/Household.tsx:386 | Filtering a type out removes every occurrence of it and keeps all other types. |
| Household.DistinctConcat | screens/personal/household/Household.tsx:26 | A joined list has no duplicates exactly when neither part has any and the parts share nothing. |
| Household.WithoutDistinct | screens/personal/household/Household.tsx:386 | Filtering keeps a duplicate-free list duplicate-free. |
| Household.AddedTypes | screens/personal/household/Household.tsx:278-281 | A new name is appended unless it already is a type, so afterwards it is one. |
| Household.AddedTypesDistinct | screens/personal/household/Household.tsx:278-281 | Adding a type never creates a duplicate. |
| Household.WithoutTypeDistinct | screens/personal/household/Household.tsx:384-391 | Deleting a type never creates a duplicate. |
| Household.WithoutAbsent | screens/personal/household/Household.tsx:386 | Filtering out an absent type changes nothing. |
| Household.Toggle | screens/personal/household/Household.tsx:329-336 | Only the pressed day's membership flips. |
| Household.ToggleTwice | screens/personal/household/Household.tsx:329-336 | Pressing a day twice restores the chosen days. |
| Household.TypeLabel | screens/personal/household/Household.tsx:282-283 | The label is "Rooms - <room>" while a room is chosen under Rooms, and otherwise the name. |
| Household.HouseholdPlanner.constructor | screens/personal/household/Household.tsx:11-30 | Nothing saved, "Laundry" selected, no laundry days, the calendar on the given month. |
| Household.HouseholdPlanner.AllTypes | screens/personal/household/Household.tsx:26 | The four built-in types followed by the custom types. |
| Household.HouseholdPlanner.AddTask | screens/personal/household/Household.tsx:274-299 | A task is saved exactly when the trimmed name is not blank; otherwise nothing changes. |
| Household.HouseholdPlanner.SaveTask | screens/personal/household/Household.tsx:277-299 | The task and its label are appended; the name becomes a type unless it already is one, and is selected; the laundry picker shows exactly for "Laundry"; the form closes empty. |
| Household.HouseholdPlanner.DeleteType | screens/personal/household/Household.tsx:384-396 | A built-in type is never removed. A custom type is removed entirely, the selection falls back to the first remaining custom type (else "Laundry"), and a duplicate-free type list stays duplicate-free. |
| Household.HouseholdPlanner.ToggleDoAllLaundry | screens/personal/household/Household.tsx:311 | The checkbox flips "doing all laundry". |
| Household.HouseholdPlanner.IsLaundry | screens/personal/household/Household.tsx:146-154 | Only a day cell is marked and only with the overlay on; with all laundry on every day is marked, and with no day chosen and all laundry off none is. |
| Household.HouseholdPlanner.ToggleLaundryDay | screens/personal/household/Household.tsx:327-337 | With "doing all laundry" on nothing changes; otherwise only that day flips. |
| Household.HouseholdPlanner.LaundryRepeatsWeekly | screens/personal/household/Household.tsx:146-154 | A day and the day a week later are marked alike. |
| Household.HouseholdPlanner.AllLaundryMarksEveryDay | screens/personal/household/Household.tsx:146-154 | With the overlay on and all laundry done, every day is marked and no blank cell is. |
| Projects.CleanMilestones | screens/home/pages/Projects.tsx:116 | The cleaned milestones are trimmed and non-empty, no more than given. A string appears exactly when some milestone trims to it and it is non-empty. |
| Projects.CleanMilestonesIdempotent | screens/home/pages/Projects.tsx:116 | Cleaning twice is cleaning once. |
| Projects.CleanMilestonesKeepsClean | screens/home/pages/Projects.tsx:116 | An already clean list is kept exactly. |
| Projects.ProjectForm.constructor | screens/home/pages/Projects.tsx:11-17 | An empty form with one empty milestone field, hidden, with no prompt. |
| Projects.ProjectForm.AddMilestone | screens/home/pages/Projects.tsx:98-100 | One empty field is appended. |
| Projects.ProjectForm.UpdateMilestone | screens/home/pages/Projects.tsx:102-108 | Only field idx changes, to the text. |
| Projects.ProjectForm.RemoveMilestone | screens/home/pages/Projects.tsx:110-112 | Exactly field idx goes, and the others keep their order. |
| Projects.ProjectForm.Save | screens/home/pages/Projects.tsx:114-129 | A project is saved exactly when the name is not blank. Then one project (trimmed name, cleaned milestones) is appended, the form resets and hides, and the prompt opens when a milestone survived. Otherwise only the status line changes. |
| Projects.StringListOr | screens/home/pages/Projects.tsx:65-66 | A missing or non-array list reads as empty. |
| Projects.ProjectFromJson | screens/home/pages/Projects.tsx:28-36 | An entry is kept exactly when it has a string name and a milestones array. Its name and string milestones are kept. |
| Projects.ProjectsFromJson | screens/home/pages/Projects.tsx:27-37 | The cleaned list is no longer than the stored one. |
| Projects.ProjectsToJson | screens/home/pages/Projects.tsx:88 | Each project is written as one stored entry. |
| Projects.ProjectsRoundTrip | screens/home/pages/Projects.tsx:21-43 | Saved projects read back unchanged. |
| Projects.FootstoneFromJson | screens/home/pages/Projects.tsx:61-68 | An entry is kept exactly when it is an object with a string name. Its plans and updates are the string elements of those arrays. |
| Projects.ChainFromJson | screens/home/pages/Projects.tsx:60-69 | A cleaned chain is no longer than the stored one. |
| Projects.Entries | screens/home/pages/Projects.tsx:58 | `Object.entries` gives an object's fields, or an array's items under their decimal indices. |
| Projects.LoadedFootstones | screens/home/pages/Projects.tsx:56-73 | A map is loaded exactly when the stored value is an object or array. |
| Projects.LoadFootstones | screens/home/pages/Projects.tsx:56-73 | The loop over entries gives exactly the loaded map: one cleaned chain for each key whose value is an array, and no other key. |
| Projects.SameMaps | screens/home/pages/Projects.tsx:56-73 | Maps with the same keys and the same values are equal. |
| Projects.ChainToJson | screens/home/Home.tsx:105 | Each footstone is written as one stored entry. |
| Projects.FootstoneRoundTrip | screens/home/pages/Projects.tsx:61-68 | A stored footstone reads back unchanged. |
| Projects.ChainFromJsonStep | screens/home/pages/Projects.tsx:60-69 | A stored footstone that loads stays at the front of its loaded chain. |
| Projects.ChainRoundTrip | screens/home/pages/Projects.tsx:60-69 | A stored chain reads back unchanged. |
| Projects.FootstonesRoundTrip | screens/home/pages/Projects.tsx:50-73 | The footstone chains the home screen saves load back exactly. |

## Left out

- Storage, JSON text and events: AsyncStorage reads and writes, `JSON.parse`/`JSON.stringify` text, and `DeviceEventEmitter` are I/O. Stored values enter as parsed `Json`, and writes are stated as the `...ToJson` functions. Failed storage calls (the `catch` branches) are not modelled.
- Camera, audio, alerts: recording hardware, permissions, playback and `Alert` dialogs are I/O. Their results are parameters (`cameraReady`, `uri`, `recordedUri`).
- Clock and timers: `Date.now()` and `new Date().toISOString()` are parameters. The 100 ms delay before a flip restarts recording is not modelled; `Flip` returns the new limit.
- Stale React closures: the source's callbacks may read state captured at an earlier render. The model always reads the current state. For the aborted set this changes behaviour: the recording's result handler tests the set as it was when recording started (Home.tsx:395, 439), which never holds that recording's id, so in the source a recording stopped with "Stop" or "Flip Camera" is still filed, while `Capture.CaptureSessions.OnResult` discards it.
- Update prompt: whether the "Update"/"Plan" prompt is shown is not modelled. `Capture.CaptureSessions.ChooseMode` and `Capture.CaptureSessions.OpenCamera` record only the mode and the camera's visibility; the camera and microphone permission requests are I/O.
- JavaScript `Date` leniency and time zones: dates are strict `YYYY-MM-DD` strings naming real calendar days in local time. Years below 100 and daylight-saving shifts are not modelled.
- Numbers: JSON numbers are integers; fractional numbers are not modelled.
- Household loaders and the rooms and type-selection handlers are not modelled; only the handlers for task types and laundry days are.
- Tasks date selection: the tasks page's handler for picking a date in the grid is not modelled.
- Sorting and display: sorting the notes newest first and all rendering and styling are not modelled.
- Viewed record: a stored record that is not an object is not modelled.
- Id collisions: note ids are `name|dueDate|index|note`, so a task name containing '|' can collide with another id. The model builds the ids exactly as written and states nothing about uniqueness.
- Projects.ProjectForm.UpdateMilestone: requires the index to be within the list. An out-of-range index in JavaScript would grow the array, which the editor never does.
- Projects.ProjectForm.Save: does not model the "Saved." status that the persist step sets after a successful write, because that write is I/O.
- Capture.CaptureSessions.Start: session ids come from a counter instead of the clock, so two sessions never share an id.
