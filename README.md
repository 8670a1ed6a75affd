# Study planner core, modelled in Dafny

This project models the logic of a small React study planner. The planner keeps
todos, courses and a Pomodoro timer in the browser's local storage. The model
covers these parts:

- **Daily lunch** (`src/data/dummyTodos.js`). This is the built-in Lunch todo with
  id 5. It is re-dated to today on every load, or appended when it is missing.
  A "skipped today" mark stops it from being appended again. The mark expires
  after 12 hours or at the next calendar day.
- **Date helpers** (`src/utils/dateHelpers.jsx`). These are the Monday-to-Sunday
  week of a day, the `YYYY-MM-DD` key of a date and the weekday's Chinese
  abbreviation.
- **Day timeline** (`src/pages/TimelinePage.jsx`):
  - it filters the selected day's todos and sorts them by time;
  - it adds anchors at 00:00, 07:00 and 12:00;
  - a sweep builds gaps, groups of overlapping todos and anchors;
  - a post-pass drops anchors that are redundant.
- **Todo list** (`src/pages/TodoPage.jsx`). This covers grouping todos by
  category, the order of the sections, deletion, and the date and time texts
  each card shows.
- **Todo form** (`src/components/TodoForm.jsx`). This covers the initial form
  state, field edits, subtasks, the two "all day" checkboxes and the
  empty-title guard.
- **Add and edit pages** (`src/pages/AddTodo.jsx`, `src/pages/EditTodo.jsx`).
  These cover the record built from the form, appending it, finding the todo a
  URL names with loose `==`, replacing it, and the page to go back to.
- **Courses page** (`src/pages/CoursesPage.jsx`) and its **input dialog**
  (`src/components/FloatingInputModal.jsx`). These cover expanding a course,
  adding a course, the per-course todo lists and counts, and the style lookup.
- **Card colours** (`src/theme/categoryClasses.js`).
- **Focus timer** (`src/pages/FocusPage.jsx`). This is the Pomodoro state
  machine with 25/5/15 minute phases and a long break after every fourth
  Pomodoro.

## How things are represented

- **Instants** are integers counting local minutes. The time zone is folded in.
  - The day of an instant is `t / 1440`.
  - The clock time is `t % 1440`.
  - The weekday is `(day + 4) % 7`, because day 0 is Thursday 1970-01-01.
  - The calendar date is computed from the day number.
- **Stored times stay text.** `new Date(text)` is a parameter
  `parse: string -> Option<int>`, where `None` means an Invalid Date.
  `toISOString` is a parameter `iso: int -> string`.
  - Lemmas that need the two to agree require `parse(iso(t)) == Some(t)`.
- **A stored list** is `Arr(list)` or `NonArray`. The latter stands for a stored
  value that is not an array, which the pages read as `[]`.
- **Pages as values or classes.** Components that only compute are functions
  over values. State that the source updates step by step is a class:
  - the focus timer;
  - the form;
  - the input dialog;
  - the lunch skip mark.
- **Loops become methods.** The `reduce` that groups todos, the timeline's two
  `forEach` loops and the week loop are methods. Each is proved against a
  specification function.

The timeline sweep behaves as follows, and the model behaves the same way:

- A todo that starts before `lastEndTime` joins the last group. It stretches
  that group's end but not `lastEndTime`.
- A gap can therefore begin before the group in front of it ends.
- Anchors split overlapping todos into separate groups.

`DayTimeline.TimelineSpec` states what holds for every input. The lemmas in
`TimelineScenarios` work out concrete days in full.

## Model

| member | source | states |
|---|---|---|
| DailyLunch.ValidSkipSurvives | src/data/dummyTodos.js:63-81 | a skip mark that is for today, timestamped and younger than 12 hours survives the clean-up unchanged |
| DailyLunch.RecordAfterIdempotent | src/data/dummyTodos.js:63-81 | cleaning the mark twice is cleaning it once, and cleaning never changes whether the mark still keeps Lunch away |
| DailyLunch.FindId | src/data/dummyTodos.js:83 | `findIndex(t => t.id === 5)`: the first index holding the id, or none when no todo has it |
| DailyLunch.EnsureMealNonArray | src/data/dummyTodos.js:55-108 | a non-array stored value is read as []: the result is [] when the mark is valid, otherwise just the new Lunch |
| DailyLunch.AddsLunch | src/data/dummyTodos.js:93-108 | without a Lunch todo, the list is kept when the skip mark is valid; otherwise one Lunch at today 12:00 is appended after the unchanged list |
| DailyLunch.AddedLunchIsToday | src/data/dummyTodos.js:6-107 | the appended Lunch's time reads back as today at 12:00 |
| DailyLunch.KeepsTodaysLunch | src/data/dummyTodos.js:111-115 | a Lunch already dated today leaves the list untouched |
| DailyLunch.MovesLunch | src/data/dummyTodos.js:84-119 | a Lunch on another day keeps its place and every other field. Its time moves to today at its own clock time, or 12:00 when it has none. An unparseable time is an error, since toISOString throws |
| DailyLunch.BuildMealTimeIsToday | src/data/dummyTodos.js:84-91 | every time `buildMealTime` produces lies on today |
| DailyLunch.EnsureMealIdempotent | src/data/dummyTodos.js:54-120 | running `ensureMealToday` again on its own result, with the mark it left behind, changes nothing |
| DailyLunch.DummyTodosSpec | src/data/dummyTodos.js:122-132 | the default list is the five todos with ids 1 to 5, and Lunch is dated today |
| DailyLunch.SkipStore.SetSkipLunchDate | src/data/dummyTodos.js:33-41 | the mark becomes the given date with the current timestamp |
| DailyLunch.SkipStore.EnsureMealToday | src/data/dummyTodos.js:54-120 | returns the updated list and leaves the cleaned mark in the store |
| DailyLunch.SkipStore.GetDummyTodos | src/data/dummyTodos.js:122-132 | `ensureMealToday` applied to the five default todos |
| Calendar.AtParts | src/data/dummyTodos.js:8-9 | `setHours(h, m, 0, 0)` on a day gives an instant on that day whose hours and minutes read back as h and m |
| Calendar.CivilOf | src/utils/dateHelpers.jsx:21-23 | year, month and day of a day number form a date that exists: month 1..12 and day within that month's length, February having 29 days exactly in Gregorian leap years |
| Calendar.CivilOfEpoch | src/utils/dateHelpers.jsx:21-23 | day 0 is 1970-01-01, the day `Date` counts from |
| Calendar.WeekdayNext | src/utils/dateHelpers.jsx:4 | `getDay()` advances by one, modulo 7, from one day to the next |
| DateHelpers.DaysSinceMonday | src/utils/dateHelpers.jsx:4-7 | how far back Monday is: 0 to 6 days, landing on a Monday |
| DateHelpers.GetWeekDays | src/utils/dateHelpers.jsx:3-16 | seven consecutive days starting on a Monday and containing the given day at its weekday position |
| DateHelpers.FormatDateKeyShape | src/utils/dateHelpers.jsx:19-25 | the key is year, '-', two-digit month, '-', two-digit day, and reads back as those numbers |
| DateHelpers.FormatDateKeyInjective | src/utils/dateHelpers.jsx:19-25 | two valid dates share a key exactly when they are the same date |
| DateHelpers.GetDayName | src/utils/dateHelpers.jsx:28-31 | the name is one of the seven, and '日' exactly on Sunday |
| DateHelpers.DayNameInjective | src/utils/dateHelpers.jsx:28-31 | two days share a name exactly when they share a weekday |
| DateHelpers.WeekDayNames | src/utils/dateHelpers.jsx:3-31 | the names of a week from `getWeekDays` read 一 to 六, then 日 |
| DayTimeline.FormatTime | src/pages/TimelinePage.jsx:9-13 | "HH:MM": five characters with ':' in the middle |
| DayTimeline.FormatTimeSameClock | src/pages/TimelinePage.jsx:9-85 | two instants print the same exactly when they share their minute of the day |
| DayTimeline.CandidatesSpec | src/pages/TimelinePage.jsx:23-30 | exactly the stored todos whose non-empty time parses to the selected day, with their instants |
| DayTimeline.DayTodosSpec | src/pages/TimelinePage.jsx:22-32 | `dayTodos` is sorted by time and holds exactly the filtered todos. Todos at the same instant keep storage order. Non-array storage gives none |
| DayTimeline.Anchors | src/pages/TimelinePage.jsx:35-41 | one anchor per hour 0, 7 and 12 of the selected day, in that order |
| DayTimeline.AllItemsSpec | src/pages/TimelinePage.jsx:43 | the stable sort of todos followed by anchors is their merge. It is sorted, holds every anchor and keeps the day's todos in order; at equal times a todo comes before an anchor |
| DayTimeline.SweepItems | src/pages/TimelinePage.jsx:49-79 | the `forEach` loop computes the sweep's specification function over the items |
| DayTimeline.SweepInvariant | src/pages/TimelinePage.jsx:49-79 | over sorted items the sweep's groups hold every todo once, in order. Every segment is well-formed and starts never decrease |
| DayTimeline.Keep | src/pages/TimelinePage.jsx:82-92 | an anchor after a kept segment is dropped exactly when it has the same clock time or starts inside a non-empty group; everything else is kept |
| DayTimeline.PostPassSegments | src/pages/TimelinePage.jsx:81-95 | the second `forEach` computes the post-pass's specification function |
| DayTimeline.PostPassSubset | src/pages/TimelinePage.jsx:81-95 | the post-pass keeps only segments it was given, and always the first |
| DayTimeline.PostPassEssentials | src/pages/TimelinePage.jsx:81-95 | gaps and groups are never dropped, so every todo survives in order |
| DayTimeline.PostPassSorted | src/pages/TimelinePage.jsx:81-95 | the post-pass keeps start order |
| DayTimeline.PostPassSparse | src/pages/TimelinePage.jsx:84-90 | no kept anchor repeats the clock time of its predecessor or starts inside the group before it |
| DayTimeline.TimelineSegments | src/pages/TimelinePage.jsx:34-97 | the page's computation equals the timeline function, early return included |
| DayTimeline.TimelineEmptyDay | src/pages/TimelinePage.jsx:45-47 | a day without todos shows exactly the three anchors |
| DayTimeline.TimelineSpec | src/pages/TimelinePage.jsx:22-97 | the timeline's groups hold exactly the day's todos in time order, each once. Every gap is non-empty, every anchor has zero width and every group ends at its todos' latest end. Starts never decrease and no anchor is redundant |
| TimelineScenarios.NoonTodo | src/pages/TimelinePage.jsx:43-86 | a todo at 12:00 sorts before the noon anchor, which is then dropped |
| TimelineScenarios.SameInstantTodos | src/pages/TimelinePage.jsx:54-67 | two todos at 10:00 share one group in storage order, ending at 11:00, then a gap to the noon anchor |
| TimelineScenarios.LateMergeDayTodos | src/pages/TimelinePage.jsx:22-32 | three todos at 10:00, 10:30 and 11:15 come out in that order |
| TimelineScenarios.MergeKeepsLastEnd | src/pages/TimelinePage.jsx:60-78 | merging a todo stretches the group but not `lastEndTime`. So a gap from 11:00 follows a group that ends at 11:30, and the noon anchor inside the 11:15 group is dropped |
| TimelineScenarios.AnchorSplitsOverlap | src/pages/TimelinePage.jsx:56-88 | the 07:00 anchor between overlapping todos at 06:30 and 07:15 makes them two groups, and the anchor is dropped |
| Sorting.Sort | src/pages/TimelinePage.jsx:31-43 | the sorted list is a permutation of the input |
| Sorting.SortSorted | src/pages/TimelinePage.jsx:31-43 | the sorted list is in key order |
| Sorting.SortIsStable | src/pages/TimelinePage.jsx:31-43 | for every key, the elements with that key keep their relative order |
| Sorting.SortAppend | src/pages/TimelinePage.jsx:43 | sorting two sorted lists appended is merging them, with ties going to the first |
| TodoPage.CategoryKey | src/pages/TodoPage.jsx:23 | '未分類' exactly for a missing, empty, 'none' or '未分類' category; otherwise the category itself |
| TodoPage.GroupTodos | src/pages/TodoPage.jsx:21-30 | the `reduce` builds a dictionary with keys quiz, hw and 未分類 plus every other key that occurs. Each key maps to its todos in storage order |
| TodoPage.PushByCategory | src/pages/TodoPage.jsx:22-29 | the reduce callback appends the todo under its key, creating the key if needed, and changes no other key |
| TodoPage.GroupSizesSum | src/pages/TodoPage.jsx:21-30 | the group sizes over the keys add up to the number of todos |
| TodoPage.Sections | src/pages/TodoPage.jsx:33-50 | the sections shown are the known categories with todos, in quiz, hw, 未分類 order |
| TodoPage.ShownIffKnownSection | src/pages/TodoPage.jsx:21-50 | a todo is listed exactly when its key is quiz, hw or 未分類; other categories are never shown |
| TodoPage.DeleteTodoSpec | src/pages/TodoPage.jsx:40-42 | no todo with the id remains, every other todo stays, the length drops by the number removed, and a list without the id is unchanged |
| TodoPage.LunchTimeText | src/pages/TodoPage.jsx:68-76 | the Lunch card shows today's month and day with its own clock time, or 00:00 when it has no time |
| TodoPage.TimeTextSpec | src/pages/TodoPage.jsx:65-90 | the time text is empty exactly for a non-Lunch todo without a time; a non-Lunch time that parses shows as that instant's "M/D 整日" or "M/D HH:MM", chosen by `allDay` |
| TodoPage.DeadlineTextSpec | src/pages/TodoPage.jsx:91-102 | the deadline text is empty exactly when there is no deadline; a deadline that parses shows as that instant's "M/D 整日" or "M/D HH:MM", chosen by `deadlineAllDay` |
| TodoPage.TimeTextReadsBack | src/pages/TodoPage.jsx:77-89 | two non-Lunch cards with the same `allDay` show the same time exactly when month, day and, unless all day, the clock time agree |
| TodoPage.DateTimeTextReadsBack | src/pages/TodoPage.jsx:77-102 | two "M/D HH:MM" texts are equal exactly when month, day and (for timed entries) clock time agree; "M/D 整日" texts compare month and day |
| TodoPage.MonthDayReadsBack | src/pages/TodoPage.jsx:79-94 | "M/D" followed by a space reads back as its month and day |
| CategoryClasses.GetCategoryClass | src/theme/categoryClasses.js:1-11 | quiz and hw get their own classes. Every other value, including null, undefined and unknown keys, gets the uncategorised class |
| TodoForm.CourseTextParses | src/components/TodoForm.jsx:10 | the course text is empty for no course or course 0; otherwise it parses back to the course id |
| TodoForm.InitialForm | src/components/TodoForm.jsx:8-18 | an empty form, or the todo's fields with `||` defaults ('' / 'none' / false / []) |
| TodoForm.SetField | src/components/TodoForm.jsx:41-44 | the named text field gets the value and every other field stays |
| TodoForm.ToggleSubtask | src/components/TodoForm.jsx:60-62 | subtasks with the id flip `completed`; the rest stay |
| TodoForm.ToggleTwice | src/components/TodoForm.jsx:60-62 | toggling twice restores the subtasks |
| TodoForm.DeleteSubtaskSpec | src/components/TodoForm.jsx:64-66 | no subtask with the id remains, others stay, it distributes over concatenation and a list without the id is unchanged |
| TodoForm.NewSubtask | src/components/TodoForm.jsx:53-58 | blank text adds nothing; otherwise an uncompleted subtask with the trimmed, non-empty text |
| TodoForm.AllDayTextSpec | src/components/TodoForm.jsx:155-227 | checking keeps the first 10 characters or ''. Unchecking appends the suffix to a bare date and otherwise keeps the text |
| TodoForm.AllDayRoundTrip | src/components/TodoForm.jsx:155-227 | unchecking then checking a bare date gives the date back |
| TodoForm.AllDayChecked | src/components/TodoForm.jsx:155-227 | checking is idempotent, and checking after unchecking a longer text cuts it to its date |
| TodoForm.SetAllDaySpec | src/components/TodoForm.jsx:152-164 | the all-day box sets `allDay`, rewrites the time with suffix T00:00 and clears the duration when checked; nothing else changes |
| TodoForm.SetDeadlineAllDaySpec | src/components/TodoForm.jsx:218-230 | the deadline box sets `deadlineAllDay` and rewrites the deadline with suffix T23:59; nothing else changes |
| TodoForm.Submit | src/components/TodoForm.jsx:68-75 | an empty title submits nothing; otherwise the form data is submitted as is |
| TodoForm.TodoFormState.AddSubtask | src/components/TodoForm.jsx:53-58 | appends the new subtask and clears the text only when the text is not blank |
| TodoForm.TodoFormState.HandleSubmit | src/components/TodoForm.jsx:68-75 | submits the form exactly when the title is non-empty |
| AddTodo.CourseIdRoundTrip | src/pages/AddTodo.jsx:21 | the form's course text reads back as the course, where id 0 reads as none |
| AddTodo.UnchangedFormRoundTrip | src/pages/AddTodo.jsx:17-22 | saving an untouched form gives the todo back, with only an empty category and course 0 normalised |
| AddTodo.AddTodos | src/pages/AddTodo.jsx:25-28 | the previous list, unchanged, followed by the new record; non-array storage gives just the record |
| AddTodo.BackTo | src/pages/AddTodo.jsx:30 | the path is never empty and is "/" exactly when no non-"/" origin was given |
| EditTodo.FindNamed | src/pages/EditTodo.jsx:19 | the first index whose id the key names, or none when no id matches |
| EditTodo.TodoToEdit | src/pages/EditTodo.jsx:19 | the first todo whose id is loosely equal to the URL text, or none exactly when no todo matches |
| EditTodo.EditTodos | src/pages/EditTodo.jsx:24-41 | length and order stay and non-matching todos stay. Every matching todo becomes the updated record, whose `parseInt` id is that todo's own id. Non-array storage gives [] |
| EditTodo.ReplaceById | src/pages/EditTodo.jsx:38-40 | each position holds the update when its id is the key, else the old todo |
| EditTodo.EditIdempotent | src/pages/EditTodo.jsx:24-41 | editing twice with the same form is editing once |
| EditTodo.FreshIdUnnamed | src/pages/EditTodo.jsx:19-25 | the text of a fresh id names no other todo and parses back to the id |
| EditTodo.AddThenFind | src/pages/AddTodo.jsx:17-28 | a todo added under a fresh id is the one the edit page opens for that id |
| EditTodo.AddThenEdit | src/pages/EditTodo.jsx:33-41 | editing a freshly added todo replaces only that record |
| EditTodo.AddThenDelete | src/pages/TodoPage.jsx:40-42 | deleting a freshly added todo gives back the list it was added to |
| FloatingInputModal.Submitted | src/components/FloatingInputModal.jsx:17-23 | blank input submits nothing. Otherwise the trimmed text is submitted: non-empty, with no whitespace at either end, and unchanged by trimming again |
| FloatingInputModal.Modal.Submit | src/components/FloatingInputModal.jsx:13-23 | a hidden dialog submits nothing. A shown one submits the trimmed input and clears the field exactly when something was submitted |
| CoursesPage.ToggleExpanded | src/pages/CoursesPage.jsx:33-41 | the clicked id's membership flips, other ids are unaffected, and an absent id is appended |
| CoursesPage.ClickTwice | src/pages/CoursesPage.jsx:33-41 | clicking twice restores the set of expanded courses |
| CoursesPage.ToggleKeepsDistinct | src/pages/CoursesPage.jsx:33-41 | clicking keeps the expanded ids free of duplicates |
| CoursesPage.ClickCourse | src/pages/CoursesPage.jsx:33-56 | only the clicked course's expanded state flips |
| CoursesPage.AddCourse | src/pages/CoursesPage.jsx:43-47 | the new course is put first, before the unchanged list, and the dialog closes |
| CoursesPage.SubmitCourse | src/pages/CoursesPage.jsx:43-47 | blank input leaves the page alone; otherwise the course named by the trimmed entry (non-empty, with no whitespace left at either end) is prepended with the given id, the expanded ids stay and the dialog closes |
| CoursesPage.CourseTodosSpec | src/pages/CoursesPage.jsx:53-55 | the course's todos are exactly those with its id, and the hw and quiz counts together never exceed them |
| CoursesPage.StyleClass | src/pages/CoursesPage.jsx:26-78 | missing, 'none' and '未分類' categories get the grey style. An unknown category gets no style at all |
| Focus.NextPhase | src/pages/FocusPage.jsx:42-58 | after a Pomodoro the count goes up and a break follows, long exactly when the count is a multiple of 4; after a break a Pomodoro follows with the count unchanged |
| Focus.TickSpec | src/pages/FocusPage.jsx:27-33 | a running timer with time left loses one second; nothing else changes, and the timer stays in range |
| Focus.CompleteSpec | src/pages/FocusPage.jsx:35-61 | reaching 0 stops the timer and starts the next phase at its full duration |
| Focus.ToggleSpec | src/pages/FocusPage.jsx:122 | start/pause flips only `running` and is its own inverse |
| Focus.RoundTrip | src/pages/FocusPage.jsx:42-58 | a finished Pomodoro, then its finished break, returns to a fresh stopped Pomodoro with the count one higher |
| Focus.DisplayTimeReads | src/pages/FocusPage.jsx:63-65 | "MM:SS" reads back as the minutes and seconds left |
| Focus.DisplayTimeInjective | src/pages/FocusPage.jsx:63-65 | different times under 100 minutes display differently |
| Focus.ModeTitle | src/pages/FocusPage.jsx:67-74 | each mode has its own title |
| Focus.FocusTimer.Tick | src/pages/FocusPage.jsx:27-33 | the timer's state becomes the ticked state and stays valid |
| Focus.FocusTimer.Complete | src/pages/FocusPage.jsx:35-61 | the timer's state becomes the completed state and stays valid |
| Focus.FocusTimer.Reset | src/pages/FocusPage.jsx:76-81 | back to a stopped 25-minute Pomodoro with count 0 |
| Focus.FocusTimer.Display | src/pages/FocusPage.jsx:63-74 | the title and the "MM:SS" text of the current state |
| Text.NatToStringValue | src/pages/TimelinePage.jsx:10-11 | `toString()` of a number reads back as that number |
| Text.Pad2Injective | src/pages/TimelinePage.jsx:10-11 | `padStart(2, '0')` of numbers under 100 is injective |
| Text.TrimShape | src/components/FloatingInputModal.jsx:19 | `trim()` keeps a middle slice of the text, removes only whitespace from either end, and leaves neither end on whitespace |
| Text.TrimEmptyIffBlank | src/components/FloatingInputModal.jsx:19 | `trim()` is empty exactly for all-whitespace text |
| Text.TrimIdempotent | src/components/FloatingInputModal.jsx:19-20 | trimming twice is trimming once |
| Text.ParseIntOfIntToString | src/pages/EditTodo.jsx:25 | `parseInt` reads back the decimal text of any integer |
| Text.LooseEqualsIntToString | src/pages/EditTodo.jsx:19 | `n == String(i)` holds exactly when n equals i |
| Text.LooseNumberParses | src/pages/EditTodo.jsx:19-25 | text that loose `==` reads as a number is read as the same number by `parseInt` |

## Left out

- Local storage and JSON (`src/hooks/useLocalStorageState.js`) are not modelled. Stored lists are values of the `Stored` type, and the lunch skip mark is the field of `SkipStore`. Reading an unparsable `skipLunchDate` entry is modelled only through its result, a date with no timestamp.
- The JavaScript `Date` object is not modelled. Time zones, daylight saving and calendar arithmetic beyond the proleptic Gregorian day number are abstracted as the `parse` and `iso` parameters over local minutes. Seconds and milliseconds are dropped: every instant is a whole minute.
- `Date.now()` and `new Date()` are parameters, as are the new ids built from them (`now`, `today`, `id`).
- React rendering, effects, routing (`navigate`, `location`), `alert`, the audio alert, vibration and the `setInterval` clock are not modelled. The timer's one-second tick is the `Tick` method.
- `Text.LooseNumber` reads blank text as no number, where JavaScript's `Number('')` is 0. Hexadecimal, decimal-point and exponent forms of `Number()` are not modelled. Ids are positive integers, so loose `==` against them is unaffected.
- `Text.ParseInt` does not model the "0x" prefix that `parseInt` reads as hexadecimal: it reads "0x10" as 0 where JavaScript gives 16. Course ids come from a list of numeric ids, and the edit page calls `parseInt` only on text that `Text.LooseNumber` accepts, so within this model neither caller passes such text.
- `TodoPage.GroupTodos` does not model keys inherited from `Object.prototype` (a category named `toString`, say); the grouping dictionary is a plain map. The same holds for the lookups in `CategoryClasses.GetCategoryClass` and `CoursesPage.StyleClass`.
- `TodoPage.DeleteTodo` and the course filters in `CoursesPage` take plain lists. The source has no `Array.isArray` guard there, so a non-array value would throw.
- The timeline's segment ids and React keys are not modelled.
- Items in the early-return branch of the timeline are modelled as zero-width anchors.
- DayTimeline.Step: the fallback of `lastEndTime || 0` is local minute 0, that is local midnight of 1970-01-01, not the UTC epoch, which lies up to 14 hours either side of it depending on the time zone. The two agree on every day from 1970-01-02 on, because the first item of such a day starts after both. On earlier days the model can differ from the code: in a zone more than 7 hours east of UTC, the code puts no gap before day 0's 07:00 anchor, while the model puts one there.
- The timeline places anchors at hours 0, 7 and 12. A todo always counts as 60 minutes long, and all-day todos are not excluded.
- The timeline page's week navigation and day selection are not modelled; the selected day is a parameter, and the week strip is `GetWeekDays`.
- The focus page's character animation (`CharacterAnimation.jsx`) and the layout components are not part of this model.
