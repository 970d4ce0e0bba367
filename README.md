# zenith-flow task manager: validation and views

zenith-flow is a small task manager. It keeps projects and tasks and shows
the task list three ways: as a month calendar, as a kanban board, and as a
table. This project models, in Dafny, the parts that decide what the user
sees:

- **The two input schemas** (`src/lib/schemas.ts`), as `Schemas`. Each
  schema turns a raw payload into a value with its defaults filled in, or
  into one issue per failing field.
- **The calendar** (`src/components/calendar-view.tsx`), as `CalendarView`.
  It covers:
  - the month grid, from the Sunday on or before the 1st to the Saturday on
    or after the last day;
  - the tasks of each day, and the today, current-month and row-end flags;
  - the displayed month as a `Calendar` class that the arrows and the Today
    button update.
- **The date-fns calls the calendar makes**, as `CivilDate`: proleptic
  Gregorian dates, day numbers, weekdays (Sunday first), start and end of
  week and month, and `addMonths` with the day of the month clamped.
- **The board** (`src/components/task-board.tsx`), as `TaskBoard`: three
  fixed status columns, each filtered from the task list in its own order,
  with a count, a placeholder and one card per task.
- **The table** (`src/components/list-view.tsx`), as `ListView`: the empty
  state, one row per task in list order, the status colour and label, the
  HIGH emphasis, the project cell and the due label.
- **The page shell** (`src/components/main-layout.tsx` and the view buttons
  of `src/components/sidebar.tsx`), as `MainLayout`. A `Layout` class holds
  the active view and the mobile-menu flag, and exactly one view is
  rendered.

Shared modules:

- `Records` holds the stored rows the views receive.
- `Sequences` is `Array.prototype.filter`, with its characterisation as an
  order-preserving subsequence.
- `Wrappers` is `Option`/`Result`.

Three behaviours of the code are worth stating outright:

- **Board columns.** Stored status values are plain strings, and a column
  shows `task.status === col.id`. A task whose status is none of the three
  is in no column (`TaskBoard.ColumnsOfTask`). Every task is in exactly one
  column only when every status names a column (`TaskBoard.ColumnsPartition`).
- **Calendar cells.** A task is in the cell of its due date and also in the
  cell of its start time. A task whose two dates are different days of the
  grid shows in two cells (`CalendarView.TwoDatesTwoCells`).
- **Shell state.** The shell holds two pieces of state: the active view and
  whether the mobile menu sheet is open.

## Model

| member | source | states |
|---|---|---|
| Schemas.ParseStatus | src/lib/schemas.ts:12 | a string names a status exactly when it is one of the three enum literals, and then the status's name is that string |
| Schemas.ParsePriority | src/lib/schemas.ts:13 | the same for the three priority literals |
| Schemas.EnumNamesRoundTrip | src/lib/schemas.ts:12-13 | parsing the name of any status or priority gives it back, and every name is in the enum's option list |
| Schemas.ValidateProject | src/lib/schemas.ts:3-7 | accepts exactly an object whose name is a string of length at least 1 and whose color and description are absent or strings; the result has that name, the color or "#3b82f6" when absent, and the description if given; a rejection carries at least one issue |
| Schemas.ValidateTask | src/lib/schemas.ts:9-19 | accepts exactly an object with a non-empty title string; optional string description and projectId; status and priority absent or one of their enum literals; the three dates absent, null or a date that names a real day; allDay absent or a boolean. The result carries each field, with status TODO, priority MEDIUM and allDay false when absent; a rejection carries at least one issue |
| Schemas.EmptyNameRejected | src/lib/schemas.ts:4 | an empty name is rejected with the issue too_small(1, "Name is required") at key name |
| Schemas.EmptyTitleRejected | src/lib/schemas.ts:10 | an empty title is rejected with the issue too_small(1, "Title is required") at key title |
| Schemas.UnknownEnumRejected | src/lib/schemas.ts:12-13 | a status or priority string outside its enum is rejected with an invalid-enum issue at that key |
| Schemas.InvalidDateRejected | src/lib/schemas.ts:15-17 | a date object that names no day is rejected with invalid_date at its key |
| Schemas.TimesAreUnordered | src/lib/schemas.ts:16-17 | any start and end dates, in either order, are accepted unchanged: no ordering rule exists |
| Schemas.ProjectRoundTrip | src/lib/schemas.ts:3-7 | validating the payload of any project with a non-empty name returns that project |
| Schemas.TaskFromFields | src/lib/schemas.ts:9-19 | any object whose keys hold the fields of a task with a non-empty title and real dates validates to exactly that task |
| Schemas.TaskRoundTrip | src/lib/schemas.ts:9-19 | validating the payload of any task with a non-empty title and real dates returns that task |
| Schemas.ProjectValidationIdempotent | src/lib/schemas.ts:3-7 | re-validating an accepted project accepts it and changes nothing |
| Schemas.TaskValidationIdempotent | src/lib/schemas.ts:9-19 | re-validating an accepted task accepts it and changes nothing |
| CivilDate.DaysInMonth | src/components/calendar-view.tsx:25 | every month has 28 to 31 days, and February has 29 exactly in leap years |
| CivilDate.DayNumberInjective | src/components/calendar-view.tsx:71-72 | two valid dates have the same day number exactly when they are the same date, and a smaller one exactly when the first comes earlier in the calendar (isSameDay is date equality) |
| CivilDate.NextDay | src/components/calendar-view.tsx:29 | the day after a valid date is valid and has the next day number |
| CivilDate.PrevDay | src/components/calendar-view.tsx:26 | the day before a valid date is valid and has the previous day number |
| CivilDate.WeekdayAfter | src/components/calendar-view.tsx:31 | k days later the weekday has moved on by k, modulo 7 |
| CivilDate.StartOfWeek | src/components/calendar-view.tsx:26 | startOfWeek gives the Sunday that is Weekday(d) days before d |
| CivilDate.EndOfWeek | src/components/calendar-view.tsx:27 | endOfWeek gives the Saturday that is 6 - Weekday(d) days after d |
| CivilDate.StartOfMonth | src/components/calendar-view.tsx:24 | startOfMonth gives the 1st of the same month |
| CivilDate.EndOfMonth | src/components/calendar-view.tsx:25 | endOfMonth gives a day of the same month whose next day is a 1st, so the month's last day |
| CivilDate.SameMonthRange | src/components/calendar-view.tsx:76 | isSameMonth holds exactly when the day lies between the month's first and last day |
| CivilDate.MonthIndexInjective | src/components/calendar-view.tsx:76 | two dates have the same month count exactly when they are in the same month |
| CivilDate.AddMonths | src/components/calendar-view.tsx:20-21 | addMonths by n moves exactly n months on (back when n < 0) and clamps the day to the target month's length |
| CalendarView.EachDayOfInterval | src/components/calendar-view.tsx:29 | every day from start to end, inclusive, in order, with start and end at the two ends |
| CalendarView.GridStart | src/components/calendar-view.tsx:24-26 | the grid's first day is the Sunday on or before the 1st of the month |
| CalendarView.GridEnd | src/components/calendar-view.tsx:25-27 | the grid's last day is the Saturday on or after the month's last day |
| CalendarView.GridStartBeforeEnd | src/components/calendar-view.tsx:24-27 | grid start, month start, month end and grid end come in that order |
| CalendarView.MonthGrid | src/components/calendar-view.tsx:24-29 | the grid is non-empty and holds consecutive valid days |
| CalendarView.GridEnds | src/components/calendar-view.tsx:24-29 | the grid starts at GridStart, ends at GridEnd and has one cell per day between them |
| CalendarView.GridBounds | src/components/calendar-view.tsx:24-29 | the grid starts on a Sunday at most 6 days before the 1st and ends on a Saturday at most 6 days after the last day |
| CalendarView.GridLength | src/components/calendar-view.tsx:24-29 | the grid is whole weeks: a multiple of 7 cells, between 28 and 42 |
| CalendarView.GridWeekdays | src/components/calendar-view.tsx:29-31 | cell i falls on weekday i mod 7, so each column lies under its Sun..Sat header |
| CalendarView.GridDistinct | src/components/calendar-view.tsx:29 | no day appears in two cells |
| CalendarView.GridCoversMonth | src/components/calendar-view.tsx:24-29 | every day of the displayed month is in exactly one cell |
| CalendarView.SameMonthSameGrid | src/components/calendar-view.tsx:24-29 | any two dates of one month give the same grid |
| CalendarView.CurrentMonthBlock | src/components/calendar-view.tsx:76 | the in-month cells are exactly those from column Weekday(1st) on, for as many cells as the month has days |
| CalendarView.DayTasks | src/components/calendar-view.tsx:70-73 | a day's list holds only listed tasks due or starting that day, and every such task |
| CalendarView.ChipColor | src/components/calendar-view.tsx:103-105 | a chip's colour is never empty: the project's colour when there is a project with a non-empty colour, otherwise "#3b82f6" |
| CalendarView.ChipColors | src/components/calendar-view.tsx:97-113 | one chip colour per task of a cell, in order, none of them empty |
| CalendarView.MonthCells | src/components/calendar-view.tsx:69-117 | one cell per grid day, in grid order |
| CalendarView.CellChips | src/components/calendar-view.tsx:97-113 | chip k of a cell has the colour of the cell's k-th task: its project's colour, or "#3b82f6" without a project or colour |
| CalendarView.CellTasks | src/components/calendar-view.tsx:70-73 | a cell holds exactly the tasks whose due date or start time is its day, as a subsequence of the task list in its order |
| CalendarView.TaskCells | src/components/calendar-view.tsx:70-73 | a listed task is in cell i exactly when its due date or its start time is that cell's day |
| CalendarView.UndatedTaskInNoCell | src/components/calendar-view.tsx:70-73 | a task with neither a due date nor a start time is in no cell |
| CalendarView.TwoDatesTwoCells | src/components/calendar-view.tsx:70-73 | a task whose due date and start time are two different days the grid shows is shown in two different cells |
| CalendarView.CellFlags | src/components/calendar-view.tsx:75-84 | a cell is today exactly when its day is today; it is current-month exactly when its day is in the displayed month; it closes a row exactly when its day is a Saturday |
| CalendarView.RowEnd | src/components/calendar-view.tsx:84 | (i + 1) % 7 == 0 exactly when i is in column 6 |
| CalendarView.TodayFlaggedOnce | src/components/calendar-view.tsx:75 | when the grid shows today, whether in the displayed month or a neighbouring one, exactly one cell is flagged today |
| CalendarView.NextThenPrevSameGrid | src/components/calendar-view.tsx:20-21 | next then previous month returns to the same month and grid, with the day possibly clamped down |
| CalendarView.PrevThenNextSameGrid | src/components/calendar-view.tsx:20-21 | previous then next month returns to the same month and grid, with the day possibly clamped down |
| CalendarView.NextThenPrevClamps | src/components/calendar-view.tsx:20-21 | 2023-01-31 goes to 2023-02-28 and back to 2023-01-28: the round trip can lose the day |
| CalendarView.TodayShowsToday | src/components/calendar-view.tsx:49 | after Today, today's cell is in the grid and is flagged both today and current-month |
| CalendarView.Calendar.constructor | src/components/calendar-view.tsx:17 | the calendar opens on the month of now |
| CalendarView.Calendar.NextMonth | src/components/calendar-view.tsx:20 | the displayed date becomes addMonths(current, 1), one month on |
| CalendarView.Calendar.PrevMonth | src/components/calendar-view.tsx:21 | the displayed date becomes subMonths(current, 1), one month back |
| CalendarView.Calendar.GoToToday | src/components/calendar-view.tsx:49 | the displayed date becomes today |
| CalendarView.Calendar.Cells | src/components/calendar-view.tsx:24-29 | the calendar always renders 4 to 6 whole weeks of cells, cell i on grid day i of the displayed month |
| Sequences.Filter | src/components/task-board.tsx:29 | filter keeps only elements that satisfy the predicate, keeps every element that does, and never grows |
| Sequences.FilterIsSubsequence | src/components/task-board.tsx:29 | filter reads the input at the increasing list of exactly the matching positions: order is preserved |
| Sequences.FilterMultiplicity | src/components/task-board.tsx:29 | filter keeps every copy of a matching value and no copy of any other |
| Sequences.FilterAppend | src/components/task-board.tsx:29 | filtering a concatenation is the concatenation of the filtered parts |
| Sequences.FilterAll | src/components/task-board.tsx:29 | a predicate that holds everywhere filters nothing out |
| TaskBoard.ColumnsAreStatuses | src/components/task-board.tsx:17-21 | the three column ids are the task schema's three statuses, in its order |
| TaskBoard.ColumnStatusCases | src/components/task-board.tsx:17-21 | a status the schema accepts is the id of one of the three columns |
| TaskBoard.ColumnTasks | src/components/task-board.tsx:29 | a column holds only listed tasks with its status, and all of them |
| TaskBoard.ColumnIsSubsequence | src/components/task-board.tsx:29 | a column is the task list read at exactly the positions whose status is the column's id, in increasing order |
| TaskBoard.TaskInColumn | src/components/task-board.tsx:29 | a listed task is in a column exactly when its status equals the column's id |
| TaskBoard.ColumnsOfTask | src/components/task-board.tsx:28-29 | a task with a column status is in one column and never in two; any other status puts it in none |
| TaskBoard.CountsAddUp | src/components/task-board.tsx:36 | the three counts add up to the number of tasks whose status names a column |
| TaskBoard.CountsCoverAllTasks | src/components/task-board.tsx:36 | when every status names a column, the counts add up to the length of the list |
| TaskBoard.ColumnsPartition | src/components/task-board.tsx:28-29 | when every status names a column, the columns' multiset union is the task list's multiset |
| TaskBoard.PriorityBadge | src/components/task-board.tsx:62 | the badge is never empty: the priority when it is non-empty, otherwise "MEDIUM" |
| TaskBoard.BadgeShowsAcceptedPriority | src/components/task-board.tsx:62 | every priority the schema accepts is shown as itself |
| TaskBoard.CardOf | src/components/task-board.tsx:45-86 | a card shows the task's project, its badge and its title; the description only when it is present and non-empty; and the due label |
| TaskBoard.ColumnViewOf | src/components/task-board.tsx:34-91 | a column shows its title, a count equal to its number of cards and tasks, and card k is the card of its k-th task |
| TaskBoard.PlaceholderWhenEmpty | src/components/task-board.tsx:87 | "No tasks yet" shows exactly when no task has the column's status |
| TaskBoard.Board | src/components/task-board.tsx:28 | one rendered column per entry of the columns table, in its order |
| Records.DueLabelOf | src/components/task-board.tsx:81 | the label is "No date" exactly when there is no due date, otherwise the due date |
| ListView.StatusColourOf | src/components/list-view.tsx:73-75 | green exactly for DONE, blue exactly for IN_PROGRESS, amber for every other string |
| ListView.StatusColourDistinguishes | src/components/list-view.tsx:73-75 | the three accepted statuses get three different colours |
| ListView.IndexOf | src/components/list-view.tsx:78 | the position of the first occurrence of the character, or -1 exactly when there is none |
| ListView.ReplaceFirst | src/components/list-view.tsx:78 | replace with a one-character pattern changes only the first occurrence and keeps the length |
| ListView.StatusLabel | src/components/list-view.tsx:78 | the label is as long as the status |
| ListView.StatusLabels | src/components/list-view.tsx:78 | TODO and DONE are shown as themselves, and IN_PROGRESS as "IN PROGRESS" |
| ListView.InProgressLabel | src/components/list-view.tsx:78 | IN_PROGRESS is shown as "IN PROGRESS" |
| ListView.NoUnderscore | src/components/list-view.tsx:78 | a status without an underscore is shown unchanged |
| ListView.OnlyFirstUnderscoreReplaced | src/components/list-view.tsx:78 | any underscore after the first stays an underscore, and the first becomes a space |
| ListView.StatusLabelDistinguishes | src/components/list-view.tsx:78 | the three accepted statuses get three different labels |
| ListView.ProjectCellOf | src/components/list-view.tsx:54-66 | the cell is "-" exactly when there is no project, otherwise the project's name and colour |
| ListView.RowOf | src/components/list-view.tsx:44-95 | a row shows the task's title, project cell, status colour and label, and priority as stored; it is emphasised exactly for HIGH and shows the due label |
| ListView.Render | src/components/list-view.tsx:21-43 | "No tasks found" exactly for an empty list; otherwise one row per task, row i being the row of task i |
| ListView.RowsInOrder | src/components/list-view.tsx:43 | row i shows task i's id and title: the list's order is kept |
| ListView.OnlyHighEmphasised | src/components/list-view.tsx:86 | among accepted priorities only HIGH is emphasised |
| MainLayout.ViewName | src/components/sidebar.tsx:39-61 | each sidebar button passes one of the three view names |
| MainLayout.ViewNamesDistinct | src/components/sidebar.tsx:39-61 | different buttons pass different names |
| MainLayout.EveryViewHasAButton | src/components/sidebar.tsx:39-61 | every view name is passed by some button |
| MainLayout.RenderedPanes | src/components/main-layout.tsx:75-77 | at most one view is rendered, and exactly one when activeView is a view name. It is the view activeView names and gets the tasks unchanged; the calendar and the board also get the projects, the list gets none |
| MainLayout.HighlightMatchesView | src/components/sidebar.tsx:34-59 | for a valid view exactly one button is highlighted, and the rendered view is that button's view |
| MainLayout.Layout.constructor | src/components/main-layout.tsx:23-24 | the shell opens on the calendar with the mobile menu closed |
| MainLayout.Layout.SelectFromDesktop | src/components/main-layout.tsx:33 | a desktop button sets the view and leaves the menu flag as it was |
| MainLayout.Layout.SelectFromMobile | src/components/main-layout.tsx:51-54 | a button in the mobile sheet sets the view and closes the menu |
| MainLayout.Layout.SetMobileMenuOpen | src/components/main-layout.tsx:41 | opening or dismissing the sheet sets the flag and leaves the view alone |
| MainLayout.Layout.Rendered | src/components/main-layout.tsx:75-77 | the shell always renders exactly one view, with the tasks it was given: the view of the highlighted button |

## Left out

- The server actions (`src/actions/`), the create/edit dialogs, `src/app/page.tsx` and the providers: they are storage, form state and framework wiring, not decisions this model states.
- Time zones and time of day: every timestamp is a civil date, so isSameDay is date equality. The model does not capture two instants on one local day that fall on different UTC days, or the reverse.
- date-fns formatting ("MMMM", "yyyy", "d", "MMM d", "MMM dd, yyyy"): a due date is modelled as the date itself (`Records.DueLabelOf`), not as its text.
- CSS classes, icons and animation: only the decisions behind them are modelled (colour choice, emphasis, row end, dimming of out-of-month cells as `isCurrentMonth`).
- Zod's own default messages ("Required", "Expected string, received null" and the like): issues carry their code and path; only the two custom messages of the schemas are kept as text.
- Invalid Date objects as such: a date value is a (year, month, day) triple, and an Invalid Date stands as a triple that names no day. The task schema rejects it with invalid_date (`Schemas.InvalidDateRejected`).
- The capitalised header title `{activeView} View` (main-layout.tsx line 59): it is text only.
- The editingTask state and the edit dialog it opens from a calendar chip or a board card: the dialogs are not part of this model.
- The create-task trigger and the theme toggle in the shell's header: they open dialogs or change the theme, neither of which is part of this model.
- Key props and React re-rendering: each view is modelled as a function of its props and state.
