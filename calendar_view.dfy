/**
 * The calendar view (src/components/calendar-view.tsx): the month grid from
 * the Sunday on or before the 1st of the displayed month to the Saturday on
 * or after its last day, the tasks of each day, the current-month and today
 * flags, and the displayed month that the arrows and the Today button change.
 */
module CalendarView {
  import opened Wrappers
  import opened CivilDate
  import opened Records
  import opened Sequences

  /** n consecutive days starting at start. */
  function Days(start: Date, n: nat): (r: seq<Date>)
    requires Valid(start)
    ensures |r| == n
    ensures forall i :: 0 <= i < n ==> Valid(r[i]) && DayNumber(r[i]) == DayNumber(start) + i
    decreases n
  {
    if n == 0 then [] else [start] + Days(NextDay(start), n - 1)
  }

  /** eachDayOfInterval: every day from start to end inclusive. */
  function EachDayOfInterval(start: Date, end: Date): (r: seq<Date>)
    requires Valid(start) && Valid(end) && DayNumber(start) <= DayNumber(end)
    ensures |r| == DayNumber(end) - DayNumber(start) + 1
    ensures r[0] == start && r[|r| - 1] == end
    ensures forall i :: 0 <= i < |r| ==> Valid(r[i]) && DayNumber(r[i]) == DayNumber(start) + i
  {
    var r := Days(start, DayNumber(end) - DayNumber(start) + 1);
    DayNumberInjective(r[0], start);
    DayNumberInjective(r[|r| - 1], end);
    r
  }

  /** The last day of a month is its first day plus the month's length less one. */
  lemma MonthSpan(d: Date)
    requires Valid(d)
    ensures DayNumber(EndOfMonth(d)) == DayNumber(StartOfMonth(d)) + DaysInMonth(d.year, d.month) - 1
  {
  }

  /** The Sunday on or before the 1st of the month (lines 24 and 26). */
  function GridStart(currentMonth: Date): (r: Date)
    requires Valid(currentMonth)
    ensures Valid(r) && Weekday(r) == 0
    ensures DayNumber(r) == DayNumber(StartOfMonth(currentMonth)) - Weekday(StartOfMonth(currentMonth))
  {
    StartOfWeek(StartOfMonth(currentMonth))
  }

  /** The Saturday on or after the month's last day (lines 25 and 27). */
  function GridEnd(currentMonth: Date): (r: Date)
    requires Valid(currentMonth)
    ensures Valid(r) && Weekday(r) == 6
    ensures DayNumber(r) == DayNumber(EndOfMonth(currentMonth)) + 6 - Weekday(EndOfMonth(currentMonth))
  {
    EndOfWeek(EndOfMonth(StartOfMonth(currentMonth)))
  }

  /** The grid runs forwards: its first day is not after its last. */
  lemma GridStartBeforeEnd(currentMonth: Date)
    requires Valid(currentMonth)
    ensures DayNumber(GridStart(currentMonth)) <= DayNumber(StartOfMonth(currentMonth))
    ensures DayNumber(StartOfMonth(currentMonth)) <= DayNumber(EndOfMonth(currentMonth))
    ensures DayNumber(EndOfMonth(currentMonth)) <= DayNumber(GridEnd(currentMonth))
  {
    MonthSpan(currentMonth);
  }

  /** The days the grid shows for the month of currentMonth (lines 24-29). */
  function MonthGrid(currentMonth: Date): (grid: seq<Date>)
    requires Valid(currentMonth)
    ensures |grid| >= 1 && Valid(grid[0])
    ensures forall i :: 0 <= i < |grid| ==> Valid(grid[i]) && DayNumber(grid[i]) == DayNumber(grid[0]) + i
  {
    GridStartBeforeEnd(currentMonth);
    EachDayOfInterval(GridStart(currentMonth), GridEnd(currentMonth))
  }

  /** The grid is the interval from GridStart to GridEnd. */
  lemma GridEnds(currentMonth: Date)
    requires Valid(currentMonth)
    ensures var grid := MonthGrid(currentMonth);
      && grid[0] == GridStart(currentMonth)
      && grid[|grid| - 1] == GridEnd(currentMonth)
      && |grid| == DayNumber(GridEnd(currentMonth)) - DayNumber(GridStart(currentMonth)) + 1
  {
    GridStartBeforeEnd(currentMonth);
    var start, end := GridStart(currentMonth), GridEnd(currentMonth);
    var grid := EachDayOfInterval(start, end);
    assert MonthGrid(currentMonth) == grid;
    assert grid[0] == start && grid[|grid| - 1] == end;
  }

  /** The grid's first day is the Sunday on or before the 1st, and its last day
      the Saturday on or after the month's last day. */
  lemma GridBounds(currentMonth: Date)
    requires Valid(currentMonth)
    ensures var grid := MonthGrid(currentMonth);
      var first := StartOfMonth(currentMonth);
      var last := EndOfMonth(currentMonth);
      && Weekday(grid[0]) == 0
      && DayNumber(first) - 6 <= DayNumber(grid[0]) <= DayNumber(first)
      && Weekday(grid[|grid| - 1]) == 6
      && DayNumber(last) <= DayNumber(grid[|grid| - 1]) <= DayNumber(last) + 6
  {
    GridEnds(currentMonth);
  }

  /** Week arithmetic: from the weekday wf of one day to the Saturday on or
      after the day k later, counting from the Sunday on or before the first,
      whose weekday is wl, is 4 to 6 whole weeks when 27 <= k <= 30. */
  lemma WholeWeeks(wf: int, wl: int, k: int, len: int)
    requires 0 <= wf < 7 && 27 <= k <= 30 && wl == (wf + k) % 7
    requires len == wf + k + 7 - wl
    ensures len % 7 == 0
    ensures 28 <= len <= 42
  {
    ModSeven(len, (wf + k) / 7 + 1, 0);
  }

  /** Padding a span of 28 to 31 days back to a Sunday and forward to a
      Saturday gives 4 to 6 whole weeks. */
  lemma PaddedWeeks(first: Date, last: Date, gs: int, ge: int, len: int)
    requires Valid(first) && Valid(last)
    requires 28 <= DayNumber(last) - DayNumber(first) + 1 <= 31
    requires gs == DayNumber(first) - Weekday(first)
    requires ge == DayNumber(last) + 6 - Weekday(last)
    requires len == ge - gs + 1
    ensures len % 7 == 0
    ensures 28 <= len <= 42
  {
    var k := DayNumber(last) - DayNumber(first);
    WeekdayAfter(first, last, k);
    WholeWeeks(Weekday(first), Weekday(last), k, len);
  }

  /** The grid is whole weeks: 4, 5 or 6 rows of seven days. */
  lemma GridLength(currentMonth: Date)
    requires Valid(currentMonth)
    ensures |MonthGrid(currentMonth)| % 7 == 0
    ensures 28 <= |MonthGrid(currentMonth)| <= 42
  {
    MonthSpan(currentMonth);
    GridEnds(currentMonth);
    PaddedWeeks(StartOfMonth(currentMonth), EndOfMonth(currentMonth),
      DayNumber(GridStart(currentMonth)), DayNumber(GridEnd(currentMonth)), |MonthGrid(currentMonth)|);
  }

  /** Consecutive days starting on a Sunday fall on weekday i mod 7. */
  lemma WeekdaysFromSunday(days: seq<Date>)
    requires |days| >= 1 && Valid(days[0]) && Weekday(days[0]) == 0
    requires forall i :: 0 <= i < |days| ==> Valid(days[i]) && DayNumber(days[i]) == DayNumber(days[0]) + i
    ensures forall i :: 0 <= i < |days| ==> Weekday(days[i]) == i % 7
  {
    forall i | 0 <= i < |days| ensures Weekday(days[i]) == i % 7 {
      WeekdayAfter(days[0], days[i], i);
    }
  }

  /** Cell i falls on weekday i mod 7: column 0 is Sunday. */
  lemma GridWeekdays(currentMonth: Date)
    requires Valid(currentMonth)
    ensures forall i :: 0 <= i < |MonthGrid(currentMonth)| ==> Weekday(MonthGrid(currentMonth)[i]) == i % 7
  {
    GridBounds(currentMonth);
    WeekdaysFromSunday(MonthGrid(currentMonth));
  }

  /** Grid days are all different: day numbers increase along the grid. */
  lemma GridDistinct(currentMonth: Date, i: int, j: int)
    requires Valid(currentMonth)
    requires 0 <= i < |MonthGrid(currentMonth)| && 0 <= j < |MonthGrid(currentMonth)|
    ensures MonthGrid(currentMonth)[i] == MonthGrid(currentMonth)[j] <==> i == j
  {
  }

  /** Every day of the displayed month appears in the grid, exactly once. */
  lemma GridCoversMonth(currentMonth: Date, d: Date)
    requires Valid(currentMonth) && Valid(d) && SameMonth(d, currentMonth)
    ensures exists i :: 0 <= i < |MonthGrid(currentMonth)| && MonthGrid(currentMonth)[i] == d
    ensures forall i, j ::
      (0 <= i < |MonthGrid(currentMonth)| && 0 <= j < |MonthGrid(currentMonth)|
       && MonthGrid(currentMonth)[i] == d && MonthGrid(currentMonth)[j] == d) ==> i == j
  {
    var grid := MonthGrid(currentMonth);
    var first := StartOfMonth(currentMonth);
    MonthSpan(currentMonth);
    GridBounds(currentMonth);
    var i := DayNumber(d) - DayNumber(grid[0]);
    assert DayNumber(d) == DayNumber(first) + d.day - 1;
    DayNumberInjective(grid[i], d);
  }

  /** Two dates in the same month show the same grid: the grid depends only
      on the month (lines 24-29). */
  lemma SameMonthSameGrid(a: Date, b: Date)
    requires Valid(a) && Valid(b) && SameMonth(a, b)
    ensures MonthGrid(a) == MonthGrid(b)
  {
    assert StartOfMonth(a) == StartOfMonth(b);
  }

  /** The grid cells inside the displayed month are one block: those from
      column Weekday(1st) on, for as many cells as the month has days. */
  lemma CurrentMonthBlock(currentMonth: Date, i: int)
    requires Valid(currentMonth) && 0 <= i < |MonthGrid(currentMonth)|
    ensures var offset := Weekday(StartOfMonth(currentMonth));
      SameMonth(MonthGrid(currentMonth)[i], currentMonth) <==>
      offset <= i < offset + DaysInMonth(currentMonth.year, currentMonth.month)
  {
    GridEnds(currentMonth);
    MonthSpan(currentMonth);
    SameMonthRange(MonthGrid(currentMonth)[i], currentMonth);
  }

  // ---------------------------------------------------------------------
  // The cells: the tasks of each day and the two flags (lines 69-116)
  // ---------------------------------------------------------------------

  /** A task belongs to a day when its due date or its start time is that day
      (lines 70-73); a missing date matches no day. */
  predicate FallsOn(t: Task, day: Date)
  {
    (t.dueDate.Some? && t.dueDate.value == day) || (t.startTime.Some? && t.startTime.value == day)
  }

  /** The filter predicate of one cell. */
  function OnDay(day: Date): Task -> bool
  {
    t => FallsOn(t, day)
  }

  /** The tasks shown in the cell for day: tasks.filter on lines 70-73. */
  function DayTasks(tasks: seq<Task>, day: Date): (r: seq<Task>)
    ensures forall i :: 0 <= i < |r| ==> r[i] in tasks && FallsOn(r[i], day)
    ensures forall i :: 0 <= i < |tasks| && FallsOn(tasks[i], day) ==> tasks[i] in r
  {
    Filter(tasks, OnDay(day))
  }

  /** The colour of a task chip (lines 103-105): its project's colour, or the
      default blue when there is no project or the colour is empty. */
  function ChipColor(t: Task): (c: string)
    ensures c != []
    ensures t.project.Some? && t.project.value.color != [] ==> c == t.project.value.color
    ensures (t.project.None? || t.project.value.color == []) ==> c == "#3b82f6"
  {
    if t.project.Some? && t.project.value.color != [] then t.project.value.color else "#3b82f6"
  }

  /** The colours of a cell's task chips, one per task, in order (lines 97-113). */
  function ChipColors(dayTasks: seq<Task>): (colors: seq<string>)
    ensures |colors| == |dayTasks|
    ensures forall k :: 0 <= k < |colors| ==> colors[k] != []
  {
    seq(|dayTasks|, k requires 0 <= k < |dayTasks| => ChipColor(dayTasks[k]))
  }

  /** One cell of the grid: its day, its tasks and their chip colours, whether
      it is today, whether it is in the displayed month, and whether it closes
      a row (line 84). */
  datatype Cell = Cell(
    day: Date,
    tasks: seq<Task>,
    chipColors: seq<string>,
    isToday: bool,
    isCurrentMonth: bool,
    isRowEnd: bool)

  /** days.map((day, dayIdx) => ...) on lines 69-117. */
  function MonthCells(currentMonth: Date, tasks: seq<Task>, today: Date): (cells: seq<Cell>)
    requires Valid(currentMonth)
    ensures |cells| == |MonthGrid(currentMonth)|
    ensures forall i :: 0 <= i < |cells| ==> cells[i].day == MonthGrid(currentMonth)[i]
  {
    var grid := MonthGrid(currentMonth);
    var monthStart := StartOfMonth(currentMonth);
    seq(|grid|, i requires 0 <= i < |grid| =>
      var dayTasks := DayTasks(tasks, grid[i]);
      Cell(grid[i], dayTasks, ChipColors(dayTasks), grid[i] == today, SameMonth(grid[i], monthStart), (i + 1) % 7 == 0))
  }

  /** A cell holds exactly the tasks whose due date or start time is its day,
      in the order of the input list. */
  lemma CellTasks(currentMonth: Date, tasks: seq<Task>, today: Date, i: int)
    requires Valid(currentMonth) && 0 <= i < |MonthGrid(currentMonth)|
    ensures var cell := MonthCells(currentMonth, tasks, today)[i];
      var idx := MatchingIndices(tasks, OnDay(cell.day), 0);
      && (forall t :: t in cell.tasks <==> t in tasks && FallsOn(t, cell.day))
      && StrictlyIncreasing(idx)
      && (forall j :: j in idx <==> 0 <= j < |tasks| && FallsOn(tasks[j], cell.day))
      && |cell.tasks| == |idx|
      && (forall k :: 0 <= k < |idx| ==> 0 <= idx[k] < |tasks| && cell.tasks[k] == tasks[idx[k]])
  {
    var day := MonthGrid(currentMonth)[i];
    FilterIsSubsequence(tasks, OnDay(day));
    var cell := MonthCells(currentMonth, tasks, today)[i];
    CellAt(currentMonth, tasks, today, i);
    forall t | t in cell.tasks ensures t in tasks && FallsOn(t, day) {
      var k :| 0 <= k < |cell.tasks| && cell.tasks[k] == t;
    }
    forall t | t in tasks && FallsOn(t, day) ensures t in cell.tasks {
      var j :| 0 <= j < |tasks| && tasks[j] == t;
    }
  }

  /** A task sits in exactly the cells of its due day and of its start day. */
  lemma TaskCells(currentMonth: Date, tasks: seq<Task>, today: Date, t: Task, i: int)
    requires Valid(currentMonth) && 0 <= i < |MonthGrid(currentMonth)| && t in tasks
    ensures var day := MonthGrid(currentMonth)[i];
      t in MonthCells(currentMonth, tasks, today)[i].tasks <==>
      t.dueDate == Some(day) || t.startTime == Some(day)
  {
    CellTasks(currentMonth, tasks, today, i);
  }

  /** A task with neither a due date nor a start time is in no cell. */
  lemma UndatedTaskInNoCell(currentMonth: Date, tasks: seq<Task>, today: Date, t: Task)
    requires Valid(currentMonth) && t.dueDate.None? && t.startTime.None?
    ensures forall i :: 0 <= i < |MonthGrid(currentMonth)| ==> t !in MonthCells(currentMonth, tasks, today)[i].tasks
  {
    forall i | 0 <= i < |MonthGrid(currentMonth)|
      ensures t !in MonthCells(currentMonth, tasks, today)[i].tasks
    {
      CellTasks(currentMonth, tasks, today, i);
    }
  }

  /** A listed task whose due date and start time are two different days the
      grid shows is shown in two different cells. */
  lemma TwoDatesTwoCells(currentMonth: Date, tasks: seq<Task>, today: Date, t: Task)
    requires Valid(currentMonth) && t in tasks
    requires t.dueDate.Some? && t.startTime.Some? && t.dueDate.value != t.startTime.value
    requires t.dueDate.value in MonthGrid(currentMonth) && t.startTime.value in MonthGrid(currentMonth)
    ensures exists i, j ::
      (0 <= i < j < |MonthGrid(currentMonth)|
       && t in MonthCells(currentMonth, tasks, today)[i].tasks
       && t in MonthCells(currentMonth, tasks, today)[j].tasks)
  {
    var grid := MonthGrid(currentMonth);
    var a :| 0 <= a < |grid| && grid[a] == t.dueDate.value;
    var b :| 0 <= b < |grid| && grid[b] == t.startTime.value;
    TaskCells(currentMonth, tasks, today, t, a);
    TaskCells(currentMonth, tasks, today, t, b);
    if a < b {
      assert 0 <= a < b < |grid|;
    } else {
      assert 0 <= b < a < |grid|;
    }
  }

  /** Cell i of the month's cells, spelled out. */
  lemma CellAt(currentMonth: Date, tasks: seq<Task>, today: Date, i: int)
    requires Valid(currentMonth) && 0 <= i < |MonthGrid(currentMonth)|
    ensures var day := MonthGrid(currentMonth)[i];
      MonthCells(currentMonth, tasks, today)[i]
      == Cell(day, DayTasks(tasks, day), ChipColors(DayTasks(tasks, day)), day == today,
           SameMonth(day, StartOfMonth(currentMonth)), (i + 1) % 7 == 0)
  {
  }

  /** The flags of a cell: today exactly when its day is today, current-month
      exactly when its day is in the displayed month, row end exactly when its
      day is a Saturday. */
  lemma CellFlags(currentMonth: Date, tasks: seq<Task>, today: Date, i: int)
    requires Valid(currentMonth) && 0 <= i < |MonthGrid(currentMonth)|
    ensures var cell := MonthCells(currentMonth, tasks, today)[i];
      && (cell.isToday <==> cell.day == today)
      && (cell.isCurrentMonth <==> SameMonth(cell.day, currentMonth))
      && (cell.isRowEnd <==> Weekday(cell.day) == 6)
  {
    var grid := MonthGrid(currentMonth);
    CellAt(currentMonth, tasks, today, i);
    assert Weekday(grid[i]) == i % 7 by {
      GridWeekdays(currentMonth);
    }
    RowEnd(i, Weekday(grid[i]));
  }

  /** Chip k of a cell is drawn in the colour of the cell's k-th task: its
      project's colour, or the default blue without a project or colour. */
  lemma CellChips(currentMonth: Date, tasks: seq<Task>, today: Date, i: int, k: int)
    requires Valid(currentMonth) && 0 <= i < |MonthGrid(currentMonth)|
    requires 0 <= k < |MonthCells(currentMonth, tasks, today)[i].tasks|
    ensures var cell := MonthCells(currentMonth, tasks, today)[i];
      var t := cell.tasks[k];
      && |cell.chipColors| == |cell.tasks|
      && (t.project.Some? && t.project.value.color != [] ==> cell.chipColors[k] == t.project.value.color)
      && (t.project.None? || t.project.value.color == [] ==> cell.chipColors[k] == "#3b82f6")
  {
    CellAt(currentMonth, tasks, today, i);
  }

  /** Cell i closes a row when i + 1 is a multiple of 7, i.e. column 6. */
  lemma RowEnd(i: int, w: int)
    requires 0 <= i && w == i % 7
    ensures (i + 1) % 7 == 0 <==> w == 6
  {
    if w == 6 {
      ModSeven(i + 1, i / 7 + 1, 0);
    } else {
      ModSeven(i + 1, i / 7, w + 1);
    }
  }

  /** When the grid shows today, exactly one cell is flagged today. */
  lemma TodayFlaggedOnce(currentMonth: Date, tasks: seq<Task>, today: Date)
    requires Valid(currentMonth) && today in MonthGrid(currentMonth)
    ensures exists i :: 0 <= i < |MonthGrid(currentMonth)| && MonthCells(currentMonth, tasks, today)[i].isToday
    ensures forall i, j ::
      (0 <= i < |MonthGrid(currentMonth)| && 0 <= j < |MonthGrid(currentMonth)|
       && MonthCells(currentMonth, tasks, today)[i].isToday && MonthCells(currentMonth, tasks, today)[j].isToday) ==> i == j
  {
    var grid := MonthGrid(currentMonth);
    var i :| 0 <= i < |grid| && grid[i] == today;
    CellFlags(currentMonth, tasks, today, i);
    forall j, k | 0 <= j < |grid| && 0 <= k < |grid|
      && MonthCells(currentMonth, tasks, today)[j].isToday && MonthCells(currentMonth, tasks, today)[k].isToday
      ensures j == k
    {
      CellFlags(currentMonth, tasks, today, j);
      CellFlags(currentMonth, tasks, today, k);
      GridDistinct(currentMonth, j, k);
    }
  }

  // ---------------------------------------------------------------------
  // Month navigation (lines 17, 20-21, 49)
  // ---------------------------------------------------------------------

  /** Next then previous lands in the starting month, so on the same grid,
      with the day of the month possibly clamped down. */
  lemma NextThenPrevSameGrid(d: Date)
    requires Valid(d)
    ensures var back := AddMonths(AddMonths(d, 1), -1);
      SameMonth(back, d) && MonthGrid(back) == MonthGrid(d) && back.day <= d.day
  {
    var back := AddMonths(AddMonths(d, 1), -1);
    MonthIndexInjective(back, d);
    SameMonthSameGrid(back, d);
  }

  /** The clamp: Jan 31 goes to Feb 28 in 2023 and back to Jan 28. */
  lemma NextThenPrevClamps()
    ensures AddMonths(Date(2023, 1, 31), 1) == Date(2023, 2, 28)
    ensures AddMonths(Date(2023, 2, 28), -1) == Date(2023, 1, 28)
  {
    assert !IsLeapYear(2023);
  }

  /** Previous then next also lands in the starting month. */
  lemma PrevThenNextSameGrid(d: Date)
    requires Valid(d)
    ensures var back := AddMonths(AddMonths(d, -1), 1);
      SameMonth(back, d) && MonthGrid(back) == MonthGrid(d) && back.day <= d.day
  {
    var back := AddMonths(AddMonths(d, -1), 1);
    MonthIndexInjective(back, d);
    SameMonthSameGrid(back, d);
  }

  /** After Today, the grid is today's month and today's cell is flagged. */
  lemma TodayShowsToday(today: Date, tasks: seq<Task>)
    requires Valid(today)
    ensures exists i ::
      (0 <= i < |MonthGrid(today)| && MonthGrid(today)[i] == today
       && MonthCells(today, tasks, today)[i].isToday && MonthCells(today, tasks, today)[i].isCurrentMonth)
  {
    GridCoversMonth(today, today);
    var grid := MonthGrid(today);
    var i :| 0 <= i < |grid| && grid[i] == today;
    CellFlags(today, tasks, today, i);
  }

  /** The calendar's state: the month it displays, held as any date in it. */
  class Calendar {
    var currentMonth: Date

    ghost predicate Valid()
      reads this
    {
      CivilDate.Valid(currentMonth)
    }

    /** useState(new Date()) on line 17: the calendar opens on now's month. */
    constructor(now: Date)
      requires CivilDate.Valid(now)
      ensures Valid() && currentMonth == now
    {
      currentMonth := now;
    }

    /** nextMonth on line 20. */
    method NextMonth()
      requires Valid()
      modifies this
      ensures Valid() && currentMonth == AddMonths(old(currentMonth), 1)
      ensures MonthIndex(currentMonth) == MonthIndex(old(currentMonth)) + 1
    {
      currentMonth := AddMonths(currentMonth, 1);
    }

    /** prevMonth on line 21: subMonths(currentMonth, 1). */
    method PrevMonth()
      requires Valid()
      modifies this
      ensures Valid() && currentMonth == AddMonths(old(currentMonth), -1)
      ensures MonthIndex(currentMonth) == MonthIndex(old(currentMonth)) - 1
    {
      currentMonth := AddMonths(currentMonth, -1);
    }

    /** The Today button on line 49. */
    method GoToToday(today: Date)
      requires CivilDate.Valid(today)
      modifies this
      ensures Valid() && currentMonth == today
    {
      currentMonth := today;
    }

    /** The cells the calendar renders for its current state. */
    function Cells(tasks: seq<Task>, today: Date): (cells: seq<Cell>)
      requires Valid()
      reads this
      ensures |cells| % 7 == 0 && 28 <= |cells| <= 42
      ensures |cells| == |MonthGrid(currentMonth)|
      ensures forall i :: 0 <= i < |cells| ==> cells[i].day == MonthGrid(currentMonth)[i]
    {
      GridLength(currentMonth);
      MonthCells(currentMonth, tasks, today)
    }
  }
}
