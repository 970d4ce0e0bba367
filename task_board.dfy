/**
 * The kanban board (src/components/task-board.tsx): three fixed columns, each
 * showing the tasks whose status string equals the column's id, in the order
 * of the task list, with a count, an empty-column placeholder and one card
 * per task.
 */
module TaskBoard {
  import opened Wrappers
  import opened Records
  import opened Sequences
  import opened Schemas

  datatype Column = Column(id: string, title: string)

  /** The columns table (lines 17-21). */
  const Columns: seq<Column> := [
    Column("TODO", "To Do"),
    Column("IN_PROGRESS", "In Progress"),
    Column("DONE", "Done")
  ]

  /** The columns are the three statuses the task schema accepts, in its order. */
  lemma ColumnsAreStatuses()
    ensures |Columns| == |StatusNames| == 3
    ensures forall c :: 0 <= c < |Columns| ==> Columns[c].id == StatusNames[c]
    ensures Columns[0].id == StatusName(TODO) && Columns[1].id == StatusName(IN_PROGRESS)
      && Columns[2].id == StatusName(DONE)
  {
  }

  /** The filter predicate of a column: task.status === col.id (line 29). */
  function HasStatus(id: string): Task -> bool
  {
    (t: Task) => t.status == id
  }

  /** The tasks of one column (line 29). */
  function ColumnTasks(tasks: seq<Task>, col: Column): (r: seq<Task>)
    ensures forall i :: 0 <= i < |r| ==> r[i] in tasks && r[i].status == col.id
    ensures forall i :: 0 <= i < |tasks| && tasks[i].status == col.id ==> tasks[i] in r
  {
    Filter(tasks, HasStatus(col.id))
  }

  /** A status string that names one of the columns. */
  predicate IsColumnStatus(status: string)
  {
    status in StatusNames
  }

  /** A column status is the id of one of the three columns. */
  lemma ColumnStatusCases(status: string)
    requires IsColumnStatus(status)
    ensures status == Columns[0].id || status == Columns[1].id || status == Columns[2].id
  {
  }

  /** The filter that keeps the tasks some column shows. */
  const OnSomeColumn: Task -> bool := (t: Task) => IsColumnStatus(t.status)

  /** The priority badge: task.priority || "MEDIUM" (line 62). */
  function PriorityBadge(priority: string): (b: string)
    ensures b != []
    ensures priority != [] ==> b == priority
    ensures priority == [] ==> b == "MEDIUM"
  {
    if priority != [] then priority else "MEDIUM"
  }

  /** Every priority the task schema accepts is shown as itself. */
  lemma BadgeShowsAcceptedPriority(pr: Priority)
    ensures PriorityBadge(PriorityName(pr)) == PriorityName(pr)
  {
  }

  /** One card (lines 45-86): the project tag when there is a project, the
      priority badge, the title, the description when it is non-empty, and the
      due label. */
  datatype Card = Card(
    id: string,
    project: Option<Project>,
    badge: string,
    title: string,
    description: Option<string>,
    due: DueLabel)

  /** The card of a task; its date label is "No date" without a due date (line 81). */
  function CardOf(t: Task): (c: Card)
    ensures c.id == t.id && c.title == t.title && c.project == t.project
    ensures c.badge == PriorityBadge(t.priority)
    ensures c.description.Some? <==> t.description.Some? && t.description.value != []
    ensures c.description.Some? ==> c.description == t.description
    ensures c.due == DueLabelOf(t.dueDate)
  {
    Card(t.id, t.project, PriorityBadge(t.priority),
      t.title,
      if t.description.Some? && t.description.value != [] then t.description else None,
      DueLabelOf(t.dueDate))
  }

  /** One rendered column: title, count badge (line 36), cards and the
      "No tasks yet" placeholder (line 87). */
  datatype ColumnView = ColumnView(title: string, count: nat, cards: seq<Card>, placeholder: bool)

  function ColumnViewOf(tasks: seq<Task>, col: Column): (v: ColumnView)
    ensures v.title == col.title
    ensures v.count == |v.cards| == |ColumnTasks(tasks, col)|
    ensures forall k :: 0 <= k < |v.cards| ==> v.cards[k] == CardOf(ColumnTasks(tasks, col)[k])
  {
    var colTasks := ColumnTasks(tasks, col);
    ColumnView(col.title, |colTasks|, seq(|colTasks|, k requires 0 <= k < |colTasks| => CardOf(colTasks[k])),
      |colTasks| == 0)
  }

  /** columns.map on line 28. */
  function Board(tasks: seq<Task>): (b: seq<ColumnView>)
    ensures |b| == |Columns|
    ensures forall c :: 0 <= c < |b| ==> b[c] == ColumnViewOf(tasks, Columns[c])
  {
    seq(|Columns|, c requires 0 <= c < |Columns| => ColumnViewOf(tasks, Columns[c]))
  }

  /** A column's contents are the tasks with exactly its status, read in the
      order of the task list. */
  lemma ColumnIsSubsequence(tasks: seq<Task>, col: Column)
    ensures var idx := MatchingIndices(tasks, HasStatus(col.id), 0);
      && StrictlyIncreasing(idx)
      && (forall j :: j in idx <==> 0 <= j < |tasks| && tasks[j].status == col.id)
      && |ColumnTasks(tasks, col)| == |idx|
      && (forall k :: 0 <= k < |idx| ==> 0 <= idx[k] < |tasks| && ColumnTasks(tasks, col)[k] == tasks[idx[k]])
  {
    FilterIsSubsequence(tasks, HasStatus(col.id));
  }

  /** A listed task is in a column exactly when its status is the column's id. */
  lemma TaskInColumn(tasks: seq<Task>, t: Task, c: int)
    requires t in tasks && 0 <= c < |Columns|
    ensures t in ColumnTasks(tasks, Columns[c]) <==> t.status == Columns[c].id
  {
    var r := ColumnTasks(tasks, Columns[c]);
    if t in r {
      var k :| 0 <= k < |r| && r[k] == t;
    }
    var j :| 0 <= j < |tasks| && tasks[j] == t;
  }

  /** A task with a column status is in exactly one column; any other status
      puts it in none. */
  lemma ColumnsOfTask(tasks: seq<Task>, t: Task)
    requires t in tasks
    ensures IsColumnStatus(t.status) ==>
      exists c :: 0 <= c < |Columns| && t in ColumnTasks(tasks, Columns[c])
    ensures forall c, d ::
      (0 <= c < |Columns| && 0 <= d < |Columns|
       && t in ColumnTasks(tasks, Columns[c]) && t in ColumnTasks(tasks, Columns[d])) ==> c == d
    ensures !IsColumnStatus(t.status) ==>
      forall c :: 0 <= c < |Columns| ==> t !in ColumnTasks(tasks, Columns[c])
  {
    TaskInColumn(tasks, t, 0);
    TaskInColumn(tasks, t, 1);
    TaskInColumn(tasks, t, 2);
  }

  /** The column counts add up to the number of tasks whose status names a column. */
  lemma {:induction false} CountsAddUp(tasks: seq<Task>)
    ensures |ColumnTasks(tasks, Columns[0])| + |ColumnTasks(tasks, Columns[1])| + |ColumnTasks(tasks, Columns[2])|
      == |Filter(tasks, OnSomeColumn)|
    decreases |tasks|
  {
    if tasks != [] {
      CountsAddUp(tasks[1..]);
    }
  }

  /** When every status names a column, the counts add up to the whole list. */
  lemma CountsCoverAllTasks(tasks: seq<Task>)
    requires forall i :: 0 <= i < |tasks| ==> IsColumnStatus(tasks[i].status)
    ensures |ColumnTasks(tasks, Columns[0])| + |ColumnTasks(tasks, Columns[1])| + |ColumnTasks(tasks, Columns[2])|
      == |tasks|
  {
    CountsAddUp(tasks);
    FilterAll(tasks, OnSomeColumn);
  }

  /** When every status names a column, the columns together hold every task
      exactly as often as the list does: the board partitions the list. */
  lemma ColumnsPartition(tasks: seq<Task>)
    requires forall i :: 0 <= i < |tasks| ==> IsColumnStatus(tasks[i].status)
    ensures multiset(ColumnTasks(tasks, Columns[0])) + multiset(ColumnTasks(tasks, Columns[1]))
      + multiset(ColumnTasks(tasks, Columns[2])) == multiset(tasks)
  {
    var m0, m1, m2 := multiset(ColumnTasks(tasks, Columns[0])), multiset(ColumnTasks(tasks, Columns[1])),
      multiset(ColumnTasks(tasks, Columns[2]));
    forall x: Task ensures (m0 + m1 + m2)[x] == multiset(tasks)[x] {
      FilterMultiplicity(tasks, HasStatus(Columns[0].id), x);
      FilterMultiplicity(tasks, HasStatus(Columns[1].id), x);
      FilterMultiplicity(tasks, HasStatus(Columns[2].id), x);
      if x in tasks {
        var j :| 0 <= j < |tasks| && tasks[j] == x;
        ColumnStatusCases(x.status);
      }
    }
  }

  /** The placeholder shows exactly when no task has the column's status. */
  lemma PlaceholderWhenEmpty(tasks: seq<Task>, col: Column)
    ensures ColumnViewOf(tasks, col).placeholder <==> forall i :: 0 <= i < |tasks| ==> tasks[i].status != col.id
  {
    var r := ColumnTasks(tasks, col);
    if r != [] {
      assert r[0] in tasks;
      var j :| 0 <= j < |tasks| && tasks[j] == r[0];
    }
  }
}
