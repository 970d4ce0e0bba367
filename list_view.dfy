/**
 * The list view (src/components/list-view.tsx): a "No tasks found" state for
 * an empty list, otherwise a table with one row per task, in the list's
 * order, showing the title, the project, a coloured status badge, the
 * priority and the due date.
 */
module ListView {
  import opened Wrappers
  import opened Records
  import opened Schemas

  /** The badge colours of lines 73-75. */
  datatype StatusColour = Green | Blue | Amber

  /** Green for DONE, blue for IN_PROGRESS, amber for anything else. */
  function StatusColourOf(status: string): (c: StatusColour)
    ensures c == Green <==> status == "DONE"
    ensures c == Blue <==> status == "IN_PROGRESS"
    ensures c == Amber <==> status != "DONE" && status != "IN_PROGRESS"
  {
    if status == "DONE" then Green
    else if status == "IN_PROGRESS" then Blue
    else Amber
  }

  /** Each status the task schema accepts gets its own colour. */
  lemma StatusColourDistinguishes(a: Status, b: Status)
    ensures StatusColourOf(StatusName(a)) == StatusColourOf(StatusName(b)) <==> a == b
  {
  }

  /** The position of the first c in s, or -1 when there is none. */
  function IndexOf(s: string, c: char): (k: int)
    ensures -1 <= k < |s|
    ensures k == -1 <==> c !in s
    ensures k >= 0 ==> s[k] == c && forall m :: 0 <= m < k ==> s[m] != c
  {
    if s == [] then -1
    else if s[0] == c then 0
    else
      var k := IndexOf(s[1..], c);
      if k == -1 then -1 else k + 1
  }

  /** String.prototype.replace with a one-character pattern: only the first
      occurrence of from is replaced. */
  function ReplaceFirst(s: string, from: char, to: char): (r: string)
    ensures |r| == |s|
    ensures forall i :: 0 <= i < |s| ==> r[i] == if i == IndexOf(s, from) then to else s[i]
  {
    if s == [] then []
    else if s[0] == from then [to] + s[1..]
    else [s[0]] + ReplaceFirst(s[1..], from, to)
  }

  /** The status label of line 78: status.replace("_", " "). */
  function StatusLabel(status: string): (l: string)
    ensures |l| == |status|
  {
    ReplaceFirst(status, '_', ' ')
  }

  /** The labels of the three statuses: only IN_PROGRESS changes. */
  lemma StatusLabels()
    ensures StatusLabel("TODO") == "TODO"
    ensures StatusLabel("IN_PROGRESS") == "IN PROGRESS"
    ensures StatusLabel("DONE") == "DONE"
  {
    NoUnderscore("TODO");
    NoUnderscore("DONE");
    InProgressLabel();
  }

  /** IN_PROGRESS is shown as IN PROGRESS. */
  lemma InProgressLabel()
    ensures StatusLabel("IN_PROGRESS") == "IN PROGRESS"
  {
    calc {
      ReplaceFirst("IN_PROGRESS", '_', ' ');
      ['I'] + ReplaceFirst("N_PROGRESS", '_', ' ');
      ['I'] + (['N'] + ReplaceFirst("_PROGRESS", '_', ' '));
      ['I'] + (['N'] + ([' '] + "PROGRESS"));
      { Spelling(); }
      "IN PROGRESS";
    }
  }

  /** A label without an underscore is the status itself. */
  lemma NoUnderscore(s: string)
    requires forall i :: 0 <= i < |s| ==> s[i] != '_'
    ensures StatusLabel(s) == s
  {
    assert '_' !in s;
  }

  lemma Spelling()
    ensures ['I'] + (['N'] + ([' '] + "PROGRESS")) == "IN PROGRESS"
  {
  }

  /** Only the first underscore becomes a space: later ones stay. */
  lemma OnlyFirstUnderscoreReplaced(s: string, i: int, j: int)
    requires 0 <= i < j < |s| && s[i] == '_' && s[j] == '_'
    ensures StatusLabel(s)[j] == '_'
    ensures (forall m :: 0 <= m < i ==> s[m] != '_') ==> StatusLabel(s)[i] == ' '
  {
    assert s[i] in s;
  }

  /** Each status the task schema accepts has its own label. */
  lemma StatusLabelDistinguishes(a: Status, b: Status)
    ensures StatusLabel(StatusName(a)) == StatusLabel(StatusName(b)) <==> a == b
  {
    StatusLabels();
  }

  /** The project cell (lines 54-66): "-" without a project, else the
      project's colour dot and name. */
  datatype ProjectCell = Dash | Tagged(name: string, color: string)

  function ProjectCellOf(project: Option<Project>): (c: ProjectCell)
    ensures c.Dash? <==> project.None?
    ensures project.Some? ==> c == Tagged(project.value.name, project.value.color)
  {
    match project
    case None => Dash
    case Some(p) => Tagged(p.name, p.color)
  }

  /** One table row (lines 44-95). The priority is shown as stored, with the
      red emphasis only for HIGH (line 86). */
  datatype Row = Row(
    id: string,
    title: string,
    project: ProjectCell,
    statusColour: StatusColour,
    statusLabel: string,
    priority: string,
    emphasised: bool,
    due: DueLabel)

  function RowOf(t: Task): (r: Row)
    ensures r.id == t.id && r.title == t.title && r.priority == t.priority
    ensures r.project == ProjectCellOf(t.project)
    ensures r.statusColour == StatusColourOf(t.status) && r.statusLabel == StatusLabel(t.status)
    ensures r.emphasised <==> t.priority == "HIGH"
    ensures r.due == DueLabelOf(t.dueDate)
  {
    Row(t.id, t.title, ProjectCellOf(t.project), StatusColourOf(t.status), StatusLabel(t.status),
      t.priority, t.priority == "HIGH", DueLabelOf(t.dueDate))
  }

  /** What the list view renders: the empty state (lines 21-27) or the table. */
  datatype Screen = NoTasksFound | Table(rows: seq<Row>)

  function Render(tasks: seq<Task>): (v: Screen)
    ensures v.NoTasksFound? <==> tasks == []
    ensures v.Table? ==> |v.rows| == |tasks| && forall i :: 0 <= i < |tasks| ==> v.rows[i] == RowOf(tasks[i])
  {
    if |tasks| == 0 then NoTasksFound
    else Table(seq(|tasks|, i requires 0 <= i < |tasks| => RowOf(tasks[i])))
  }

  /** Rows come in the order of the tasks: row i is task i, and a task listed
      twice gets two rows. */
  lemma RowsInOrder(tasks: seq<Task>, i: int)
    requires 0 <= i < |tasks|
    ensures Render(tasks).Table?
    ensures Render(tasks).rows[i].id == tasks[i].id && Render(tasks).rows[i].title == tasks[i].title
  {
  }

  /** Only HIGH priority is emphasised, among the priorities the task schema accepts. */
  lemma OnlyHighEmphasised(t: Task, pr: Priority)
    requires t.priority == PriorityName(pr)
    ensures RowOf(t).emphasised <==> pr == HIGH
  {
  }
}
