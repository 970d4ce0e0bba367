/**
 * The stored rows the views receive: a Task joined with its Project (or none).
 * Status and priority are kept as the strings the store holds, since the views
 * compare them as strings. Timestamps are civil days.
 */
module Records {
  import opened Wrappers
  import opened CivilDate

  datatype Project = Project(id: string, name: string, color: string, description: Option<string>)

  datatype Task = Task(
    id: string,
    title: string,
    description: Option<string>,
    status: string,
    priority: string,
    projectId: Option<string>,
    dueDate: Option<Date>,
    startTime: Option<Date>,
    endTime: Option<Date>,
    allDay: bool,
    project: Option<Project>)

  /** The due-date label both the board (task-board.tsx:81) and the list
      (list-view.tsx:93) show: "No date" without a due date, else the date. */
  datatype DueLabel = NoDate | DueOn(date: Date)

  function DueLabelOf(dueDate: Option<Date>): (l: DueLabel)
    ensures l.NoDate? <==> dueDate.None?
    ensures dueDate.Some? ==> l == DueOn(dueDate.value)
  {
    match dueDate
    case None => NoDate
    case Some(d) => DueOn(d)
  }
}
