/**
 * The two input schemas, projectSchema and taskSchema (src/lib/schemas.ts).
 * Each turns a raw payload into either a normalised value with defaults filled
 * in, or the list of issues found, one per failing field, in the schema's
 * field order; unknown keys are dropped.
 */
module Schemas {
  import opened Wrappers
  import opened CivilDate

  /** A raw JavaScript value as the validator sees it; Other stands for numbers,
      arrays and every other kind of value no rule here accepts. */
  datatype RawValue =
    | Undefined
    | Null
    | Str(s: string)
    | Bool(b: bool)
    | DateValue(date: Date)
    | Object(fields: map<string, RawValue>)
    | Other

  /** A missing key reads as undefined. */
  function Get(fields: map<string, RawValue>, key: string): RawValue
  {
    if key in fields then fields[key] else Undefined
  }

  datatype ValueType = StringType | BooleanType | DateType | ObjectType | EnumType(options: seq<string>)

  datatype IssueCode =
    | InvalidType(expected: ValueType)
    | TooSmall(minimum: nat, message: string)
    | InvalidEnumValue(options: seq<string>)
    | InvalidDate

  /** One validation failure at a path of keys ([] is the payload itself). */
  datatype Issue = Issue(path: seq<string>, code: IssueCode)

  datatype Status = TODO | IN_PROGRESS | DONE

  datatype Priority = LOW | MEDIUM | HIGH

  /** A nullable optional timestamp: absent, explicitly null, or a date. */
  datatype DateField = Unset | Cleared | At(date: Date)

  /** A set date names a real day. */
  predicate DateFieldValid(f: DateField)
  {
    f.At? ==> Valid(f.date)
  }

  datatype ProjectInput = ProjectInput(name: string, color: string, description: Option<string>)

  datatype TaskInput = TaskInput(
    title: string,
    description: Option<string>,
    status: Status,
    priority: Priority,
    projectId: Option<string>,
    dueDate: DateField,
    startTime: DateField,
    endTime: DateField,
    allDay: bool)

  const DefaultColor: string := "#3b82f6"
  const NameRequired: string := "Name is required"
  const TitleRequired: string := "Title is required"

  function StatusName(st: Status): string
  {
    match st
    case TODO => "TODO"
    case IN_PROGRESS => "IN_PROGRESS"
    case DONE => "DONE"
  }

  function PriorityName(pr: Priority): string
  {
    match pr
    case LOW => "LOW"
    case MEDIUM => "MEDIUM"
    case HIGH => "HIGH"
  }

  const StatusNames: seq<string> := ["TODO", "IN_PROGRESS", "DONE"]
  const PriorityNames: seq<string> := ["LOW", "MEDIUM", "HIGH"]

  /** The enum member a string names, if any. */
  function ParseStatus(s: string): (r: Option<Status>)
    ensures r.Some? ==> StatusName(r.value) == s
    ensures r.None? ==> s !in StatusNames
  {
    if s == "TODO" then Some(TODO)
    else if s == "IN_PROGRESS" then Some(IN_PROGRESS)
    else if s == "DONE" then Some(DONE)
    else None
  }

  function ParsePriority(s: string): (r: Option<Priority>)
    ensures r.Some? ==> PriorityName(r.value) == s
    ensures r.None? ==> s !in PriorityNames
  {
    if s == "LOW" then Some(LOW)
    else if s == "MEDIUM" then Some(MEDIUM)
    else if s == "HIGH" then Some(HIGH)
    else None
  }

  /** Names and members are in one-to-one correspondence. */
  lemma EnumNamesRoundTrip(st: Status, pr: Priority)
    ensures ParseStatus(StatusName(st)) == Some(st)
    ensures ParsePriority(PriorityName(pr)) == Some(pr)
    ensures StatusName(st) in StatusNames && PriorityName(pr) in PriorityNames
  {
  }

  // ---- field rules -------------------------------------------------------

  /** z.string().min(1, message): a string of at least one character. */
  function RequiredString(v: RawValue, message: string): Result<string, IssueCode>
  {
    match v
    case Str(s) => if |s| >= 1 then Ok(s) else Err(TooSmall(1, message))
    case _ => Err(InvalidType(StringType))
  }

  /** z.string().optional(): undefined or a string. */
  function OptionalString(v: RawValue): Result<Option<string>, IssueCode>
  {
    match v
    case Undefined => Ok(None)
    case Str(s) => Ok(Some(s))
    case _ => Err(InvalidType(StringType))
  }

  /** z.string().optional().default(d): undefined becomes d. */
  function StringWithDefault(v: RawValue, d: string): Result<string, IssueCode>
  {
    match v
    case Undefined => Ok(d)
    case Str(s) => Ok(s)
    case _ => Err(InvalidType(StringType))
  }

  /** z.enum(["TODO", "IN_PROGRESS", "DONE"]).default("TODO"). */
  function StatusField(v: RawValue): Result<Status, IssueCode>
  {
    match v
    case Undefined => Ok(TODO)
    case Str(s) =>
      (match ParseStatus(s)
       case Some(st) => Ok(st)
       case None => Err(InvalidEnumValue(StatusNames)))
    case _ => Err(InvalidType(EnumType(StatusNames)))
  }

  /** z.enum(["LOW", "MEDIUM", "HIGH"]).default("MEDIUM"). */
  function PriorityField(v: RawValue): Result<Priority, IssueCode>
  {
    match v
    case Undefined => Ok(MEDIUM)
    case Str(s) =>
      (match ParsePriority(s)
       case Some(pr) => Ok(pr)
       case None => Err(InvalidEnumValue(PriorityNames)))
    case _ => Err(InvalidType(EnumType(PriorityNames)))
  }

  /** z.date().optional().nullable(); a date object that names no day (an
      Invalid Date) is rejected with invalid_date. */
  function OptionalDate(v: RawValue): Result<DateField, IssueCode>
  {
    match v
    case Undefined => Ok(Unset)
    case Null => Ok(Cleared)
    case DateValue(d) => if Valid(d) then Ok(At(d)) else Err(InvalidDate)
    case _ => Err(InvalidType(DateType))
  }

  /** z.boolean().default(false). */
  function BooleanWithDefault(v: RawValue, d: bool): Result<bool, IssueCode>
  {
    match v
    case Undefined => Ok(d)
    case Bool(b) => Ok(b)
    case _ => Err(InvalidType(BooleanType))
  }

  /** The issue a field rule contributes: none when it accepts. */
  function IssuesAt<T>(key: string, r: Result<T, IssueCode>): (issues: seq<Issue>)
    ensures r.Ok? <==> issues == []
  {
    if r.Ok? then [] else [Issue([key], r.error)]
  }

  const NotAnObject: seq<Issue> := [Issue([], InvalidType(ObjectType))]

  // ---- what each rule accepts, stated on the raw value ------------------

  predicate IsNonEmptyString(v: RawValue) { v.Str? && |v.s| >= 1 }

  predicate IsOptionalString(v: RawValue) { v.Undefined? || v.Str? }

  predicate IsOptionalEnum(v: RawValue, names: seq<string>) { v.Undefined? || (v.Str? && v.s in names) }

  predicate IsOptionalNullableDate(v: RawValue) { v.Undefined? || v.Null? || (v.DateValue? && Valid(v.date)) }

  predicate IsOptionalBoolean(v: RawValue) { v.Undefined? || v.Bool? }

  /** The value an accepted optional string field yields. */
  function StringOr(v: RawValue, d: string): string { if v.Str? then v.s else d }

  function OptionalStringOf(v: RawValue): Option<string> { if v.Str? then Some(v.s) else None }

  function DateFieldOf(v: RawValue): DateField
  {
    match v
    case Null => Cleared
    case DateValue(d) => At(d)
    case _ => Unset
  }

  // ---- the schemas -------------------------------------------------------

  /** projectSchema.safeParse. */
  function ValidateProject(raw: RawValue): (r: Result<ProjectInput, seq<Issue>>)
    ensures r.Err? ==> r.error != []
    ensures r.Ok? <==>
      && raw.Object?
      && IsNonEmptyString(Get(raw.fields, "name"))
      && IsOptionalString(Get(raw.fields, "color"))
      && IsOptionalString(Get(raw.fields, "description"))
    ensures r.Ok? ==>
      && |r.value.name| >= 1
      && r.value.name == Get(raw.fields, "name").s
      && r.value.color == StringOr(Get(raw.fields, "color"), DefaultColor)
      && r.value.description == OptionalStringOf(Get(raw.fields, "description"))
  {
    match raw
    case Object(fields) =>
      var name := RequiredString(Get(fields, "name"), NameRequired);
      var color := StringWithDefault(Get(fields, "color"), DefaultColor);
      var description := OptionalString(Get(fields, "description"));
      if name.Ok? && color.Ok? && description.Ok? then
        Ok(ProjectInput(name.value, color.value, description.value))
      else
        Err(IssuesAt("name", name) + IssuesAt("color", color) + IssuesAt("description", description))
    case _ => Err(NotAnObject)
  }

  /** taskSchema.safeParse. */
  function ValidateTask(raw: RawValue): (r: Result<TaskInput, seq<Issue>>)
    ensures r.Err? ==> r.error != []
    ensures r.Ok? <==>
      && raw.Object?
      && IsNonEmptyString(Get(raw.fields, "title"))
      && IsOptionalString(Get(raw.fields, "description"))
      && IsOptionalEnum(Get(raw.fields, "status"), StatusNames)
      && IsOptionalEnum(Get(raw.fields, "priority"), PriorityNames)
      && IsOptionalString(Get(raw.fields, "projectId"))
      && IsOptionalNullableDate(Get(raw.fields, "dueDate"))
      && IsOptionalNullableDate(Get(raw.fields, "startTime"))
      && IsOptionalNullableDate(Get(raw.fields, "endTime"))
      && IsOptionalBoolean(Get(raw.fields, "allDay"))
    ensures r.Ok? ==>
      && |r.value.title| >= 1
      && r.value.title == Get(raw.fields, "title").s
      && r.value.description == OptionalStringOf(Get(raw.fields, "description"))
      && StatusName(r.value.status) == StringOr(Get(raw.fields, "status"), "TODO")
      && PriorityName(r.value.priority) == StringOr(Get(raw.fields, "priority"), "MEDIUM")
      && r.value.projectId == OptionalStringOf(Get(raw.fields, "projectId"))
      && r.value.dueDate == DateFieldOf(Get(raw.fields, "dueDate"))
      && r.value.startTime == DateFieldOf(Get(raw.fields, "startTime"))
      && r.value.endTime == DateFieldOf(Get(raw.fields, "endTime"))
      && r.value.allDay == (Get(raw.fields, "allDay") == Bool(true))
    ensures r.Ok? ==>
      DateFieldValid(r.value.dueDate) && DateFieldValid(r.value.startTime) && DateFieldValid(r.value.endTime)
  {
    match raw
    case Object(fields) =>
      var title := RequiredString(Get(fields, "title"), TitleRequired);
      var description := OptionalString(Get(fields, "description"));
      var status := StatusField(Get(fields, "status"));
      var priority := PriorityField(Get(fields, "priority"));
      var projectId := OptionalString(Get(fields, "projectId"));
      var dueDate := OptionalDate(Get(fields, "dueDate"));
      var startTime := OptionalDate(Get(fields, "startTime"));
      var endTime := OptionalDate(Get(fields, "endTime"));
      var allDay := BooleanWithDefault(Get(fields, "allDay"), false);
      if && title.Ok? && description.Ok? && status.Ok? && priority.Ok? && projectId.Ok?
         && dueDate.Ok? && startTime.Ok? && endTime.Ok? && allDay.Ok?
      then
        Ok(TaskInput(title.value, description.value, status.value, priority.value, projectId.value,
                     dueDate.value, startTime.value, endTime.value, allDay.value))
      else
        Err(IssuesAt("title", title) + IssuesAt("description", description)
            + IssuesAt("status", status) + IssuesAt("priority", priority)
            + IssuesAt("projectId", projectId) + IssuesAt("dueDate", dueDate)
            + IssuesAt("startTime", startTime) + IssuesAt("endTime", endTime)
            + IssuesAt("allDay", allDay))
    case _ => Err(NotAnObject)
  }

  // ---- properties ----------------------------------------------------------

  /** An empty project name is rejected with "Name is required". */
  lemma EmptyNameRejected(fields: map<string, RawValue>)
    requires Get(fields, "name") == Str("")
    ensures ValidateProject(Object(fields)).Err?
    ensures Issue(["name"], TooSmall(1, NameRequired)) in ValidateProject(Object(fields)).error
  {
  }

  /** An empty task title is rejected with "Title is required". */
  lemma EmptyTitleRejected(fields: map<string, RawValue>)
    requires Get(fields, "title") == Str("")
    ensures ValidateTask(Object(fields)).Err?
    ensures Issue(["title"], TooSmall(1, TitleRequired)) in ValidateTask(Object(fields)).error
  {
  }

  /** A status or priority string outside its enum is rejected, with an
      invalid-enum issue at that key. */
  lemma UnknownEnumRejected(fields: map<string, RawValue>)
    ensures (Get(fields, "status").Str? && Get(fields, "status").s !in StatusNames) ==>
      && ValidateTask(Object(fields)).Err?
      && Issue(["status"], InvalidEnumValue(StatusNames)) in ValidateTask(Object(fields)).error
    ensures (Get(fields, "priority").Str? && Get(fields, "priority").s !in PriorityNames) ==>
      && ValidateTask(Object(fields)).Err?
      && Issue(["priority"], InvalidEnumValue(PriorityNames)) in ValidateTask(Object(fields)).error
  {
  }

  /** No order between startTime and endTime is enforced: any two dates, in
      either order, are accepted as given. */
  lemma TimesAreUnordered(title: string, start: Date, end: Date)
    requires |title| >= 1 && Valid(start) && Valid(end)
    ensures var r := ValidateTask(Object(map["title" := Str(title), "startTime" := DateValue(start), "endTime" := DateValue(end)]));
      r.Ok? && r.value.startTime == At(start) && r.value.endTime == At(end)
  {
  }

  /** A date object that names no day is rejected with invalid_date at its key. */
  lemma InvalidDateRejected(fields: map<string, RawValue>, key: string)
    requires key == "dueDate" || key == "startTime" || key == "endTime"
    requires Get(fields, key).DateValue? && !Valid(Get(fields, key).date)
    ensures ValidateTask(Object(fields)).Err?
    ensures Issue([key], InvalidDate) in ValidateTask(Object(fields)).error
  {
  }

  /** The payload a validated project stands for: defaults written out,
      an absent description left out. */
  function EncodeProject(v: ProjectInput): RawValue
  {
    var base := map["name" := Str(v.name), "color" := Str(v.color)];
    Object(if v.description.Some? then base["description" := Str(v.description.value)] else base)
  }

  function EncodeOptionalString(o: Option<string>): RawValue
  {
    if o.Some? then Str(o.value) else Undefined
  }

  function EncodeDate(f: DateField): RawValue
  {
    match f
    case Unset => Undefined
    case Cleared => Null
    case At(d) => DateValue(d)
  }

  /** The payload a validated task stands for. */
  function EncodeTask(v: TaskInput): RawValue
  {
    Object(map[
      "title" := Str(v.title),
      "description" := EncodeOptionalString(v.description),
      "status" := Str(StatusName(v.status)),
      "priority" := Str(PriorityName(v.priority)),
      "projectId" := EncodeOptionalString(v.projectId),
      "dueDate" := EncodeDate(v.dueDate),
      "startTime" := EncodeDate(v.startTime),
      "endTime" := EncodeDate(v.endTime),
      "allDay" := Bool(v.allDay)])
  }

  /** What an encoded task holds at each key of the schema. */
  lemma EncodedTaskFields(v: TaskInput)
    ensures var fields := EncodeTask(v).fields;
      && Get(fields, "title") == Str(v.title)
      && Get(fields, "description") == EncodeOptionalString(v.description)
      && Get(fields, "status") == Str(StatusName(v.status))
      && Get(fields, "priority") == Str(PriorityName(v.priority))
      && Get(fields, "projectId") == EncodeOptionalString(v.projectId)
      && Get(fields, "dueDate") == EncodeDate(v.dueDate)
      && Get(fields, "startTime") == EncodeDate(v.startTime)
      && Get(fields, "endTime") == EncodeDate(v.endTime)
      && Get(fields, "allDay") == Bool(v.allDay)
  {
  }

  /** Validating the payload of a project with a non-empty name gives that
      project back. */
  lemma ProjectRoundTrip(v: ProjectInput)
    requires |v.name| >= 1
    ensures ValidateProject(EncodeProject(v)) == Ok(v)
  {
  }

  /** A payload holding a task's fields, written out, validates to that task. */
  lemma TaskFromFields(fields: map<string, RawValue>, v: TaskInput)
    requires |v.title| >= 1
    requires DateFieldValid(v.dueDate) && DateFieldValid(v.startTime) && DateFieldValid(v.endTime)
    requires Get(fields, "title") == Str(v.title)
    requires Get(fields, "description") == EncodeOptionalString(v.description)
    requires Get(fields, "status") == Str(StatusName(v.status))
    requires Get(fields, "priority") == Str(PriorityName(v.priority))
    requires Get(fields, "projectId") == EncodeOptionalString(v.projectId)
    requires Get(fields, "dueDate") == EncodeDate(v.dueDate)
    requires Get(fields, "startTime") == EncodeDate(v.startTime)
    requires Get(fields, "endTime") == EncodeDate(v.endTime)
    requires Get(fields, "allDay") == Bool(v.allDay)
    ensures ValidateTask(Object(fields)) == Ok(v)
  {
    EnumNamesRoundTrip(v.status, v.priority);
    var r := ValidateTask(Object(fields));
    assert r.Ok?;
    assert r.value.status == v.status by {
      EnumNamesRoundTrip(r.value.status, v.priority);
    }
    assert r.value.priority == v.priority by {
      EnumNamesRoundTrip(v.status, r.value.priority);
    }
  }

  /** Validating the payload of a task with a non-empty title and real dates
      gives that task back. */
  lemma TaskRoundTrip(v: TaskInput)
    requires |v.title| >= 1
    requires DateFieldValid(v.dueDate) && DateFieldValid(v.startTime) && DateFieldValid(v.endTime)
    ensures ValidateTask(EncodeTask(v)) == Ok(v)
  {
    EncodedTaskFields(v);
    TaskFromFields(EncodeTask(v).fields, v);
  }

  /** Re-validating an accepted project accepts it and returns it unchanged. */
  lemma ProjectValidationIdempotent(raw: RawValue)
    requires ValidateProject(raw).Ok?
    ensures ValidateProject(EncodeProject(ValidateProject(raw).value)) == ValidateProject(raw)
  {
    ProjectRoundTrip(ValidateProject(raw).value);
  }

  /** Re-validating an accepted task accepts it and returns it unchanged. */
  lemma TaskValidationIdempotent(raw: RawValue)
    requires ValidateTask(raw).Ok?
    ensures ValidateTask(EncodeTask(ValidateTask(raw).value)) == ValidateTask(raw)
  {
    TaskRoundTrip(ValidateTask(raw).value);
  }
}
