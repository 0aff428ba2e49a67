/**
 * The task table: one row per task with its due-date cell, the "Assigned
 * By" and "Assigned To" names, and which actions the row offers.
 */
module TaskTable {
  import opened Wrappers
  import opened Clock
  import opened UseTasks
  import Dashboard

  /** The due-date text: "No date", or the date with its distance from now (not modelled). */
  datatype DueText = NoDate | DueOn(due: Instant)

  datatype DueCell = DueCell(text: DueText, isOverdue: bool)

  /** One rendered row. */
  datatype Row = Row(
    key: TaskId,
    title: string,
    description: Option<string>,  // shown only when non-empty
    status: TaskStatus,
    due: DueCell,
    highlighted: bool,
    assignedByName: string,
    assignedToName: string,
    canEdit: bool,
    canDelete: bool)

  /** The whole table: the empty state, or the rows. */
  datatype Table = EmptyState | Rows(rows: seq<Row>)

  /** `formatDueDate`: no date is never overdue; otherwise "in the past and not today". */
  function FormatDueDate(due: Option<Instant>, now: Instant): (c: DueCell)
    ensures due.None? ==> c == DueCell(NoDate, false)
    ensures due.Some? ==> c.text == DueOn(due.value)
    ensures due.Some? ==> (c.isOverdue <==> DayOf(due.value) < DayOf(now))
  {
    if due.None? then DueCell(NoDate, false)
    else
      var d := due.value;
      PastNotTodayIsEarlierDay(d, now);
      DueCell(DueOn(d), IsPast(d, now) && !IsToday(d, now))
  }

  /** `x || "Unknown"` on an optional name. */
  function OrUnknown(name: Option<string>): (r: string)
    ensures r != ""
    ensures name.Some? && name.value != "" ==> r == name.value
    ensures name.None? || name.value == "" ==> r == UnknownName
  {
    if name.Some? && name.value != "" then name.value else UnknownName
  }

  /**
   * "Assigned By": "Self" when the current user created the task for
   * themself, "You" when they created it for someone else, otherwise the
   * resolved creator name or "Unknown".
   */
  function AssignedByName(t: Task, user: Option<UserId>): (name: string)
    ensures user == Some(t.assignedBy) && t.assignedBy == t.assignedTo ==> name == "Self"
    ensures user == Some(t.assignedBy) && t.assignedBy != t.assignedTo ==> name == "You"
    ensures user != Some(t.assignedBy) ==> name == OrUnknown(t.assignedByName)
  {
    var isSelfAssigned := t.assignedBy == t.assignedTo;
    if user.Some? && t.assignedBy == user.value then (if isSelfAssigned then "Self" else "You")
    else OrUnknown(t.assignedByName)
  }

  /** "Assigned To": "You" for the current user, otherwise the resolved name or "Unknown". */
  function AssignedToName(t: Task, user: Option<UserId>): (name: string)
    ensures user == Some(t.assignedTo) ==> name == "You"
    ensures user != Some(t.assignedTo) ==> name == OrUnknown(t.assignedToName)
  {
    if user.Some? && t.assignedTo == user.value then "You" else OrUnknown(t.assignedToName)
  }

  /**
   * One task's row: keyed by its id; the description only when non-empty;
   * highlighted exactly when the dashboard counts the task as overdue; edit
   * whenever a handler is given, delete only for the task's creator.
   */
  function RenderRow(t: Task, user: Option<UserId>, hasEdit: bool, hasDelete: bool, now: Instant): (row: Row)
    ensures row.key == t.id && row.title == t.title && row.status == t.status
    ensures row.description.Some? <==> t.description != ""
    ensures row.description.Some? ==> row.description.value == t.description
    ensures row.due == FormatDueDate(t.dueDate, now)
    ensures row.highlighted <==> Dashboard.IsOverdue(t, now)
    ensures row.assignedByName == AssignedByName(t, user) && row.assignedToName == AssignedToName(t, user)
    ensures row.canEdit <==> hasEdit
    ensures row.canDelete <==> hasDelete && user == Some(t.assignedBy)
  {
    var due := FormatDueDate(t.dueDate, now);
    Row(
      t.id,
      t.title,
      if t.description != "" then Some(t.description) else None,
      t.status,
      due,
      due.isOverdue && t.status != Completed,
      AssignedByName(t, user),
      AssignedToName(t, user),
      hasEdit,
      hasDelete && user.Some? && t.assignedBy == user.value)
  }

  /**
   * The table: the empty state for no tasks, otherwise exactly one row per
   * task, in input order, keyed by the task's id.
   */
  function Render(tasks: seq<Task>, user: Option<UserId>, hasEdit: bool, hasDelete: bool, now: Instant): (table: Table)
    ensures table.EmptyState? <==> tasks == []
    ensures table.Rows? ==> |table.rows| == |tasks|
    ensures table.Rows? ==> forall i :: 0 <= i < |tasks| ==>
      table.rows[i].key == tasks[i].id && table.rows[i].title == tasks[i].title && table.rows[i].status == tasks[i].status
    ensures table.Rows? ==> forall i :: 0 <= i < |tasks| ==>
      table.rows[i] == RenderRow(tasks[i], user, hasEdit, hasDelete, now)
  {
    if |tasks| == 0 then EmptyState
    else Rows(seq(|tasks|, i requires 0 <= i < |tasks| => RenderRow(tasks[i], user, hasEdit, hasDelete, now)))
  }

  /**
   * Edit is offered on every row exactly when an edit handler is given;
   * delete only when a delete handler is given and the current user created
   * the task.
   */
  lemma ActionsOffered(tasks: seq<Task>, user: Option<UserId>, hasEdit: bool, hasDelete: bool, now: Instant, i: nat)
    requires i < |tasks|
    ensures var table := Render(tasks, user, hasEdit, hasDelete, now);
      && table.Rows?
      && (table.rows[i].canEdit <==> hasEdit)
      && (table.rows[i].canDelete <==> hasDelete && user == Some(tasks[i].assignedBy))
  {
    assert Render(tasks, user, hasEdit, hasDelete, now).rows[i] == RenderRow(tasks[i], user, hasEdit, hasDelete, now);
  }

  /**
   * A row's due date is highlighted exactly when the dashboard counts the
   * task as overdue.
   */
  lemma HighlightIsOverdue(tasks: seq<Task>, user: Option<UserId>, hasEdit: bool, hasDelete: bool, now: Instant, i: nat)
    requires i < |tasks|
    ensures var table := Render(tasks, user, hasEdit, hasDelete, now);
      table.Rows? && (table.rows[i].highlighted <==> Dashboard.IsOverdue(tasks[i], now))
  {
    var t := tasks[i];
    assert Render(tasks, user, hasEdit, hasDelete, now).rows[i] == RenderRow(t, user, hasEdit, hasDelete, now);
  }
}
