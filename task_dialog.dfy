/**
 * The create/edit task form: its five fields, their prefill or reset
 * whenever the dialog's task, open flag or user changes, and the payload
 * a submit hands to the page.
 */
module TaskDialog {
  import opened Wrappers
  import opened Clock
  import opened UseTasks

  /** The values of the form's five fields. */
  datatype FormState = FormState(
    title: string,
    description: string,
    status: TaskStatus,
    dueDate: Option<Instant>,
    assignedTo: UserId)

  /** The data a submit sends; `dueDate` stands for the ISO string or `null`. */
  datatype FormData = FormData(
    title: string,
    description: string,
    status: TaskStatus,
    dueDate: Option<Instant>,
    assignedTo: UserId)

  /**
   * What pressing submit does: nothing while the required title is empty
   * (the browser's form validation), a crash when `user!.id` is read while
   * signed out, otherwise the data is submitted.
   */
  datatype SubmitOutcome = TitleMissing | SignedOut | Submitted(data: FormData)

  /** The form's initial state, before the effect first runs. */
  const Blank := FormState("", "", Pending, None, "")

  /**
   * The effect: a task fills the form from the task; no task resets it to
   * an empty pending task assigned to the current user (or to nobody).
   */
  function Prefill(task: Option<Task>, user: Option<UserId>): (f: FormState)
    ensures task.Some? ==>
      (f.title == task.value.title && f.status == task.value.status
       && f.assignedTo == task.value.assignedTo && f.description == task.value.description
       && f.dueDate == task.value.dueDate)
    ensures task.None? ==> f.title == "" && f.description == "" && f.status == Pending && f.dueDate.None?
    ensures task.None? ==> f.assignedTo == (if user.Some? then user.value else "")
  {
    match task
    case Some(t) =>
      // `task.description || ""` and `task.due_date ? new Date(…) : undefined`;
      // a listed task already carries "" and none for missing values.
      FormState(t.title, if t.description != "" then t.description else "", t.status,
        if t.dueDate.Some? then Some(t.dueDate.value) else None, t.assignedTo)
    case None =>
      FormState("", "", Pending, None, if user.Some? && user.value != "" then user.value else "")
  }

  /** `handleSubmit`: the fields as they are, the assignee defaulting to the current user. */
  function Payload(f: FormState, user: Option<UserId>): (o: SubmitOutcome)
    ensures f.title == "" <==> o == TitleMissing
    ensures o == SignedOut <==> f.title != "" && f.assignedTo == "" && user.None?
    ensures o.Submitted? ==>
      (o.data.title == f.title && o.data.description == f.description
       && o.data.status == f.status && o.data.dueDate == f.dueDate)
    ensures o.Submitted? ==> o.data.assignedTo == (if f.assignedTo != "" then f.assignedTo else user.value)
    ensures o.Submitted? && user.Some? && user.value != "" ==> o.data.assignedTo != ""
  {
    if f.title == "" then TitleMissing
    else if f.assignedTo == "" && user.None? then SignedOut
    else
      var assignee := if f.assignedTo != "" then f.assignedTo else user.value;
      Submitted(FormData(f.title, f.description, f.status, f.dueDate, assignee))
  }

  /**
   * Opening the form on a task and submitting it unedited sends the task's
   * own title, description, status, due date and assignee.
   */
  lemma UneditedEditResubmitsTask(t: Task, user: Option<UserId>)
    requires t.title != "" && t.assignedTo != ""
    ensures Payload(Prefill(Some(t), user), user) ==
      Submitted(FormData(t.title, t.description, t.status, t.dueDate, t.assignedTo))
  {
  }

  /**
   * A new task given only a title is sent as a pending task with an empty
   * description and no due date, assigned to the current user.
   */
  lemma NewTaskDefaults(title: string, user: UserId)
    requires title != "" && user != ""
    ensures Payload(Prefill(None, Some(user)).(title := title), Some(user)) ==
      Submitted(FormData(title, "", Pending, None, user))
  {
  }

  /** The values the effect depends on: `[task, open, user]`. */
  datatype Deps = Deps(task: Option<Task>, open: bool, user: Option<UserId>)

  class TaskForm {
    var title: string
    var description: string
    var status: TaskStatus
    var dueDate: Option<Instant>
    var assignedTo: UserId
    /** The dependencies at the effect's last run; none before the first render. */
    var lastDeps: Option<Deps>

    function State(): FormState
      reads this
    {
      FormState(title, description, status, dueDate, assignedTo)
    }

    constructor ()
      ensures State() == Blank && lastDeps.None?
    {
      title, description, status, dueDate, assignedTo := "", "", Pending, None, "";
      lastDeps := None;
    }

    /**
     * A render with the given dependencies: the effect runs, refilling every
     * field, exactly when they differ from those of its last run.
     */
    method Render(task: Option<Task>, open: bool, user: Option<UserId>)
      modifies this
      ensures lastDeps == Some(Deps(task, open, user))
      ensures old(lastDeps) != Some(Deps(task, open, user)) ==> State() == Prefill(task, user)
      ensures old(lastDeps) == Some(Deps(task, open, user)) ==> State() == old(State())
    {
      if lastDeps != Some(Deps(task, open, user)) {
        if task.Some? {
          var t := task.value;
          title := t.title;
          description := if t.description != "" then t.description else "";  // `|| ""`
          status := t.status;
          dueDate := if t.dueDate.Some? then Some(t.dueDate.value) else None;
          assignedTo := t.assignedTo;
        } else {
          title := "";
          description := "";
          status := Pending;
          dueDate := None;
          assignedTo := if user.Some? && user.value != "" then user.value else "";
        }
        lastDeps := Some(Deps(task, open, user));
      }
    }

    method SetTitle(v: string)
      modifies this`title
      ensures State() == old(State()).(title := v)
    {
      title := v;
    }

    method SetDescription(v: string)
      modifies this`description
      ensures State() == old(State()).(description := v)
    {
      description := v;
    }

    method SetStatus(v: TaskStatus)
      modifies this`status
      ensures State() == old(State()).(status := v)
    {
      status := v;
    }

    method SetDueDate(v: Option<Instant>)
      modifies this`dueDate
      ensures State() == old(State()).(dueDate := v)
    {
      dueDate := v;
    }

    method SetAssignedTo(v: UserId)
      modifies this`assignedTo
      ensures State() == old(State()).(assignedTo := v)
    {
      assignedTo := v;
    }

    /** The submit handler: reads the fields and builds the payload. */
    method HandleSubmit(user: Option<UserId>) returns (o: SubmitOutcome)
      ensures o == Payload(State(), user)
      ensures o.Submitted? ==> o.data.title == title && o.data.status == status && o.data.dueDate == dueDate
    {
      o := Payload(State(), user);
    }
  }
}
