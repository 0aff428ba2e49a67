/**
 * The "My Tasks" page: the status filter, whether the task dialog is open,
 * and which task it edits, as the page's handlers change them. The outcome
 * of each mutation is the store's response, given as a parameter.
 */
module TasksPage {
  import opened Wrappers
  import opened Clock
  import opened UseTasks
  import opened TaskDialog

  /** The notification a handler shows. */
  datatype Toast = ToastSuccess(text: string) | ToastError(text: string)

  /** The mutation a submit issued: a create, or an update of the task being edited. */
  datatype Submission = Created(create: Mutation<InsertRow, TaskRow>) | Updated(update: Mutation<UpdateRequest, TaskRow>)

  function DueField(due: Option<Instant>): (f: Field<Instant>)
    ensures f.Present? <==> due.Some?
    ensures f.Present? ==> f.value == due.value
    ensures !f.Absent?
  {
    if due.Some? then Present(due.value) else Null
  }

  /** The form data passed as is to `createTask`. */
  function CreateInputOf(data: FormData): (input: CreateInput)
    ensures input.title == data.title && input.assignedTo == data.assignedTo
    ensures input.description == Some(data.description) && input.status == Some(data.status)
    ensures input.dueDate == DueField(data.dueDate) && input.assignedBy.None?
  {
    CreateInput(data.title, Some(data.description), Some(data.status), DueField(data.dueDate), data.assignedTo, None)
  }

  /** `{ id: editingTask.id, ...data }`: every field of the form, for the edited task. */
  function UpdateInputOf(id: TaskId, data: FormData): (input: UpdateInput)
    ensures input.id == id && input.title == Some(data.title) && input.assignedTo == Some(data.assignedTo)
    ensures input.description == Some(data.description) && input.status == Some(data.status)
    ensures input.dueDate == DueField(data.dueDate) && input.assignedBy.None?
  {
    UpdateInput(id, Some(data.title), Some(data.description), Some(data.status), DueField(data.dueDate), Some(data.assignedTo), None)
  }

  /**
   * Saving an edit rewrites the edited row with the form's values and
   * touches neither its creator nor any other row.
   */
  lemma EditRewritesOnlyThatTask(rows: seq<TaskRow>, id: TaskId, data: FormData)
    ensures var after := ApplyUpdate(rows, UpdatePayload(UpdateInputOf(id, data)));
      forall i :: 0 <= i < |rows| ==>
        && after[i].assignedBy == rows[i].assignedBy
        && (rows[i].id != id ==> after[i] == rows[i])
        && (rows[i].id == id ==>
              after[i].title == data.title && after[i].status == data.status
              && after[i].assignedTo == data.assignedTo
              && after[i].description == Present(data.description)
              && after[i].dueDate == DueField(data.dueDate))
  {
    UpdateKeepsIdentity(rows, UpdateInputOf(id, data));
  }

  /** Whether the submission's mutation succeeded. */
  predicate Succeeded(s: Submission)
  {
    match s
    case Created(m) => m.result.Success?
    case Updated(m) => m.result.Success?
  }

  /** The message of a failed submission. */
  function FailureMessage(s: Submission): string
    requires !Succeeded(s)
  {
    match s
    case Created(m) => Message(m.result.error)
    case Updated(m) => Message(m.result.error)
  }

  class Page {
    var statusFilter: StatusFilter
    var dialogOpen: bool
    var editingTask: Option<Task>

    /** The page as it first renders: every status, dialog closed, nothing edited. */
    constructor ()
      ensures statusFilter == All && !dialogOpen && editingTask.None?
    {
      statusFilter, dialogOpen, editingTask := All, false, None;
    }

    /** The filter select. */
    method SetStatusFilter(f: StatusFilter)
      modifies this
      ensures statusFilter == f
      ensures dialogOpen == old(dialogOpen) && editingTask == old(editingTask)
    {
      statusFilter := f;
    }

    /** `handleEdit`: edit this task in the dialog. */
    method HandleEdit(t: Task)
      modifies this
      ensures editingTask == Some(t) && dialogOpen
      ensures statusFilter == old(statusFilter)
    {
      editingTask := Some(t);
      dialogOpen := true;
    }

    /** The "New Task" button: an empty dialog. */
    method NewTask()
      modifies this
      ensures editingTask.None? && dialogOpen
      ensures statusFilter == old(statusFilter)
    {
      editingTask := None;
      dialogOpen := true;
    }

    /** The dialog's `onOpenChange`: closing it forgets the edited task, opening keeps it. */
    method OnOpenChange(open: bool)
      modifies this
      ensures dialogOpen == open
      ensures editingTask == (if open then old(editingTask) else None)
      ensures statusFilter == old(statusFilter)
    {
      dialogOpen := open;
      if !open {
        editingTask := None;
      }
    }

    /**
     * `handleSubmit`: update the edited task, or create one. On success the
     * dialog closes and nothing is edited any more; on failure the dialog
     * and the edited task stay as they were and the error's message is shown.
     */
    method HandleSubmit(data: FormData, user: Option<UserId>, response: Result<TaskRow, string>)
      returns (sent: Submission, toast: Toast)
      modifies this
      ensures old(editingTask).Some? ==>
        sent == Updated(UpdateTask(UpdateInputOf(old(editingTask).value.id, data), response))
      ensures old(editingTask).None? ==> sent == Created(CreateTask(user, CreateInputOf(data), response))
      ensures Succeeded(sent) ==> !dialogOpen && editingTask.None?
      ensures Succeeded(sent) ==> toast == ToastSuccess(if sent.Updated? then "Task updated" else "Task created")
      ensures !Succeeded(sent) ==> dialogOpen == old(dialogOpen) && editingTask == old(editingTask)
      ensures !Succeeded(sent) ==> toast == ToastError(FailureMessage(sent))
      ensures statusFilter == old(statusFilter)
    {
      if editingTask.Some? {
        sent := Updated(UpdateTask(UpdateInputOf(editingTask.value.id, data), response));
      } else {
        sent := Created(CreateTask(user, CreateInputOf(data), response));
      }
      if !Succeeded(sent) {
        toast := ToastError(FailureMessage(sent));
        return;
      }
      toast := ToastSuccess(if sent.Updated? then "Task updated" else "Task created");
      dialogOpen := false;
      editingTask := None;
    }

    /** `handleDelete`: reports the outcome and changes nothing on the page. */
    method HandleDelete(id: TaskId, response: Result<(), string>) returns (m: Mutation<DeleteRequest, ()>, toast: Toast)
      ensures m == DeleteTask(id, response)
      ensures response.Success? ==> toast == ToastSuccess("Task deleted")
      ensures response.Failure? ==> toast == ToastError(response.error)
    {
      m := DeleteTask(id, response);
      if m.result.Success? {
        toast := ToastSuccess("Task deleted");
      } else {
        toast := ToastError(Message(m.result.error));
      }
    }
  }
}
