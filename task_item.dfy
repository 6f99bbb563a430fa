/** One task's row in the list: its edit fields, and the save, cancel,
    toggle and delete handlers. The `onUpdate` and `onDelete` callbacks and
    `alert` are returned as effects instead of being called. */
module TaskItem {
  import opened Wrappers
  import opened Text

  /** The fields of a listed task the handlers read. */
  datatype ItemTask = ItemTask(title: string, description: Option<string>, completed: bool)

  /** A `Partial<Task>`: only the keys present are sent. `description` may
      be sent as `null`, hence the nested option. */
  datatype TaskChanges = TaskChanges(title: Option<string>, description: Option<Option<string>>, completed: Option<bool>)

  /** What a handler asks of the outside world. */
  datatype Effect = Alert(message: string) | Update(changes: TaskChanges) | Delete

  const EmptyTitleAlert := "Title cannot be empty"

  /** `task.description || ''`: the text an edit field starts from. */
  function EditText(description: Option<string>): (r: string)
    ensures description.Some? ==> r == description.value
    ensures description.None? ==> r == []
  {
    if description.Some? then description.value else []
  }

  /** What `handleSave` sends for the edit fields: a blank title is refused
      with an alert; otherwise the trimmed title and the trimmed description,
      `null` when blank. */
  function SaveEffect(editTitle: string, editDescription: string): (e: Effect)
    ensures e.Alert? <==> IsBlank(editTitle, JavaScript)
    ensures e.Alert? ==> e.message == EmptyTitleAlert
    ensures e.Update? ==>
              && e.changes.title == Some(Strip(editTitle, JavaScript))
              && e.changes.title.value != []
              && e.changes.description.Some?
              && (e.changes.description.value.None? <==> IsBlank(editDescription, JavaScript))
              && (e.changes.description.value.Some? ==>
                    e.changes.description.value.value == Strip(editDescription, JavaScript))
              && e.changes.completed.None?
  {
    StripEmptyIffBlank(editTitle, JavaScript);
    StripEmptyIffBlank(editDescription, JavaScript);
    if Strip(editTitle, JavaScript) == [] then Alert(EmptyTitleAlert)
    else
      var d := Strip(editDescription, JavaScript);
      Update(TaskChanges(Some(Strip(editTitle, JavaScript)), Some(if d == [] then None else Some(d)), None))
  }

  /** Saving again what was just saved sends the same changes: the sent
      values are already trimmed. */
  lemma SaveIsIdempotent(editTitle: string, editDescription: string)
    requires SaveEffect(editTitle, editDescription).Update?
    ensures var c := SaveEffect(editTitle, editDescription).changes;
            SaveEffect(c.title.value, EditText(c.description.value)) == Update(c)
  {
    var t, d := Strip(editTitle, JavaScript), Strip(editDescription, JavaScript);
    StripEmptyIffBlank(editTitle, JavaScript);
    var c := TaskChanges(Some(t), Some(if d == [] then None else Some(d)), None);
    assert SaveEffect(editTitle, editDescription) == Update(c);
    assert EditText(c.description.value) == d;
    StripIdempotent(editTitle, JavaScript);
    StripIdempotent(editDescription, JavaScript);
    assert SaveEffect(t, d) == Update(c);
  }

  class Item {
    const task: ItemTask
    var isEditing: bool
    var editTitle: string
    var editDescription: string
    var showDeleteConfirm: bool

    constructor (task: ItemTask)
      ensures this.task == task && !isEditing && !showDeleteConfirm
      ensures editTitle == task.title && editDescription == EditText(task.description)
    {
      this.task := task;
      isEditing := false;
      editTitle := task.title;
      editDescription := EditText(task.description);
      showDeleteConfirm := false;
    }

    /** `handleSave`: a blank title alerts and stays in edit mode; otherwise
        the changes go to `onUpdate` and edit mode ends. The edit fields are
        left as they are either way. */
    method HandleSave() returns (e: Effect)
      modifies this
      ensures e == SaveEffect(old(editTitle), old(editDescription))
      ensures isEditing == (old(isEditing) && e.Alert?)
      ensures editTitle == old(editTitle) && editDescription == old(editDescription)
      ensures showDeleteConfirm == old(showDeleteConfirm)
    {
      if Strip(editTitle, JavaScript) == [] {
        return Alert(EmptyTitleAlert);
      }
      e := SaveEffect(editTitle, editDescription);
      isEditing := false;
    }

    /** `handleCancel`: the edit fields go back to the task's values and
        edit mode ends. */
    method HandleCancel()
      modifies this
      ensures editTitle == task.title && editDescription == EditText(task.description)
      ensures !isEditing && showDeleteConfirm == old(showDeleteConfirm)
    {
      editTitle := task.title;
      editDescription := EditText(task.description);
      isEditing := false;
    }

    /** `handleToggleComplete`: only the flipped completion is sent. */
    method HandleToggleComplete() returns (e: Effect)
      ensures e == Update(TaskChanges(None, None, Some(!task.completed)))
    {
      e := Update(TaskChanges(None, None, Some(!task.completed)));
    }

    /** `handleDelete`: the confirmation closes, then `onDelete` is called. */
    method HandleDelete() returns (e: Effect)
      modifies this
      ensures e == Delete && !showDeleteConfirm
      ensures isEditing == old(isEditing) && editTitle == old(editTitle) && editDescription == old(editDescription)
    {
      showDeleteConfirm := false;
      e := Delete;
    }
  }
}
