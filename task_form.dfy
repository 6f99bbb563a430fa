/** The new-task form: its input cells, the checks run on submit (first
    failure wins), the request body it sends, and what a successful or
    failed submission does to the inputs. The `onSubmit` callback is a
    parameter whose outcome is given. */
module TaskForm {
  import opened Wrappers
  import opened Text
  import TaskModel
  import TaskSchemas

  const TitleRequired := "Title is required"
  const TitleTooLong := "Title must be less than 1000 characters"
  const DescriptionTooLong := "Description must be less than 10,000 characters"
  const SubmitFailed := "Failed to create task"

  const TitleLimit := 1000
  const DescriptionLimit := 10000

  /** The values of the seven input cells. Dates are the strings the date
      picker emits. */
  datatype FormInputs = FormInputs(
    title: string,
    description: string,
    priority: TaskModel.Priority,
    dueDate: Option<string>,
    isRecurring: bool,
    recurrencePattern: Option<TaskModel.Recurrence>,
    reminderTime: Option<string>)

  /** The inputs of a fresh form, and of one just submitted successfully. */
  const ClearedInputs := FormInputs("", "", TaskModel.Medium, None, false, None, None)

  /** The body handed to `onSubmit`. */
  datatype TaskCreateRequest = TaskCreateRequest(
    title: string,
    description: Option<string>,
    priority: TaskModel.Priority,
    dueDate: Option<string>,
    isRecurring: bool,
    recurrencePattern: Option<TaskModel.Recurrence>,
    reminderTime: Option<string>)

  /** How the submission callback ended: resolved, or rejected with an
      `Error` carrying a message or with some other value. */
  datatype SubmitOutcome = Resolved | Rejected(message: Option<string>)

  /** The message shown when the callback rejects. */
  function RejectionMessage(message: Option<string>): string {
    if message.Some? then message.value else SubmitFailed
  }

  /** The checks of `handleSubmit` in order: blank title, then the untrimmed
      title over 1000 characters, then the description over 10000. */
  function FormError(title: string, description: string): (r: Option<string>)
    ensures r.None? <==> !IsBlank(title, JavaScript) && |title| <= TitleLimit && |description| <= DescriptionLimit
    ensures IsBlank(title, JavaScript) ==> r == Some(TitleRequired)
    ensures !IsBlank(title, JavaScript) && |title| > TitleLimit ==> r == Some(TitleTooLong)
    ensures !IsBlank(title, JavaScript) && |title| <= TitleLimit && |description| > DescriptionLimit ==>
              r == Some(DescriptionTooLong)
  {
    StripEmptyIffBlank(title, JavaScript);
    if Strip(title, JavaScript) == [] then Some(TitleRequired)
    else if |title| > TitleLimit then Some(TitleTooLong)
    else if |description| > DescriptionLimit then Some(DescriptionTooLong)
    else None
  }

  /** The request body: title trimmed, description trimmed or left out when
      blank, every other input passed through. */
  function PayloadOf(i: FormInputs): (p: TaskCreateRequest)
    ensures p.title == Strip(i.title, JavaScript)
    ensures p.description.None? <==> IsBlank(i.description, JavaScript)
    ensures p.description.Some? ==> p.description.value == Strip(i.description, JavaScript)
    ensures p.priority == i.priority && p.dueDate == i.dueDate && p.isRecurring == i.isRecurring
    ensures p.recurrencePattern == i.recurrencePattern && p.reminderTime == i.reminderTime
  {
    StripEmptyIffBlank(i.description, JavaScript);
    var d := Strip(i.description, JavaScript);
    TaskCreateRequest(Strip(i.title, JavaScript), if d == [] then None else Some(d),
                      i.priority, i.dueDate, i.isRecurring, i.recurrencePattern, i.reminderTime)
  }

  /** A body the form sends meets the back end's `TaskCreate` bounds. */
  lemma SentBodyMeetsSchema(i: FormInputs)
    requires FormError(i.title, i.description).None?
    ensures var p := PayloadOf(i);
            TaskSchemas.ValidCreate(TaskSchemas.TaskCreate(p.title, p.description))
  {
    StripEmptyIffBlank(i.title, JavaScript);
  }

  /** The form and the service disagree on white space: a title made of the
      separator U+001C is not blank to the form's `trim` but is blank to the
      service's `strip`, so the form sends it and the service refuses it. */
  lemma FormSendsTitleServiceRefuses()
    ensures var title := "\U{001C}";
            && FormError(title, "").None?
            && IsBlank(PayloadOf(FormInputs(title, "", TaskModel.Medium, None, false, None, None)).title, Python)
  {
    var title := "\U{001C}";
    assert !IsSpace(title[0], JavaScript);
    StripFixesTrimmed(title, JavaScript);
  }

  class Form {
    var title: string
    var description: string
    var priority: TaskModel.Priority
    var dueDate: Option<string>
    var isRecurring: bool
    var recurrencePattern: Option<TaskModel.Recurrence>
    var reminderTime: Option<string>
    var error: Option<string>

    function Inputs(): FormInputs
      reads this
    {
      FormInputs(title, description, priority, dueDate, isRecurring, recurrencePattern, reminderTime)
    }

    constructor ()
      ensures Inputs() == ClearedInputs && error.None?
    {
      title, description, priority := "", "", TaskModel.Medium;
      dueDate, isRecurring, recurrencePattern, reminderTime := None, false, None, None;
      error := None;
    }

    /** `handleSubmit`: a failed check records its message and sends
        nothing; otherwise the body is sent, and then either every input is
        reset or the rejection's message is recorded with the inputs kept.
        `sent` is the body handed to `onSubmit`, if it was called. */
    method HandleSubmit(outcome: SubmitOutcome) returns (sent: Option<TaskCreateRequest>)
      modifies this
      ensures FormError(old(title), old(description)).Some? ==>
                sent.None? && error == FormError(old(title), old(description)) && Inputs() == old(Inputs())
      ensures FormError(old(title), old(description)).None? ==>
                && sent == Some(PayloadOf(old(Inputs())))
                && (outcome.Resolved? ==> Inputs() == ClearedInputs && error.None?)
                && (outcome.Rejected? ==> Inputs() == old(Inputs()) && error == Some(RejectionMessage(outcome.message)))
    {
      error := None;
      if Strip(title, JavaScript) == [] {
        error := Some(TitleRequired);
        return None;
      }
      if |title| > TitleLimit {
        error := Some(TitleTooLong);
        return None;
      }
      if |description| > DescriptionLimit {
        error := Some(DescriptionTooLong);
        return None;
      }
      sent := Some(PayloadOf(Inputs()));
      match outcome
      case Resolved =>
        ClearInputs();
      case Rejected(message) =>
        error := Some(RejectionMessage(message));
    }

    /** The setter calls that clear the form after a successful submit. */
    method ClearInputs()
      modifies this
      ensures Inputs() == ClearedInputs && error == old(error)
    {
      title := "";
      description := "";
      priority := TaskModel.Medium;
      dueDate := None;
      isRecurring := false;
      recurrencePattern := None;
      reminderTime := None;
    }

    /** The "Recurring task" checkbox: unchecking also drops the pattern. */
    method OnRecurringChange(checked: bool)
      modifies this
      ensures Inputs() == old(Inputs()).(isRecurring := checked,
                                         recurrencePattern := if checked then old(recurrencePattern) else None)
      ensures error == old(error)
    {
      isRecurring := checked;
      if !checked {
        recurrencePattern := None;
      }
    }
  }
}
