/** The `tasks` table row of the web back end. The ORM class declares seven
    columns; the migration that added priorities, due dates, recurrence and
    reminders adds five more, whose value domains come from its CHECK
    constraints, and the recurrence code reads and writes all twelve. */
module TaskModel {
  import opened Wrappers
  import Calendar

  /** `priority IN ('high', 'medium', 'low')`, default `'medium'`. */
  datatype Priority = High | Medium | Low

  /** `recurrence_pattern IS NULL OR recurrence_pattern IN ('daily', 'weekly', 'monthly')`. */
  datatype Recurrence = Daily | Weekly | Monthly

  /** The string stored in the `recurrence_pattern` column. */
  function RecurrenceName(p: Recurrence): string {
    match p
    case Daily => "daily"
    case Weekly => "weekly"
    case Monthly => "monthly"
  }

  /** `title` is a VARCHAR(1000). */
  const TitleMaxLength := 1000

  datatype Task = Task(
    id: string,
    userId: string,
    title: string,
    description: Option<string>,
    completed: bool,
    createdAt: Calendar.DateTime,
    updatedAt: Option<Calendar.DateTime>,
    priority: Priority,
    dueDate: Option<Calendar.DateTime>,
    isRecurring: bool,
    recurrencePattern: Option<Recurrence>,
    reminderTime: Option<Calendar.DateTime>)

  predicate ValidTime(t: Option<Calendar.DateTime>) {
    t.Some? ==> Calendar.Valid(t.value)
  }

  /** A row the table holds: a title that fits its column and timestamps a
      Python `datetime` can hold. */
  predicate Storable(t: Task) {
    && |t.title| <= TitleMaxLength
    && Calendar.Valid(t.createdAt)
    && ValidTime(t.updatedAt) && ValidTime(t.dueDate) && ValidTime(t.reminderTime)
  }

  /** `Task(user_id=..., title=..., description=...)`: the identifier comes
      from `uuid4`, `created_at` from the clock, and every other column takes
      its default. */
  function NewTask(id: string, userId: string, title: string, description: Option<string>,
                   now: Calendar.DateTime): Task
  {
    Task(id, userId, title, description, false, now, None, Medium, None, false, None, None)
  }
}
