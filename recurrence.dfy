/** Recurring tasks: when a recurring task is completed, the next pending
    instance is built with its due date and reminder advanced by one step of
    the task's pattern. Persisting the new row is left to the caller; the
    model returns it. */
module Recurrence {
  import opened Wrappers
  import opened Calendar
  import opened TaskModel

  function Lift(r: Result<DateTime, RangeError>): Result<Option<DateTime>, RangeError> {
    match r
    case Success(t) => Success(Some(t))
    case Failure(e) => Failure(e)
  }

  /** The pattern strings that advance a date. */
  predicate IsPatternName(p: string) {
    p == "daily" || p == "weekly" || p == "monthly"
  }

  /** `calculate_next_due_date`: nothing when the date or the pattern is
      missing or the pattern is not a known name; otherwise one day, seven
      days or one clamped calendar month later, raising past `datetime.max`. */
  function NextDueDate(current: Option<DateTime>, pattern: Option<string>): (r: Result<Option<DateTime>, RangeError>)
    requires ValidTime(current)
    ensures r.Success? ==> ValidTime(r.value)
    ensures r == Success(None) <==> current.None? || pattern.None? || !IsPatternName(pattern.value)
  {
    if current.None? || pattern.None? || pattern.value == "" then Success(None)
    else if pattern.value == "daily" then Lift(PlusDays(current.value, 1))
    else if pattern.value == "weekly" then Lift(PlusDays(current.value, 7))
    else if pattern.value == "monthly" then Lift(PlusMonth(current.value))
    else Success(None)
  }

  /** `calculate_next_reminder`: the same steps applied to the old reminder,
      written out separately in the source. */
  function NextReminder(current: Option<DateTime>, pattern: Option<string>): (r: Result<Option<DateTime>, RangeError>)
    requires ValidTime(current)
    ensures r.Success? ==> ValidTime(r.value)
  {
    if current.None? || pattern.None? || pattern.value == "" then Success(None)
    else if pattern.value == "daily" then Lift(PlusDays(current.value, 1))
    else if pattern.value == "weekly" then Lift(PlusDays(current.value, 7))
    else if pattern.value == "monthly" then Lift(PlusMonth(current.value))
    else Success(None)
  }

  /** The reminder is advanced by exactly the due-date rule. */
  lemma ReminderFollowsDueDateRule(current: Option<DateTime>, pattern: Option<string>)
    requires ValidTime(current)
    ensures NextReminder(current, pattern) == NextDueDate(current, pattern)
  {
  }

  /** `daily` moves the time line by exactly one day, `weekly` by exactly
      seven, keeping the time of day; past `datetime.max` it raises
      OverflowError. */
  lemma DayStepsShiftByWholeDays(t: DateTime, pattern: string, n: nat)
    requires Valid(t)
    requires (pattern == "daily" && n == 1) || (pattern == "weekly" && n == 7)
    ensures var r := NextDueDate(Some(t), Some(pattern));
            if Ordinal(t) + n <= MaxOrdinal then
              r.Success? && r.value.Some? && SameTimeOfDay(r.value.value, t)
              && Instant(r.value.value) == Instant(t) + n * MicrosPerDay
            else r == Failure(OverflowError)
  {
    PlusDaysSpec(t, n);
  }

  /** `monthly` moves to the next calendar month (December to January of the
      next year), keeps the day when that month has it and otherwise takes
      the month's last day, keeps the time of day, and raises ValueError from
      December 9999. */
  lemma MonthStepClamps(t: DateTime)
    requires Valid(t)
    ensures var r := NextDueDate(Some(t), Some("monthly"));
            if t.year == MaxYear && t.month == 12 then r == Failure(ValueError)
            else
              && r.Success? && r.value.Some?
              && var u := r.value.value;
              && (if t.month == 12 then u.year == t.year + 1 && u.month == 1
                  else u.year == t.year && u.month == t.month + 1)
              && u.day == (if t.day <= DaysInMonth(u.year, u.month) then t.day else DaysInMonth(u.year, u.month))
              && SameTimeOfDay(u, t)
  {
    PlusMonthSpec(t);
    AddMonthYearWrap(t);
  }

  /** Month steps work on the already-clamped date: from January 31st two
      steps give the last day of February and then that same day of March,
      never March 31st. */
  lemma MonthStepsDoNotRecoverDay(t: DateTime)
    requires Valid(t) && t.month == 1 && t.day == 31
    ensures var feb := NextDueDate(Some(t), Some("monthly"));
            && feb.Success? && feb.value.Some?
            && var mar := NextDueDate(feb.value, Some("monthly"));
            && mar.Success? && mar.value.Some?
            && feb.value.value.day == DaysInMonth(t.year, 2)
            && mar.value.value.month == 3 && mar.value.value.day == feb.value.value.day
            && mar.value.value.day < 31
  {
    ClampPersists(t);
    AddMonthYearWrap(t);
    AddMonthYearWrap(AddMonth(t));
  }

  /** For `daily` and `weekly`, the distance between due date and reminder
      is the same before and after the step. */
  lemma DayStepsKeepReminderGap(due: DateTime, reminder: DateTime, pattern: string)
    requires Valid(due) && Valid(reminder)
    requires pattern == "daily" || pattern == "weekly"
    requires NextDueDate(Some(due), Some(pattern)).Success?
    requires NextReminder(Some(reminder), Some(pattern)).Success?
    ensures var d := NextDueDate(Some(due), Some(pattern)).value;
            var m := NextReminder(Some(reminder), Some(pattern)).value;
            d.Some? && m.Some?
            && Instant(d.value) - Instant(m.value) == Instant(due) - Instant(reminder)
  {
    var n := if pattern == "daily" then 1 else 7;
    PlusDaysSpec(due, n);
    PlusDaysSpec(reminder, n);
  }

  /** For `monthly` the gap is not kept: a due date on January 31st with a
      reminder a day earlier both land on February 28th 2023. */
  lemma MonthStepMayCloseReminderGap()
    ensures var due := DateTime(2023, 1, 31, 9, 0, 0, 0);
            var reminder := DateTime(2023, 1, 30, 9, 0, 0, 0);
            var feb28 := DateTime(2023, 2, 28, 9, 0, 0, 0);
            && Instant(due) - Instant(reminder) == MicrosPerDay
            && NextDueDate(Some(due), Some("monthly")) == Success(Some(feb28))
            && NextReminder(Some(reminder), Some("monthly")) == Success(Some(feb28))
  {
  }

  /** The pattern string `handle_task_completion` hands to the date steps. */
  function PatternOf(t: Task): Option<string> {
    match t.recurrencePattern
    case None => None
    case Some(p) => Some(RecurrenceName(p))
  }

  /** `handle_task_completion` without the session: nothing for a task that
      is not recurring; otherwise the next instance, with a fresh identifier
      and creation time, the owner, text, priority and recurrence settings
      copied, pending, and due date and reminder each advanced from their
      old values; a range error from either step propagates. */
  function HandleTaskCompletion(task: Task, freshId: string, now: DateTime): (r: Result<Option<Task>, RangeError>)
    requires ValidTime(task.dueDate) && ValidTime(task.reminderTime)
    ensures !task.isRecurring ==> r == Success(None)
    ensures task.isRecurring && r.Success? ==>
              && r.value.Some?
              && var n := r.value.value;
              && n.id == freshId && n.createdAt == now && n.updatedAt.None?
              && n.userId == task.userId && n.title == task.title && n.description == task.description
              && n.priority == task.priority && !n.completed
              && n.isRecurring && n.recurrencePattern == task.recurrencePattern
              && Success(n.dueDate) == NextDueDate(task.dueDate, PatternOf(task))
              && Success(n.reminderTime) == NextReminder(task.reminderTime, PatternOf(task))
    ensures r.Failure? <==>
              task.isRecurring
              && (NextDueDate(task.dueDate, PatternOf(task)).Failure?
                  || NextReminder(task.reminderTime, PatternOf(task)).Failure?)
  {
    if !task.isRecurring then Success(None)
    else
      var pattern := PatternOf(task);
      match NextDueDate(task.dueDate, pattern)
      case Failure(e) => Failure(e)
      case Success(due) =>
        match NextReminder(task.reminderTime, pattern)
        case Failure(e) => Failure(e)
        case Success(reminder) =>
          Success(Some(Task(freshId, task.userId, task.title, task.description, false, now, None,
                            task.priority, due, task.isRecurring, task.recurrencePattern, reminder)))
  }

  /** A recurring task without a pattern still spawns an instance, with no
      due date and no reminder. */
  lemma PatternlessTaskSpawnsUndated(task: Task, freshId: string, now: DateTime)
    requires ValidTime(task.dueDate) && ValidTime(task.reminderTime)
    requires task.isRecurring && task.recurrencePattern.None?
    ensures var r := HandleTaskCompletion(task, freshId, now);
            r.Success? && r.value.Some? && r.value.value.dueDate.None? && r.value.value.reminderTime.None?
  {
  }

  /** A recurring task without a due date spawns an instance without one,
      whatever its pattern. */
  lemma UndatedTaskSpawnsUndated(task: Task, freshId: string, now: DateTime)
    requires ValidTime(task.dueDate) && ValidTime(task.reminderTime)
    requires task.isRecurring && task.dueDate.None?
    ensures var r := HandleTaskCompletion(task, freshId, now);
            r.Success? ==> r.value.Some? && r.value.value.dueDate.None?
  {
  }

  /** The spawned instance is a row the table accepts whenever the completed
      task was one. */
  lemma SpawnedTaskIsStorable(task: Task, freshId: string, now: DateTime)
    requires Storable(task) && Valid(now)
    ensures var r := HandleTaskCompletion(task, freshId, now);
            r.Success? && r.value.Some? ==> Storable(r.value.value)
  {
  }
}
