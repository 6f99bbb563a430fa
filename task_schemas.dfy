/** The request and response bodies of the task endpoints. A request body
    that breaks a field bound is refused before any service code runs, so a
    `TaskCreate` or `TaskUpdate` value that reaches the service always
    satisfies `ValidCreate` or `ValidUpdate`. */
module TaskSchemas {
  import opened Wrappers
  import Calendar
  import TaskModel

  const TitleMaxLength := 1000
  const DescriptionMaxLength := 10000

  datatype TaskCreate = TaskCreate(title: string, description: Option<string>)

  datatype TaskUpdate = TaskUpdate(title: Option<string>, description: Option<string>,
                                   completed: Option<bool>)

  /** The fields a response carries: the seven original columns and none of
      priority, due date, recurrence or reminder. */
  datatype TaskResponse = TaskResponse(
    id: string,
    userId: string,
    title: string,
    description: Option<string>,
    completed: bool,
    createdAt: Calendar.DateTime,
    updatedAt: Option<Calendar.DateTime>)

  predicate ValidTitle(title: string) {
    1 <= |title| <= TitleMaxLength
  }

  predicate ValidDescription(description: Option<string>) {
    description.Some? ==> |description.value| <= DescriptionMaxLength
  }

  /** `title: str = Field(min_length=1, max_length=1000)`,
      `description: Optional[str] = Field(default=None, max_length=10000)`. */
  predicate ValidCreate(c: TaskCreate) {
    ValidTitle(c.title) && ValidDescription(c.description)
  }

  /** Every field optional; a title, when given, within 1 to 1000 characters. */
  predicate ValidUpdate(u: TaskUpdate) {
    (u.title.Some? ==> ValidTitle(u.title.value)) && ValidDescription(u.description)
  }

  /** The response built from a stored task. */
  function ToResponse(t: TaskModel.Task): (r: TaskResponse)
    ensures r.id == t.id && r.userId == t.userId && r.title == t.title
    ensures r.description == t.description && r.completed == t.completed
    ensures r.createdAt == t.createdAt && r.updatedAt == t.updatedAt
  {
    TaskResponse(t.id, t.userId, t.title, t.description, t.completed, t.createdAt, t.updatedAt)
  }

  /** The response does not depend on priority, due date, recurrence or
      reminder: two tasks that differ only there answer alike. */
  lemma ResponseOmitsAdvancedFields(t: TaskModel.Task, u: TaskModel.Task)
    requires t.id == u.id && t.userId == u.userId && t.title == u.title
    requires t.description == u.description && t.completed == u.completed
    requires t.createdAt == u.createdAt && t.updatedAt == u.updatedAt
    ensures ToResponse(t) == ToResponse(u)
  {
  }
}
