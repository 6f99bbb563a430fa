/** The back end's task service: create, list, partially update and delete
    tasks, every lookup scoped to the owner. The table is a map from task
    identifier to row; the identifier source (`uuid4`) and the clock
    (`datetime.utcnow`) are parameters. */
module TaskService {
  import opened Wrappers
  import opened Text
  import Calendar
  import opened TaskModel
  import opened TaskSchemas

  /** The HTTP error a service call raises. */
  datatype HttpError = HttpError(status: int, detail: string)

  const EmptyTitle := HttpError(400, "Title cannot be empty or whitespace")

  /** `Task.created_at.desc()`: newer rows first. */
  predicate NewestFirst(s: seq<Task>) {
    forall i, j :: 0 <= i < j < |s| ==> Calendar.Stamp(s[i].createdAt) >= Calendar.Stamp(s[j].createdAt)
  }

  /** `data.description.strip() if data.description else None`: absent and
      empty both give None, anything else is stripped (so blank gives ""). */
  function NormalizedDescription(d: Option<string>): (r: Option<string>)
    ensures r.None? <==> d.None? || d.value == []
    ensures r.Some? ==> r.value == Strip(d.value, Python)
    ensures r.Some? ==> (r.value == [] <==> IsBlank(d.value, Python))
  {
    if d.None? || d.value == [] then None
    else
      StripEmptyIffBlank(d.value, Python);
      Some(Strip(d.value, Python))
  }

  /** The schema bounds only the length of a title, so a title of white
      space reaches the service, which refuses it. */
  lemma BlankTitlePassesSchema(title: string)
    requires 1 <= |title| <= TaskSchemas.TitleMaxLength && IsBlank(title, Python)
    ensures ValidCreate(TaskCreate(title, None)) && Strip(title, Python) == []
  {
    StripEmptyIffBlank(title, Python);
  }

  /** Puts `t` into a newest-first sequence after every row at least as new. */
  method InsertNewestFirst(s: seq<Task>, t: Task) returns (r: seq<Task>, at: nat)
    requires NewestFirst(s)
    ensures at <= |s| && r == s[..at] + [t] + s[at..]
    ensures NewestFirst(r)
  {
    at := 0;
    while at < |s| && Calendar.Stamp(s[at].createdAt) >= Calendar.Stamp(t.createdAt)
      invariant at <= |s|
      invariant forall i :: 0 <= i < at ==> Calendar.Stamp(s[i].createdAt) >= Calendar.Stamp(t.createdAt)
    {
      at := at + 1;
    }
    r := s[..at] + [t] + s[at..];
    assert forall i :: 0 <= i < |r| ==> r[i] == if i < at then s[i] else if i == at then t else s[i - 1];
  }

  lemma InsertedLayout(s: seq<Task>, t: Task, at: nat, r: seq<Task>)
    requires at <= |s| && r == s[..at] + [t] + s[at..]
    ensures |r| == |s| + 1 && r[at] == t
    ensures forall i :: 0 <= i < |r| ==> r[i] == if i < at then s[i] else if i == at then t else s[i - 1]
    ensures forall x :: x in s ==> x in r
  {
    forall x | x in s ensures x in r {
      var k :| 0 <= k < |s| && s[k] == x;
      if k < at { assert r[k] == x; } else { assert r[k + 1] == x; }
    }
  }

  /** While listing `userId`'s rows: every listed row is a stored row of
      that user, no longer pending, listed once, and every row of that user
      no longer pending is listed. */
  ghost predicate Listed(tasks: map<string, Task>, userId: string, pending: set<string>, r: seq<Task>) {
    && (forall i :: 0 <= i < |r| ==> r[i].id in tasks && tasks[r[i].id] == r[i] && r[i].userId == userId)
    && (forall i :: 0 <= i < |r| ==> r[i].id !in pending)
    && (forall id :: id in tasks && id !in pending && tasks[id].userId == userId ==> tasks[id] in r)
    && (forall i, j :: 0 <= i < j < |r| ==> r[i].id != r[j].id)
  }

  /** Taking one pending row of the user into the listing keeps it a
      listing. */
  lemma ListedStep(tasks: map<string, Task>, userId: string, pending: set<string>, r: seq<Task>,
                   id: string, at: nat, r': seq<Task>)
    requires forall k :: k in tasks ==> tasks[k].id == k
    requires Listed(tasks, userId, pending, r) && id in pending && id in tasks && tasks[id].userId == userId
    requires at <= |r| && r' == r[..at] + [tasks[id]] + r[at..]
    ensures Listed(tasks, userId, pending - {id}, r')
  {
    InsertedLayout(r, tasks[id], at, r');
  }

  class TaskStore {
    /** The `tasks` table, by primary key. */
    var tasks: map<string, Task>

    ghost predicate Valid()
      reads this
    {
      KeyedById() && forall id :: id in tasks ==> Storable(tasks[id])
    }

    /** Every row is stored under its own identifier. */
    ghost predicate KeyedById()
      reads this
    {
      forall id :: id in tasks ==> tasks[id].id == id
    }

    constructor ()
      ensures Valid() && tasks == map[]
    {
      tasks := map[];
    }

    /** `get_user_tasks`: exactly the caller's rows, each once, newest first. */
    method GetUserTasks(userId: string) returns (r: seq<Task>)
      requires KeyedById()
      ensures forall i :: 0 <= i < |r| ==> r[i].id in tasks && tasks[r[i].id] == r[i] && r[i].userId == userId
      ensures forall id :: id in tasks && tasks[id].userId == userId ==> tasks[id] in r
      ensures forall i, j :: 0 <= i < j < |r| ==> r[i].id != r[j].id
      ensures NewestFirst(r)
    {
      var pending := tasks.Keys;
      r := [];
      while pending != {}
        invariant pending <= tasks.Keys
        invariant Listed(tasks, userId, pending, r)
        invariant NewestFirst(r)
        decreases pending
      {
        var id :| id in pending;
        if tasks[id].userId == userId {
          var at;
          ghost var before := r;
          r, at := InsertNewestFirst(r, tasks[id]);
          ListedStep(tasks, userId, pending, before, id, at, r);
        }
        pending := pending - {id};
      }
    }

    /** `create_task`: a blank title is refused with 400 and nothing is
        stored; otherwise a new pending row with the stripped title and the
        normalised description is stored under the fresh identifier. */
    method CreateTask(userId: string, data: TaskCreate, freshId: string, now: Calendar.DateTime)
      returns (r: Result<Task, HttpError>)
      requires Valid() && ValidCreate(data) && Calendar.Valid(now)
      requires freshId !in tasks
      modifies this
      ensures Valid()
      ensures IsBlank(data.title, Python) ==> r == Failure(EmptyTitle) && tasks == old(tasks)
      ensures !IsBlank(data.title, Python) ==>
                && r.Success?
                && r.value == NewTask(freshId, userId, Strip(data.title, Python), NormalizedDescription(data.description), now)
                && tasks == old(tasks)[freshId := r.value]
    {
      StripEmptyIffBlank(data.title, Python);
      var title := Strip(data.title, Python);
      if data.title == [] || title == [] {
        return Failure(EmptyTitle);
      }
      var task := NewTask(freshId, userId, title, NormalizedDescription(data.description), now);
      assert Storable(task);
      tasks := tasks[freshId := task];
      r := Success(task);
    }

    /** `update_task`: None when the row is missing or owned by someone
        else; 400 for a blank title before anything is written; otherwise
        the given fields are written (title stripped, description normalised,
        completion copied), `updated_at` is set, and nothing else changes. */
    method UpdateTask(taskId: string, userId: string, data: TaskUpdate, now: Calendar.DateTime)
      returns (r: Result<Option<Task>, HttpError>)
      requires Valid() && ValidUpdate(data) && Calendar.Valid(now)
      modifies this
      ensures Valid()
      ensures taskId !in old(tasks) || old(tasks)[taskId].userId != userId ==>
                r == Success(None) && tasks == old(tasks)
      ensures taskId in old(tasks) && old(tasks)[taskId].userId == userId
              && data.title.Some? && IsBlank(data.title.value, Python) ==>
                r == Failure(EmptyTitle) && tasks == old(tasks)
      ensures taskId in old(tasks) && old(tasks)[taskId].userId == userId
              && !(data.title.Some? && IsBlank(data.title.value, Python)) ==>
                && r.Success? && r.value.Some?
                && var was, t := old(tasks)[taskId], r.value.value;
                && tasks == old(tasks)[taskId := t]
                && t.title == (if data.title.Some? then Strip(data.title.value, Python) else was.title)
                && t.description == (if data.description.Some? then NormalizedDescription(data.description) else was.description)
                && t.completed == (if data.completed.Some? then data.completed.value else was.completed)
                && t.updatedAt == Some(now)
                && t.id == was.id && t.userId == was.userId && t.createdAt == was.createdAt
                && t.priority == was.priority && t.dueDate == was.dueDate && t.isRecurring == was.isRecurring
                && t.recurrencePattern == was.recurrencePattern && t.reminderTime == was.reminderTime
    {
      if taskId !in tasks || tasks[taskId].userId != userId {
        return Success(None);
      }
      var task := tasks[taskId];
      if data.title.Some? {
        StripEmptyIffBlank(data.title.value, Python);
        if data.title.value == [] || Strip(data.title.value, Python) == [] {
          return Failure(EmptyTitle);
        }
        task := task.(title := Strip(data.title.value, Python));
      }
      if data.description.Some? {
        task := task.(description := NormalizedDescription(data.description));
      }
      if data.completed.Some? {
        task := task.(completed := data.completed.value);
      }
      task := task.(updatedAt := Some(now));
      tasks := tasks[taskId := task];
      r := Success(Some(task));
    }

    /** `delete_task`: False and no change when the row is missing or owned
        by someone else; otherwise exactly that row goes and True. */
    method DeleteTask(taskId: string, userId: string) returns (deleted: bool)
      requires Valid()
      modifies this
      ensures Valid()
      ensures deleted <==> taskId in old(tasks) && old(tasks)[taskId].userId == userId
      ensures tasks == if deleted then old(tasks) - {taskId} else old(tasks)
    {
      if taskId !in tasks || tasks[taskId].userId != userId {
        return false;
      }
      tasks := tasks - {taskId};
      deleted := true;
    }
  }

  /** Owner isolation: an update or delete by one user never alters a row
      another user owns, even given its identifier. */
  method OwnerIsolation(store: TaskStore, other: string, taskId: string, data: TaskUpdate, now: Calendar.DateTime)
    requires store.Valid() && ValidUpdate(data) && Calendar.Valid(now)
    requires taskId in store.tasks && store.tasks[taskId].userId != other
    modifies store
    ensures store.tasks == old(store.tasks)
  {
    var updated := store.UpdateTask(taskId, other, data, now);
    assert updated == Success(None);
    var deleted := store.DeleteTask(taskId, other);
    assert !deleted;
  }
}
