/** The console application's in-memory task manager: a dictionary from
    integer identifier to task, kept in insertion order, and a counter that
    hands out identifiers and is never wound back. */
module ConsoleTaskManager {
  import opened Wrappers
  import opened Text
  import opened ConsoleTask

  const TitleLimit := 1000
  const DescriptionLimit := 5000

  const EmptyTitleMessage := "Title cannot be empty."

  function NotFoundMessage(id: int): string {
    "Task with ID " + IntToDecimal(id) + " not found."
  }

  predicate Increasing(s: seq<int>) {
    forall i, j :: 0 <= i < j < |s| ==> s[i] < s[j]
  }

  /** The dictionary's key order after `del d[x]`: `x` leaves, the rest keep
      their places. */
  function Without(s: seq<int>, x: int): (r: seq<int>)
    ensures forall y :: y in r <==> y in s && y != x
  {
    if s == [] then []
    else if s[0] == x then Without(s[1..], x)
    else [s[0]] + Without(s[1..], x)
  }

  /** Removing a key keeps the remaining keys in ascending order. */
  lemma {:induction false} WithoutKeepsOrder(s: seq<int>, x: int)
    requires Increasing(s)
    ensures Increasing(Without(s, x))
  {
    if s != [] {
      WithoutKeepsOrder(s[1..], x);
      if s[0] != x {
        var w := Without(s[1..], x);
        forall j | 0 <= j < |w| ensures s[0] < w[j] {
          assert w[j] in s[1..];
        }
      }
    }
  }

  /** The task map after flipping the completion of task `id`. */
  function Toggled(m: map<int, Task>, id: int): (r: map<int, Task>)
    requires id in m
    ensures r.Keys == m.Keys && r[id].completed == !m[id].completed
    ensures forall k :: k in m && k != id ==> r[k] == m[k]
  {
    m[id := m[id].(completed := !m[id].completed)]
  }

  /** Two toggles restore the original tasks. */
  lemma ToggleTwiceRestores(m: map<int, Task>, id: int)
    requires id in m
    ensures Toggled(Toggled(m, id), id) == m
  {
    var r := Toggled(Toggled(m, id), id);
    assert r[id] == m[id];
  }

  /** The manager's invariant over its three fields (see `TaskManager.Valid`). */
  ghost predicate Consistent(tasks: map<int, Task>, order: seq<int>, nextId: int) {
    && nextId >= 1
    && (forall id :: id in tasks ==>
          && 1 <= id < nextId && tasks[id].id == id
          && |tasks[id].title| <= TitleLimit && |tasks[id].description| <= DescriptionLimit)
    && (forall i :: 0 <= i < |order| ==> order[i] in tasks)
    && (forall id :: id in tasks ==> id in order)
    && Increasing(order)
  }

  /** Replacing a stored task by one with the same identifier and fields
      within their limits keeps the invariant. */
  lemma ReplaceKeepsConsistent(tasks: map<int, Task>, order: seq<int>, nextId: int, t: Task)
    requires Consistent(tasks, order, nextId) && t.id in tasks
    requires |t.title| <= TitleLimit && |t.description| <= DescriptionLimit
    ensures Consistent(tasks[t.id := t], order, nextId)
  {
  }

  /** Storing a task under the counter's value, appending it to the key
      order and advancing the counter keeps the invariant. */
  lemma AppendKeepsConsistent(tasks: map<int, Task>, order: seq<int>, nextId: int, t: Task)
    requires Consistent(tasks, order, nextId) && t.id == nextId
    requires |t.title| <= TitleLimit && |t.description| <= DescriptionLimit
    ensures nextId !in tasks && forall id :: id in tasks ==> id < nextId
    ensures Consistent(tasks[nextId := t], order + [nextId], nextId + 1)
  {
    var order' := order + [nextId];
    assert forall i :: 0 <= i < |order| ==> order'[i] == order[i];
  }

  class TaskManager {
    /** `_tasks`, with `order` the dictionary's insertion order. */
    var tasks: map<int, Task>
    var order: seq<int>
    /** `_next_id` */
    var nextId: int

    /** Every stored task sits under its own identifier, below the counter;
        titles and descriptions respect their limits; the key order lists
        exactly the keys, oldest (smallest) first. */
    ghost predicate Valid()
      reads this
    {
      Consistent(tasks, order, nextId)
    }

    constructor ()
      ensures Valid() && tasks == map[] && order == [] && nextId == 1
    {
      tasks := map[];
      order := [];
      nextId := 1;
    }

    /** `add_task`: a blank title raises and changes nothing; otherwise the
        task gets the counter's value, which no task held and which exceeds
        every existing identifier, with the title cut to 1000 characters and
        then stripped and the description cut to 5000 characters. */
    method AddTask(title: string, description: string) returns (r: Result<int, string>)
      requires Valid()
      modifies this
      ensures Valid()
      ensures IsBlank(title, Python) ==>
                r == Failure(EmptyTitleMessage) && tasks == old(tasks) && order == old(order) && nextId == old(nextId)
      ensures !IsBlank(title, Python) ==>
                && r == Success(old(nextId))
                && old(nextId) !in old(tasks)
                && (forall id :: id in old(tasks) ==> id < r.value)
                && nextId == old(nextId) + 1
                && tasks == old(tasks)[r.value := Task(r.value, Strip(Take(title, TitleLimit), Python), Take(description, DescriptionLimit), false)]
                && order == old(order) + [r.value]
    {
      StripEmptyIffBlank(title, Python);
      if Strip(title, Python) == [] {
        return Failure(EmptyTitleMessage);
      }
      var id := nextId;
      var task := Task(id, Strip(Take(title, TitleLimit), Python), Take(description, DescriptionLimit), false);
      AppendKeepsConsistent(tasks, order, nextId, task);
      nextId := nextId + 1;
      tasks := tasks[id := task];
      order := order + [id];
      r := Success(id);
    }

    /** `get_all_tasks`: every task once, in insertion order, which is
        ascending identifier order. */
    method GetAllTasks() returns (r: seq<Task>)
      requires Valid()
      ensures |r| == |order| && forall i :: 0 <= i < |r| ==> r[i] == tasks[order[i]]
      ensures forall i, j :: 0 <= i < j < |r| ==> r[i].id < r[j].id
      ensures forall id :: id in tasks ==> tasks[id] in r
      ensures forall t :: t in r ==> t.id in tasks && tasks[t.id] == t
    {
      r := [];
      var i := 0;
      while i < |order|
        invariant 0 <= i <= |order| && |r| == i
        invariant forall k :: 0 <= k < i ==> r[k] == tasks[order[k]]
      {
        r := r + [tasks[order[i]]];
        i := i + 1;
      }
      forall id | id in tasks ensures tasks[id] in r {
        var k :| 0 <= k < |order| && order[k] == id;
        assert r[k] == tasks[id];
      }
    }

    method TaskExists(id: int) returns (b: bool)
      ensures b <==> id in tasks
    {
      b := id in tasks;
    }

    /** `update_task`: an unknown identifier raises; a blank new title raises
        before anything is written; otherwise the title becomes the stripped
        title cut to 1000 characters and the description its first 5000
        characters, each only when given. */
    method UpdateTask(id: int, title: Option<string>, description: Option<string>) returns (r: Outcome<string>)
      requires Valid()
      modifies this
      ensures Valid() && order == old(order) && nextId == old(nextId)
      ensures id !in old(tasks) ==> r == Fail(NotFoundMessage(id)) && tasks == old(tasks)
      ensures id in old(tasks) && title.Some? && IsBlank(title.value, Python) ==>
                r == Fail(EmptyTitleMessage) && tasks == old(tasks)
      ensures id in old(tasks) && !(title.Some? && IsBlank(title.value, Python)) ==>
                && r == Pass
                && var was := old(tasks)[id];
                && tasks == old(tasks)[id := was.(
                     title := if title.Some? then Take(Strip(title.value, Python), TitleLimit) else was.title,
                     description := if description.Some? then Take(description.value, DescriptionLimit) else was.description)]
    {
      if id !in tasks {
        return Fail(NotFoundMessage(id));
      }
      var task := tasks[id];
      if title.Some? {
        StripEmptyIffBlank(title.value, Python);
        if Strip(title.value, Python) == [] {
          return Fail(EmptyTitleMessage);
        }
        task := task.(title := Take(Strip(title.value, Python), TitleLimit));
      }
      if description.Some? {
        task := task.(description := Take(description.value, DescriptionLimit));
      }
      ReplaceKeepsConsistent(tasks, order, nextId, task);
      tasks := tasks[id := task];
      r := Pass;
    }

    /** `delete_task`: an unknown identifier raises; otherwise exactly that
        task goes, and the counter stays where it is. */
    method DeleteTask(id: int) returns (r: Outcome<string>)
      requires Valid()
      modifies this
      ensures Valid() && nextId == old(nextId)
      ensures id !in old(tasks) ==> r == Fail(NotFoundMessage(id)) && tasks == old(tasks) && order == old(order)
      ensures id in old(tasks) ==> r == Pass && tasks == old(tasks) - {id} && order == Without(old(order), id)
    {
      if id !in tasks {
        return Fail(NotFoundMessage(id));
      }
      WithoutKeepsOrder(order, id);
      tasks := tasks - {id};
      order := Without(order, id);
      assert forall i :: 0 <= i < |order| ==> order[i] in order;
      r := Pass;
    }

    /** `toggle_completion`: an unknown identifier raises; otherwise only
        that task's completion flips, and the new value is returned. */
    method ToggleCompletion(id: int) returns (r: Result<bool, string>)
      requires Valid()
      modifies this
      ensures Valid() && order == old(order) && nextId == old(nextId)
      ensures id !in old(tasks) ==> r == Failure(NotFoundMessage(id)) && tasks == old(tasks)
      ensures id in old(tasks) ==> r == Success(!old(tasks)[id].completed) && tasks == Toggled(old(tasks), id)
    {
      if id !in tasks {
        return Failure(NotFoundMessage(id));
      }
      tasks := Toggled(tasks, id);
      r := Success(tasks[id].completed);
    }
  }

  /** Identifiers are never reused: after a deletion, the next task gets an
      identifier above the deleted one. */
  method IdsAreNotReused(m: TaskManager, title: string) returns (first: int, second: int)
    requires m.Valid() && !IsBlank(title, Python)
    modifies m
    ensures m.Valid() && first < second && first !in m.tasks && second in m.tasks
  {
    var r := m.AddTask(title, "");
    first := r.value;
    var d := m.DeleteTask(first);
    r := m.AddTask(title, "");
    second := r.value;
  }

  function Spaces(n: nat): (s: string)
    ensures |s| == n && IsBlank(s, Python)
  {
    seq(n, _ => ' ')
  }

  /** The blank check sees the whole title but the stored title is cut
      first: a title of 1000 spaces and an `x` is accepted and stored empty. */
  lemma AcceptedTitleMayBeStoredEmpty()
    ensures var title := Spaces(TitleLimit) + "x";
            !IsBlank(title, Python) && Strip(Take(title, TitleLimit), Python) == []
  {
    var title := Spaces(TitleLimit) + "x";
    assert title[TitleLimit] == 'x';
    assert Take(title, TitleLimit) == Spaces(TitleLimit);
    StripEmptyIffBlank(Spaces(TitleLimit), Python);
  }

  /** Adding cuts then strips, updating strips then cuts: one leading space
      before a full-length title without white space at its ends loses its
      last character on add but keeps it on update. */
  lemma AddAndUpdateNormaliseDifferently(w: string)
    requires |w| == TitleLimit && !IsSpace(w[0], Python) && !IsSpace(w[TitleLimit - 2], Python)
    requires !IsSpace(w[TitleLimit - 1], Python)
    ensures Strip(Take(" " + w, TitleLimit), Python) == w[..TitleLimit - 1]
    ensures Take(Strip(" " + w, Python), TitleLimit) == w
  {
    assert Take(" " + w, TitleLimit) == " " + w[..TitleLimit - 1];
    StripOfPadded(w[..TitleLimit - 1]);
    StripOfPadded(w);
  }

  /** One leading space before a string without white space at its ends
      strips to that string. */
  lemma StripOfPadded(w: string)
    requires w != [] && !IsSpace(w[0], Python) && !IsSpace(w[|w| - 1], Python)
    ensures Strip(" " + w, Python) == w
  {
    assert (" " + w)[1..] == w;
    StripFixesTrimmed(w, Python);
  }
}
