/** The dashboard's filter and sort state: six state cells, the query
    parameters built from them, and whether any filter is active. An empty
    selection (`''` in the interface) is `None`. */
module TaskFilters {
  import opened Wrappers
  import TaskModel

  datatype Status = Pending | Completed
  datatype SortKey = ByDueDate | ByPriority | ByTitle
  datatype SortOrder = Asc | Desc

  function StatusName(s: Status): string {
    match s
    case Pending => "pending"
    case Completed => "completed"
  }

  function PriorityName(p: TaskModel.Priority): string {
    match p
    case High => "high"
    case Medium => "medium"
    case Low => "low"
  }

  function SortKeyName(k: SortKey): string {
    match k
    case ByDueDate => "due_date"
    case ByPriority => "priority"
    case ByTitle => "title"
  }

  function SortOrderName(o: SortOrder): string {
    match o
    case Asc => "asc"
    case Desc => "desc"
  }

  /** The values of the six state cells. */
  datatype FilterState = FilterState(
    search: string,
    status: Option<Status>,
    priority: Option<TaskModel.Priority>,
    dueDate: string,
    sortBy: Option<SortKey>,
    sortOrder: SortOrder)

  /** The state the hook starts in and `clearFilters` returns to. */
  const Initial := FilterState("", None, None, "", None, Asc)

  /** A key is added to the query parameters when its cell is non-empty. */
  function PutText(p: map<string, string>, key: string, value: string): map<string, string> {
    if value != "" then p[key := value] else p
  }

  function PutChoice<T>(p: map<string, string>, key: string, value: Option<T>, name: T -> string): map<string, string> {
    if value.Some? then p[key := name(value.value)] else p
  }

  /** `getFilterParams`: each filter key is present exactly when its cell is
      non-empty, and then carries the cell's value; `sort_order` is always
      present. */
  function ParamsOf(s: FilterState): (p: map<string, string>)
    ensures ("search" in p <==> s.search != "") && ("search" in p ==> p["search"] == s.search)
    ensures ("status" in p <==> s.status.Some?) && ("status" in p ==> p["status"] == StatusName(s.status.value))
    ensures ("priority" in p <==> s.priority.Some?) && ("priority" in p ==> p["priority"] == PriorityName(s.priority.value))
    ensures ("due_date" in p <==> s.dueDate != "") && ("due_date" in p ==> p["due_date"] == s.dueDate)
    ensures ("sort_by" in p <==> s.sortBy.Some?) && ("sort_by" in p ==> p["sort_by"] == SortKeyName(s.sortBy.value))
    ensures "sort_order" in p && p["sort_order"] == SortOrderName(s.sortOrder)
    ensures p.Keys <= {"search", "status", "priority", "due_date", "sort_by", "sort_order"}
  {
    var p := PutText(map[], "search", s.search);
    var p := PutChoice(p, "status", s.status, StatusName);
    var p := PutChoice(p, "priority", s.priority, PriorityName);
    var p := PutText(p, "due_date", s.dueDate);
    var p := PutChoice(p, "sort_by", s.sortBy, SortKeyName);
    p["sort_order" := SortOrderName(s.sortOrder)]
  }

  /** `hasActiveFilters`: some filter or the sort key is set; the sort order
      alone does not count. */
  predicate HasActiveFilters(s: FilterState) {
    s.search != "" || s.status.Some? || s.priority.Some? || s.dueDate != "" || s.sortBy.Some?
  }

  /** Filters are active exactly when the parameters carry a key besides
      `sort_order`. */
  lemma ActiveIffFilterKey(s: FilterState)
    ensures HasActiveFilters(s) <==> ParamsOf(s).Keys != {"sort_order"}
  {
    var p := ParamsOf(s);
    if !HasActiveFilters(s) {
      assert p.Keys == {"sort_order"};
    } else if s.search != "" {
      assert "search" in p;
    } else if s.status.Some? {
      assert "status" in p;
    } else if s.priority.Some? {
      assert "priority" in p;
    } else if s.dueDate != "" {
      assert "due_date" in p;
    } else {
      assert "sort_by" in p;
    }
  }

  /** After clearing, the parameters hold only `sort_order=asc`. */
  lemma ClearedParams()
    ensures ParamsOf(Initial) == map["sort_order" := "asc"]
    ensures !HasActiveFilters(Initial)
  {
    var p := ParamsOf(Initial);
    assert p.Keys == {"sort_order"};
  }

  /** Different states send different parameters: nothing set in the
      interface is lost on the way to the query. */
  lemma ParamsDetermineState(a: FilterState, b: FilterState)
    requires ParamsOf(a) == ParamsOf(b)
    ensures a == b
  {
    var p := ParamsOf(a);
    if a.status.Some? {
      assert StatusName(a.status.value) == p["status"] == StatusName(b.status.value);
    }
    if a.priority.Some? {
      assert PriorityName(a.priority.value) == p["priority"] == PriorityName(b.priority.value);
    }
    if a.sortBy.Some? {
      assert SortKeyName(a.sortBy.value) == p["sort_by"] == SortKeyName(b.sortBy.value);
    }
    assert SortOrderName(a.sortOrder) == p["sort_order"] == SortOrderName(b.sortOrder);
  }

  /** The hook's state cells; each setter replaces one cell. */
  class FilterHook {
    var search: string
    var status: Option<Status>
    var priority: Option<TaskModel.Priority>
    var dueDate: string
    var sortBy: Option<SortKey>
    var sortOrder: SortOrder

    ghost function State(): FilterState
      reads this
    {
      FilterState(search, status, priority, dueDate, sortBy, sortOrder)
    }

    constructor ()
      ensures State() == Initial
    {
      search, status, priority, dueDate, sortBy, sortOrder := "", None, None, "", None, Asc;
    }

    method SetSearch(v: string)
      modifies this
      ensures State() == old(State()).(search := v)
    {
      search := v;
    }

    method SetStatus(v: Option<Status>)
      modifies this
      ensures State() == old(State()).(status := v)
    {
      status := v;
    }

    method SetPriority(v: Option<TaskModel.Priority>)
      modifies this
      ensures State() == old(State()).(priority := v)
    {
      priority := v;
    }

    method SetDueDate(v: string)
      modifies this
      ensures State() == old(State()).(dueDate := v)
    {
      dueDate := v;
    }

    method SetSortBy(v: Option<SortKey>)
      modifies this
      ensures State() == old(State()).(sortBy := v)
    {
      sortBy := v;
    }

    method SetSortOrder(v: SortOrder)
      modifies this
      ensures State() == old(State()).(sortOrder := v)
    {
      sortOrder := v;
    }

    /** `getFilterParams`, filling the parameter object one key at a time. */
    method GetFilterParams() returns (p: map<string, string>)
      ensures p == ParamsOf(State())
    {
      p := map[];
      if search != "" { p := p["search" := search]; }
      if status.Some? { p := p["status" := StatusName(status.value)]; }
      if priority.Some? { p := p["priority" := PriorityName(priority.value)]; }
      if dueDate != "" { p := p["due_date" := dueDate]; }
      if sortBy.Some? { p := p["sort_by" := SortKeyName(sortBy.value)]; }
      p := p["sort_order" := SortOrderName(sortOrder)];
    }

    /** `clearFilters`: back to the initial state. */
    method ClearFilters()
      modifies this
      ensures State() == Initial
    {
      search := "";
      status := None;
      priority := None;
      dueDate := "";
      sortBy := None;
      sortOrder := Asc;
    }
  }
}
