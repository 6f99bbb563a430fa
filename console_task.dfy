/** The task record of the console to-do application and the one-line form
    the console prints for it. */
module ConsoleTask {
  import opened Text

  datatype Task = Task(id: int, title: string, description: string, completed: bool)

  /** A check mark for a completed task, a blank otherwise. */
  function StatusSymbol(completed: bool): string {
    if completed then "\U{2713}" else " "
  }

  /** `Task.__str__`: `[<status>] #<id>: <title>`. */
  function Display(t: Task): (s: string)
    ensures |s| == 7 + |IntToDecimal(t.id)| + |t.title|
    ensures s[0] == '[' && s[2] == ']' && s[3..5] == " #"
    ensures s[1] == (if t.completed then '\U{2713}' else ' ')
    ensures s[5..] == IntToDecimal(t.id) + ": " + t.title
  {
    "[" + StatusSymbol(t.completed) + "] #" + IntToDecimal(t.id) + ": " + t.title
  }

  /** The description never shows in the printed line. */
  lemma DisplayIgnoresDescription(t: Task, description: string)
    ensures Display(t.(description := description)) == Display(t)
  {
  }

  lemma ColonEndsDigits(digits: string, title: string)
    ensures var line := digits + ": " + title;
            |digits| < |line| && line[|digits|] == ':' && line[..|digits|] == digits
  {
  }

  /** The printed line determines status, identifier and title: the
      identifier's digits cannot contain the `:` that ends them, so the line
      can be read back unambiguously. */
  lemma DisplayDeterminesFields(a: Task, b: Task)
    requires Display(a) == Display(b)
    ensures a.completed == b.completed && a.id == b.id && a.title == b.title
  {
    var s := Display(a);
    var da, db := IntToDecimal(a.id), IntToDecimal(b.id);
    assert s[5..] == da + ": " + a.title == db + ": " + b.title;
    if |da| < |db| {
      ColonEndsDigits(da, a.title);
      assert false;
    } else if |db| < |da| {
      ColonEndsDigits(db, b.title);
      assert false;
    }
    assert da == s[5..5 + |da|] == db;
    IntToDecimalInjective(a.id, b.id);
    assert a.title == s[7 + |da|..] == b.title;
  }
}
