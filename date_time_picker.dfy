/** The date (and optional time) input: how a value typed into the browser
    control becomes the ISO 8601 string handed to the form, how the stored
    value is shown, and when the clear button is offered. */
module DateTimePicker {
  import opened Wrappers
  import opened Text

  /** Characters of `YYYY-MM-DDTHH:MM` and of `YYYY-MM-DD`. */
  const DateTimeLocalLength := 16
  const DateLength := 10

  /** The `onChange` handler: an empty input clears the value; otherwise
      seconds are appended to a date and time, and midnight to a date. */
  function Emit(input: string, includeTime: bool): (r: Option<string>)
    ensures r.None? <==> input == []
    ensures r.Some? ==> StartsWith(r.value, input)
    ensures r.Some? && includeTime ==> r.value == input + ":00"
    ensures r.Some? && !includeTime ==> r.value == input + "T00:00:00"
  {
    if input == [] then None
    else if includeTime then Some(input + ":00")
    else Some(input + "T00:00:00")
  }

  /** The control's `value`: the first 16 (or 10) characters of the stored
      value, or `''` when there is none or it is empty. */
  function Shown(value: Option<string>, includeTime: bool): (r: string)
    ensures value.None? || value.value == [] ==> r == []
    ensures r == [] || (value.Some? && StartsWith(value.value, r))
    ensures |r| <= if includeTime then DateTimeLocalLength else DateLength
    ensures value.Some? ==>
      var n := if includeTime then DateTimeLocalLength else DateLength;
      |r| == (if |value.value| <= n then |value.value| else n) && r == value.value[..|r|]
  {
    if value.None? || value.value == [] then []
    else Take(value.value, if includeTime then DateTimeLocalLength else DateLength)
  }

  /** The clear button appears only for an optional field holding a value. */
  predicate ShowsClear(required: bool, value: Option<string>) {
    !required && value.Some? && value.value != []
  }

  /** `handleClear`: the value becomes null. */
  function HandleClear(): (r: Option<string>)
    ensures r == Emit([], true) && r == Emit([], false)
  {
    None
  }

  /** The clear button is offered exactly when an optional field shows a
      value, and clearing takes it away. */
  lemma ClearFollowsShown(required: bool, value: Option<string>, includeTime: bool)
    ensures ShowsClear(required, value) <==> !required && Shown(value, includeTime) != []
    ensures !ShowsClear(required, HandleClear())
  {
  }

  /** A complete `datetime-local` entry is shown again exactly as typed. */
  lemma ShownEmitDateTime(v: string)
    requires |v| == DateTimeLocalLength
    ensures Shown(Emit(v, true), true) == v
  {
    assert (v + ":00")[..DateTimeLocalLength] == v;
  }

  /** A complete `date` entry is shown again exactly as typed. */
  lemma ShownEmitDate(v: string)
    requires |v| == DateLength
    ensures Shown(Emit(v, false), false) == v
  {
    assert (v + "T00:00:00")[..DateLength] == v;
  }

  /** A stored value with zero seconds survives being shown and emitted
      again. */
  lemma EmitShownDateTime(value: string)
    requires |value| == DateTimeLocalLength + 3 && value[DateTimeLocalLength..] == ":00"
    ensures Emit(Shown(Some(value), true), true) == Some(value)
  {
    assert value[..DateTimeLocalLength] + ":00" == value;
  }

  /** A stored value at midnight survives being shown and emitted again. */
  lemma EmitShownDate(value: string)
    requires |value| == DateLength + 9 && value[DateLength..] == "T00:00:00"
    ensures Emit(Shown(Some(value), false), false) == Some(value)
  {
    assert value[..DateLength] + "T00:00:00" == value;
  }

  /** Only values with zero seconds come back unchanged: other seconds are
      dropped by the control. */
  lemma SecondsAreDropped()
    ensures Emit(Shown(Some("2024-05-01T09:30:45"), true), true) == Some("2024-05-01T09:30:00")
  {
    var stored := "2024-05-01T09:30:45";
    var shown := "2024-05-01T09:30";
    assert Shown(Some(stored), true) == stored[..DateTimeLocalLength] == shown;
    assert shown + ":00" == "2024-05-01T09:30:00";
  }
}
