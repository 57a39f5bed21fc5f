/**
 * The task entry form: a text field whose trimmed value is submitted when it
 * is not empty, after which the field is cleared.
 */
module TaskInput {
  import opened Wrappers
  import opened JsString

  /** What `handleSubmit` passes to `onAddTask`: the trimmed input, or
      nothing at all when the input is empty or whitespace only. */
  function Submitted(inputValue: string): (text: Option<string>)
    ensures text.None? <==> AllWhitespace(inputValue)
    ensures text.Some? ==> text.value != [] && IsTrimmed(text.value)
    ensures text.Some? ==> text.value == Trim(inputValue)
  {
    var trimmed := Trim(inputValue);
    if trimmed != "" then Some(trimmed) else None
  }

  /** `!inputValue.trim()`: the Add button is disabled exactly when the input
      is whitespace only. */
  function SubmitDisabled(inputValue: string): (disabled: bool)
    ensures disabled <==> AllWhitespace(inputValue)
  {
    Trim(inputValue) == ""
  }

  /** The button is disabled exactly when submitting would add nothing. */
  lemma DisabledIffRejected(inputValue: string)
    ensures SubmitDisabled(inputValue) <==> Submitted(inputValue).None?
  {
  }

  /** Submitting what was submitted before submits the same text again:
      the trimmed value is a fixed point. */
  lemma ResubmitSame(inputValue: string)
    requires Submitted(inputValue).Some?
    ensures Submitted(Submitted(inputValue).value) == Submitted(inputValue)
  {
    TrimIdempotent(inputValue);
  }

  /** The form's state: the text typed so far. */
  class TaskForm {
    var inputValue: string

    constructor ()
      ensures inputValue == ""
    {
      inputValue := "";
    }

    /** Typing in the field. */
    method SetInput(v: string)
      modifies this
      ensures inputValue == v
    {
      inputValue := v;
    }

    /** `handleSubmit`: hands the trimmed text to `onAddTask` (returned as
        `added`) and clears the field, or does nothing when the trimmed text
        is empty. */
    method HandleSubmit() returns (added: Option<string>)
      modifies this
      ensures added == Submitted(old(inputValue))
      ensures added.Some? ==> inputValue == ""
      ensures added.None? ==> inputValue == old(inputValue)
    {
      var trimmed := Trim(inputValue);
      if trimmed != "" {
        added := Some(trimmed);
        inputValue := "";
      } else {
        added := None;
      }
    }
  }
}
