/**
 * The single-line input dialog of `src/components/FloatingInputModal.jsx`:
 * its one state field `inputValue`, set as the user types and cleared after
 * a submit that hands the trimmed text to `onSubmit`. A hidden dialog renders
 * nothing, so none of its handlers can run.
 */
module FloatingInputModal {
  import opened Wrappers
  import opened Text

  /**
   * What `handleSubmit` hands to `onSubmit`: the trimmed text, or nothing
   * when the text is blank. What is handed over never starts or ends with
   * whitespace.
   */
  function Submitted(input: string): (r: Option<string>)
    ensures r.None? <==> AllWhitespace(input)
    ensures r.Some? ==> r.value == Trim(input) && r.value != ""
    ensures r.Some? ==> !IsWhitespace(r.value[0]) && !IsWhitespace(r.value[|r.value| - 1])
    ensures r.Some? ==> Trim(r.value) == r.value
  {
    TrimEmptyIffBlank(input);
    TrimShape(input);
    TrimIdempotent(input);
    if Trim(input) != "" then Some(Trim(input)) else None
  }

  class Modal {
    var inputValue: string

    /** The first render: `useState('')`. */
    constructor ()
      ensures inputValue == ""
    {
      inputValue := "";
    }

    /** The input's `onChange`. */
    method Change(value: string)
      modifies this
      ensures inputValue == value
    {
      inputValue := value;
    }

    /**
     * The "完成" button: when the dialog is shown and the text is not blank,
     * `onSubmit` receives the trimmed text once and the input is cleared;
     * otherwise nothing is submitted and the text stays.
     */
    method Submit(isVisible: bool) returns (submitted: Option<string>)
      modifies this
      ensures !isVisible ==> submitted.None? && inputValue == old(inputValue)
      ensures isVisible ==> submitted == Submitted(old(inputValue))
      ensures inputValue == if submitted.Some? then "" else old(inputValue)
    {
      if !isVisible {
        return None;
      }
      var trimmed := Trim(inputValue);
      if trimmed != "" {
        submitted := Some(trimmed);
        inputValue := "";
      } else {
        submitted := None;
      }
    }
  }
}
