/**
 * The form of `src/components/TodoForm.jsx`: its initial data, the field and
 * subtask handlers, the two all-day check boxes and the submit guard. The
 * component's two state hooks are the fields of `TodoFormState`; every
 * handler's update is a function on `FormData`.
 */
module TodoForm {
  import opened Wrappers
  import opened Text
  import opened Todos
  import opened Lists

  /**
   * `formData`. The course select holds its value as text ("" for none);
   * `category` is 'none', 'hw' or 'quiz' from the select, or what the todo
   * being edited had.
   */
  datatype FormData = FormData(
    title: string,
    courseId: string,
    category: string,
    time: string,
    allDay: bool,
    duration: string,
    deadline: string,
    deadlineAllDay: bool,
    subtasks: seq<Subtask>)

  /** `existingTodo?.courseId || ''`: a course id the select can show, "" for none or 0. */
  function CourseText(c: Option<int>): string
  {
    if c.Some? && c.value != 0 then IntToString(c.value) else ""
  }

  /** The select's text is empty exactly for no course (or 0), and reads back as the course otherwise. */
  lemma CourseTextParses(c: Option<int>)
    ensures CourseText(c) == "" <==> c.None? || c == Some(0)
    ensures CourseText(c) != "" ==> ParseInt(CourseText(c)) == c
  {
    if c.Some? && c.value != 0 {
      ParseIntOfIntToString(c.value);
      IntToStringShape(c.value);
    }
  }

  /**
   * The initial `formData`: each field of the todo being edited, or its
   * default when the field is falsy or there is no todo.
   */
  function InitialForm(existing: Option<Todo>): (f: FormData)
    ensures existing.None? ==> f == FormData("", "", "none", "", false, "", "", false, [])
    ensures existing.Some? ==>
      var t := existing.value;
      f.title == t.title && f.time == t.time && f.allDay == t.allDay && f.duration == t.duration
      && f.deadline == t.deadline && f.deadlineAllDay == t.deadlineAllDay && f.subtasks == t.subtasks
      && f.category == (if TruthyCategory(t.category) then t.category.value else "none")
      && (f.courseId == "" <==> t.courseId.None? || t.courseId == Some(0))
      && (f.courseId != "" ==> ParseInt(f.courseId) == t.courseId)
  {
    match existing
    case None => FormData("", "", "none", "", false, "", "", false, [])
    case Some(t) =>
      CourseTextParses(t.courseId);
      FormData(t.title, CourseText(t.courseId), if TruthyCategory(t.category) then t.category.value else "none",
               t.time, t.allDay, t.duration, t.deadline, t.deadlineAllDay, t.subtasks)
  }

  // ---------------------------------------------------------------- text fields

  /** The inputs whose change sets one field of `formData` to the input's text. */
  datatype Field = Title | CourseId | Category | Time | Duration | Deadline

  function Get(f: FormData, field: Field): string
  {
    match field
    case Title => f.title
    case CourseId => f.courseId
    case Category => f.category
    case Time => f.time
    case Duration => f.duration
    case Deadline => f.deadline
  }

  /**
   * `handleChange` (title, course, category, duration), `handleTimeChange`
   * and the deadline input's handler; the last two choose between `value`
   * and `value`, so they set the text as it is.
   */
  function SetField(f: FormData, field: Field, value: string): (r: FormData)
    ensures Get(r, field) == value
    ensures forall g :: g != field ==> Get(r, g) == Get(f, g)
    ensures r.allDay == f.allDay && r.deadlineAllDay == f.deadlineAllDay && r.subtasks == f.subtasks
  {
    match field
    case Title => f.(title := value)
    case CourseId => f.(courseId := value)
    case Category => f.(category := value)
    case Time => f.(time := value)
    case Duration => f.(duration := value)
    case Deadline => f.(deadline := value)
  }

  // ---------------------------------------------------------------- subtasks

  /** `subtasks.map(...)`: flip `completed` on the subtasks with id `id`. */
  function ToggleSubtask(s: seq<Subtask>, id: int): (r: seq<Subtask>)
    ensures |r| == |s|
    ensures forall i :: 0 <= i < |s| ==>
      r[i].id == s[i].id && r[i].text == s[i].text
      && r[i].completed == (if s[i].id == id then !s[i].completed else s[i].completed)
  {
    seq(|s|, i requires 0 <= i < |s| => if s[i].id == id then s[i].(completed := !s[i].completed) else s[i])
  }

  /** Toggling the same id twice gives the list back. */
  lemma ToggleTwice(s: seq<Subtask>, id: int)
    ensures ToggleSubtask(ToggleSubtask(s, id), id) == s
  {
    var r := ToggleSubtask(ToggleSubtask(s, id), id);
    assert forall i :: 0 <= i < |s| ==> r[i] == s[i];
  }

  /** `subtasks.filter(task => task.id !== id)`. */
  function DeleteSubtask(s: seq<Subtask>, id: int): seq<Subtask>
  {
    Filter(s, (x: Subtask) => x.id != id)
  }

  /**
   * Deleting leaves no subtask with that id, keeps every other one, and
   * keeps their order (deleting from a concatenation deletes from each part).
   */
  lemma DeleteSubtaskSpec(s: seq<Subtask>, t: seq<Subtask>, id: int)
    ensures forall i :: 0 <= i < |DeleteSubtask(s, id)| ==> DeleteSubtask(s, id)[i].id != id
    ensures forall i :: 0 <= i < |s| && s[i].id != id ==> s[i] in DeleteSubtask(s, id)
    ensures DeleteSubtask(s + t, id) == DeleteSubtask(s, id) + DeleteSubtask(t, id)
    ensures (forall i :: 0 <= i < |s| ==> s[i].id != id) ==> DeleteSubtask(s, id) == s
  {
    FilterAppend(s, t, (x: Subtask) => x.id != id);
    if forall i :: 0 <= i < |s| ==> s[i].id != id {
      FilterAll(s, (x: Subtask) => x.id != id);
    }
  }

  /**
   * `handleAddSubtask`: a new, unfinished subtask holding the trimmed text,
   * or `None` when the text is blank. `id` stands for `Date.now()`.
   */
  function NewSubtask(text: string, id: int): (r: Option<Subtask>)
    ensures r.None? <==> AllWhitespace(text)
    ensures r.Some? ==> r.value == Subtask(id, Trim(text), false) && r.value.text != ""
  {
    TrimEmptyIffBlank(text);
    if Trim(text) == "" then None else Some(Subtask(id, Trim(text), false))
  }

  // ---------------------------------------------------------------- all-day boxes

  /** `baseDate`: the first ten characters, or "" when there are not ten. */
  function BaseDate(s: string): (d: string)
    ensures |s| >= 10 ==> d == s[..10]
    ensures |s| < 10 ==> d == ""
  {
    if s != "" && |s| >= 10 then s[..10] else ""
  }

  /**
   * The text an all-day box leaves behind: checked, the date alone; unchecked,
   * a bare date gets `suffix` and anything else stays.
   */
  function AllDayText(s: string, checked: bool, suffix: string): string
  {
    var baseDate := BaseDate(s);
    if checked then baseDate
    else if baseDate != "" && (s == "" || |s| == 10) then baseDate + suffix
    else s
  }

  /** The "整日" box of the time input: it also clears the duration when checked. */
  function SetAllDay(f: FormData, checked: bool): FormData
  {
    f.(allDay := checked, time := AllDayText(f.time, checked, "T00:00"), duration := if checked then "" else f.duration)
  }

  /** The "整日" box of the deadline input. */
  function SetDeadlineAllDay(f: FormData, checked: bool): FormData
  {
    f.(deadlineAllDay := checked, deadline := AllDayText(f.deadline, checked, "T23:59"))
  }

  /**
   * Checking keeps the date part of a date-time and drops anything shorter;
   * unchecking turns a bare date into that date at `suffix` and keeps any
   * other text.
   */
  lemma AllDayTextSpec(s: string, suffix: string)
    ensures AllDayText(s, true, suffix) == if |s| >= 10 then s[..10] else ""
    ensures AllDayText(s, false, suffix) == if |s| == 10 then s + suffix else s
  {
    if |s| == 10 {
      assert s[..10] == s;
    }
  }

  /** A bare date survives unchecking and checking again. */
  lemma AllDayRoundTrip(d: string, suffix: string)
    requires |d| == 10
    ensures AllDayText(AllDayText(d, false, suffix), true, suffix) == d
  {
    AllDayTextSpec(d, suffix);
    var s := d + suffix;
    assert s[..10] == d;
  }

  /** Checking twice is checking once; checking after unchecking a date-time keeps its date. */
  lemma AllDayChecked(s: string, suffix: string)
    ensures AllDayText(AllDayText(s, true, suffix), true, suffix) == AllDayText(s, true, suffix)
    ensures |s| > 10 ==> AllDayText(AllDayText(s, false, suffix), true, suffix) == s[..10]
  {
    AllDayTextSpec(s, suffix);
    AllDayTextSpec(AllDayText(s, true, suffix), suffix);
  }

  /**
   * The time box: checked, the time shrinks to its date (or "") and the
   * duration is cleared; unchecked, a bare date becomes midnight of that
   * date and the duration stays. Nothing but the flag, time and duration changes.
   */
  lemma SetAllDaySpec(f: FormData, checked: bool)
    ensures var r := SetAllDay(f, checked);
      r.allDay == checked
      && (checked ==> r.duration == "" && r.time == if |f.time| >= 10 then f.time[..10] else "")
      && (!checked ==> r.duration == f.duration && r.time == if |f.time| == 10 then f.time + "T00:00" else f.time)
      && r.(allDay := f.allDay, time := f.time, duration := f.duration) == f
  {
    AllDayTextSpec(f.time, "T00:00");
  }

  /**
   * The deadline box: the same rewriting with 23:59 for a bare date; only the
   * deadline and its flag change.
   */
  lemma SetDeadlineAllDaySpec(f: FormData, checked: bool)
    ensures var r := SetDeadlineAllDay(f, checked);
      r.deadlineAllDay == checked
      && (checked ==> r.deadline == if |f.deadline| >= 10 then f.deadline[..10] else "")
      && (!checked ==> r.deadline == if |f.deadline| == 10 then f.deadline + "T23:59" else f.deadline)
      && r.(deadlineAllDay := f.deadlineAllDay, deadline := f.deadline) == f
  {
    AllDayTextSpec(f.deadline, "T23:59");
  }

  // ---------------------------------------------------------------- submit

  /** `handleSubmit`: the data handed to `onSubmit`, or `None` when the title is empty. */
  function Submit(f: FormData): (r: Option<FormData>)
    ensures r.None? <==> f.title == ""
    ensures r.Some? ==> r.value == f
  {
    if f.title == "" then None else Some(f)
  }

  // ---------------------------------------------------------------- the component's state

  class TodoFormState {
    var formData: FormData
    var newSubtaskText: string

    /** The first render, for a new todo or for `existingTodo`. */
    constructor (existing: Option<Todo>)
      ensures formData == InitialForm(existing) && newSubtaskText == ""
    {
      formData := InitialForm(existing);
      newSubtaskText := "";
    }

    /** A text input's change handler. */
    method Change(field: Field, value: string)
      modifies this
      ensures formData == SetField(old(formData), field, value) && newSubtaskText == old(newSubtaskText)
    {
      formData := SetField(formData, field, value);
    }

    /** The subtask input's `setNewSubtaskText`. */
    method ChangeSubtaskText(value: string)
      modifies this
      ensures newSubtaskText == value && formData == old(formData)
    {
      newSubtaskText := value;
    }

    /** `handleAddSubtask`, with `Date.now()` as `id`. */
    method AddSubtask(id: int)
      modifies this
      ensures var n := NewSubtask(old(newSubtaskText), id);
        if n.None? then formData == old(formData) && newSubtaskText == old(newSubtaskText)
        else formData == old(formData).(subtasks := old(formData).subtasks + [n.value]) && newSubtaskText == ""
    {
      var n := NewSubtask(newSubtaskText, id);
      if n.None? {
        return;
      }
      formData := formData.(subtasks := formData.subtasks + [n.value]);
      newSubtaskText := "";
    }

    /** `handleSubtaskToggle`. */
    method ToggleSubtaskById(id: int)
      modifies this
      ensures formData == old(formData).(subtasks := ToggleSubtask(old(formData).subtasks, id))
      ensures newSubtaskText == old(newSubtaskText)
    {
      formData := formData.(subtasks := ToggleSubtask(formData.subtasks, id));
    }

    /** `handleDeleteSubtask`. */
    method DeleteSubtaskById(id: int)
      modifies this
      ensures formData == old(formData).(subtasks := DeleteSubtask(old(formData).subtasks, id))
      ensures newSubtaskText == old(newSubtaskText)
    {
      formData := formData.(subtasks := DeleteSubtask(formData.subtasks, id));
    }

    /** The time input's all-day box. */
    method CheckAllDay(checked: bool)
      modifies this
      ensures formData == SetAllDay(old(formData), checked) && newSubtaskText == old(newSubtaskText)
    {
      formData := SetAllDay(formData, checked);
    }

    /** The deadline input's all-day box. */
    method CheckDeadlineAllDay(checked: bool)
      modifies this
      ensures formData == SetDeadlineAllDay(old(formData), checked) && newSubtaskText == old(newSubtaskText)
    {
      formData := SetDeadlineAllDay(formData, checked);
    }

    /** `handleSubmit`: what reaches `onSubmit`, if anything; the form is left as it is. */
    method HandleSubmit() returns (submitted: Option<FormData>)
      ensures submitted == Submit(formData)
      ensures submitted.Some? <==> formData.title != ""
    {
      submitted := if formData.title == "" then None else Some(formData);
    }
  }
}
