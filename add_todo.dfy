/**
 * The add page of `src/pages/AddTodo.jsx`: the record built from the
 * submitted form, appended to the stored list, and the page to return to.
 * `Date.now()`, the new todo's id, is a parameter.
 */
module AddTodo {
  import opened Wrappers
  import opened Text
  import opened Todos
  import opened TodoForm

  /** `formData.courseId ? parseInt(formData.courseId) : null`; `None` also stands for `NaN`. */
  function CourseIdOf(text: string): Option<int>
  {
    if text == "" then None else ParseInt(text)
  }

  /** The course select's text reads back as the course it was made from (an id 0 reads as none). */
  lemma CourseIdRoundTrip(c: Option<int>)
    ensures CourseIdOf(CourseText(c)) == if c == Some(0) then None else c
  {
    CourseTextParses(c);
  }

  /**
   * `{ id, ...formData, courseId: ... }`: every form field is carried over,
   * the course text becomes a number or `null`. The edit page's extra
   * `deadline: formData.deadline || ''` changes nothing here, since the
   * form's deadline is always text.
   */
  function FormRecord(id: int, f: FormData): Todo
  {
    Todo(id, f.title, Some(f.category), CourseIdOf(f.courseId), f.time, f.allDay, f.duration,
         f.deadline, f.deadlineAllDay, f.subtasks)
  }

  /**
   * What the form of an existing todo gives back when submitted unchanged:
   * the same todo, except that a missing or empty category reads 'none' and
   * a course id 0 reads as no course.
   */
  function Normalized(t: Todo): Todo
  {
    t.(category := Some(if TruthyCategory(t.category) then t.category.value else "none"),
       courseId := if t.courseId == Some(0) then None else t.courseId)
  }

  /** Opening a todo in the form and saving it untouched changes only what `Normalized` changes. */
  lemma UnchangedFormRoundTrip(t: Todo)
    ensures FormRecord(t.id, InitialForm(Some(t))) == Normalized(t)
  {
    CourseIdRoundTrip(t.courseId);
  }

  /**
   * `handleAddTodo`'s update: the previous list (none when storage does not
   * hold an array) followed by the new record.
   */
  function AddTodos(prev: Stored<Todo>, id: int, f: FormData): (r: seq<Todo>)
    ensures |r| == |Safe(prev)| + 1
    ensures r[..|Safe(prev)|] == Safe(prev)
    ensures r[|Safe(prev)|] == FormRecord(id, f)
    ensures prev.NonArray? ==> r == [FormRecord(id, f)]
  {
    Safe(prev) + [FormRecord(id, f)]
  }

  /** `location.state?.from || '/'`: where the page goes after saving. */
  function BackTo(from: Option<string>): (path: string)
    ensures path != ""
    ensures path == "/" <==> from.None? || from.value in {"", "/"}
  {
    if from.Some? && from.value != "" then from.value else "/"
  }
}
