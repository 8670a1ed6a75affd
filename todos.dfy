/**
 * The records the application keeps in local storage, as the pages read them.
 * A field missing from a stored object reads like its falsy default here: ""
 * for text, false for flags, `None` for `null`/`undefined` and [] for lists.
 */
module Todos {
  import opened Wrappers

  /** A form subtask ("備註" item). */
  datatype Subtask = Subtask(id: int, text: string, completed: bool)

  /**
   * A to-do. `time` and `deadline` are the stored text ("YYYY-MM-DD" or
   * "YYYY-MM-DDTHH:MM", or an ISO instant for Lunch); `category` is `None`
   * for `null`/`undefined`; `courseId` is `None` for `null`/`undefined`/`NaN`.
   */
  datatype Todo = Todo(
    id: int,
    title: string,
    category: Option<string>,
    courseId: Option<int>,
    time: string,
    allDay: bool,
    duration: string,
    deadline: string,
    deadlineAllDay: bool,
    subtasks: seq<Subtask>)

  /** `new Date(s)` as a local instant in minutes; `None` is an Invalid Date. */
  type Parser = string -> Option<int>

  /** `toISOString()` of a local instant in minutes. */
  type Iso = int -> string

  /** What a page reads from storage: an array, or any other JSON value. */
  datatype Stored<T> = Arr(elems: seq<T>) | NonArray

  /** `Array.isArray(x) ? x : []`. */
  function Safe<T>(x: Stored<T>): seq<T>
  {
    if x.Arr? then x.elems else []
  }

  /** A category that is neither `null`, `undefined` nor "". */
  predicate TruthyCategory(c: Option<string>)
  {
    c.Some? && c.value != ""
  }
}
