/**
 * The course list of `src/pages/CoursesPage.jsx`: which courses are
 * expanded, adding a course through the input dialog, each course's todos
 * (by strict `courseId === course.id`) with its hw and quiz counts, and the
 * colour key of a listed todo. `Date.now()`, the new course's id, is a
 * parameter.
 */
module CoursesPage {
  import opened Wrappers
  import opened Text
  import opened Todos
  import opened Lists
  import opened FloatingInputModal

  datatype Course = Course(id: int, name: string)

  /** `initialCourses`: what the page stores when there is nothing yet. */
  const InitialCourses: seq<Course> := [Course(1, "作業系統"), Course(2, "計算機概論"), Course(3, "大數據模型")]

  /** The page's state: the stored courses, the expanded course ids and whether the dialog shows. */
  datatype Page = Page(courses: seq<Course>, expandedCourseIds: seq<int>, isModalVisible: bool)

  // ---------------------------------------------------------------- expanding

  /** `isExpanded`: the course's id is among the expanded ids. */
  predicate IsExpanded(p: Page, id: int)
  {
    id in p.expandedCourseIds
  }

  /**
   * `handleCourseClick`'s update: an expanded id is removed (every copy of
   * it), any other id is appended. Only that id changes membership.
   */
  function ToggleExpanded(ids: seq<int>, id: int): (r: seq<int>)
    ensures id in r <==> id !in ids
    ensures forall x :: x != id ==> (x in r <==> x in ids)
    ensures id !in ids ==> r == ids + [id]
  {
    if id in ids then Filter(ids, (x: int) => x != id) else ids + [id]
  }

  /** Clicking a course twice expands (or collapses) exactly the courses it did before. */
  lemma ClickTwice(ids: seq<int>, id: int)
    ensures forall x :: x in ToggleExpanded(ToggleExpanded(ids, id), id) <==> x in ids
  {
  }

  /** A list of expanded ids without repeats keeps that way. */
  lemma ToggleKeepsDistinct(ids: seq<int>, id: int)
    requires NoDuplicates(ids)
    ensures NoDuplicates(ToggleExpanded(ids, id))
  {
    if id in ids {
      FilterNoDuplicates(ids, (x: int) => x != id);
    }
  }

  /** `handleCourseClick` on the page: the clicked course flips between expanded and collapsed. */
  function ClickCourse(p: Page, id: int): (r: Page)
    ensures IsExpanded(r, id) <==> !IsExpanded(p, id)
    ensures forall x :: x != id ==> (IsExpanded(r, x) <==> IsExpanded(p, x))
    ensures r.courses == p.courses && r.isModalVisible == p.isModalVisible
  {
    p.(expandedCourseIds := ToggleExpanded(p.expandedCourseIds, id))
  }

  // ---------------------------------------------------------------- adding

  /** `handleAddCourse`: the new course goes first, the others follow in order, and the dialog closes. */
  function AddCourse(p: Page, id: int, name: string): (r: Page)
    ensures |r.courses| == |p.courses| + 1 && r.courses[0] == Course(id, name) && r.courses[1..] == p.courses
    ensures !r.isModalVisible && r.expandedCourseIds == p.expandedCourseIds
  {
    p.(courses := [Course(id, name)] + p.courses, isModalVisible := false)
  }

  /**
   * The dialog's submit feeds `handleAddCourse`: a blank entry adds nothing
   * and leaves the dialog open; otherwise one course is added, named by the
   * entry without surrounding whitespace, and the dialog closes.
   */
  function SubmitCourse(p: Page, id: int, input: string): (r: Page)
    ensures AllWhitespace(input) ==> r == p
    ensures !AllWhitespace(input) ==>
      |r.courses| == |p.courses| + 1 && r.courses[1..] == p.courses && !r.isModalVisible
      && r.courses[0] == Course(id, Trim(input)) && r.expandedCourseIds == p.expandedCourseIds
      && r.courses[0].name != "" && Trim(r.courses[0].name) == r.courses[0].name
  {
    match Submitted(input)
    case None => p
    case Some(name) => AddCourse(p, id, name)
  }

  // ---------------------------------------------------------------- a course's todos

  /** `courseTodos`: the todos whose `courseId` is strictly the course's id (`null` and `NaN` match none). */
  function CourseTodos(todos: seq<Todo>, courseId: int): seq<Todo>
  {
    Filter(todos, (t: Todo) => t.courseId == Some(courseId))
  }

  function IsHw(t: Todo): bool { t.category == Some("hw") }

  function IsQuiz(t: Todo): bool { t.category == Some("quiz") }

  /** `hwCount`. */
  function HwCount(todos: seq<Todo>, courseId: int): nat
  {
    Count(CourseTodos(todos, courseId), IsHw)
  }

  /** `quizCount`. */
  function QuizCount(todos: seq<Todo>, courseId: int): nat
  {
    Count(CourseTodos(todos, courseId), IsQuiz)
  }

  /**
   * A course lists exactly the todos that carry its id, and its two counts
   * never add up to more than it lists (no todo is both hw and quiz).
   */
  lemma CourseTodosSpec(todos: seq<Todo>, courseId: int)
    ensures forall t | t in CourseTodos(todos, courseId) :: t in todos && t.courseId == Some(courseId)
    ensures forall t | t in todos && t.courseId == Some(courseId) :: t in CourseTodos(todos, courseId)
    ensures HwCount(todos, courseId) + QuizCount(todos, courseId) <= |CourseTodos(todos, courseId)|
  {
    CountDisjoint(CourseTodos(todos, courseId), IsHw, IsQuiz);
  }

  // ---------------------------------------------------------------- colours

  /** `categoryStyles`. */
  const CategoryStyles: map<string, string> := map[
    "quiz" := "bg-orange-100 text-orange-500",
    "hw" := "bg-blue-100 text-blue-500",
    "未分類" := "bg-gray-200 text-gray-700",
    "none" := "bg-gray-200 text-gray-700"]

  /** `todo.category || '未分類'`: a falsy category (`null`, `undefined`, "") is looked up as 未分類. */
  function StyleKey(c: Option<string>): (k: string)
    ensures k != ""
    ensures k == "未分類" <==> !TruthyCategory(c) || c == Some("未分類")
  {
    if TruthyCategory(c) then c.value else "未分類"
  }

  /**
   * `categoryStyles[...]`: the colour classes, or `None` (the text
   * "undefined" in the class list) for a category the table lacks.
   */
  function StyleClass(c: Option<string>): (r: Option<string>)
    ensures !TruthyCategory(c) || c.value in {"none", "未分類"} ==> r == Some("bg-gray-200 text-gray-700")
    ensures r.None? <==> TruthyCategory(c) && c.value !in CategoryStyles
  {
    var k := StyleKey(c);
    if k in CategoryStyles then Some(CategoryStyles[k]) else None
  }
}
