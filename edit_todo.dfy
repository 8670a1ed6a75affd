/**
 * The edit page of `src/pages/EditTodo.jsx`: the todo named by the URL's
 * `todoId` (compared with loose `==`, a number against text), and the
 * update that replaces every matching todo by the record built from the
 * submitted form. Also the facts that tie the add, edit and delete
 * updates together.
 */
module EditTodo {
  import opened Wrappers
  import opened Text
  import opened Todos
  import opened TodoForm
  import opened AddTodo
  import opened TodoPage

  /**
   * The number the URL's `todoId` text stands for under loose `==`
   * (`todo.id == todoId` holds exactly when this is `Some(todo.id)`).
   */
  function UrlId(todoId: string): Option<int>
  {
    LooseNumber(todoId)
  }

  /** The index of the first todo whose id is `key`. */
  function FindNamed(s: seq<Todo>, key: Option<int>): (r: Option<nat>)
    ensures r.None? <==> forall i :: 0 <= i < |s| ==> key != Some(s[i].id)
    ensures r.Some? ==> r.value < |s| && key == Some(s[r.value].id)
                          && forall j :: 0 <= j < r.value ==> key != Some(s[j].id)
  {
    if s == [] then None
    else if key == Some(s[0].id) then Some(0)
    else match FindNamed(s[1..], key)
      case None => None
      case Some(k) => Some(k + 1)
  }

  /**
   * `todoToEdit`: `find(todo => todo.id == todoId)`, the first todo the URL
   * names; nothing when storage does not hold an array.
   */
  function TodoToEdit(todos: Stored<Todo>, todoId: string): (r: Option<Todo>)
    ensures r.None? <==> forall i :: 0 <= i < |Safe(todos)| ==> !LooseEquals(Safe(todos)[i].id, todoId)
    ensures r.Some? ==> exists i :: (0 <= i < |Safe(todos)| && Safe(todos)[i] == r.value
      && LooseEquals(r.value.id, todoId) && forall j :: 0 <= j < i ==> !LooseEquals(Safe(todos)[j].id, todoId))
  {
    var s := Safe(todos);
    match FindNamed(s, UrlId(todoId))
    case None => None
    case Some(i) => assert LooseEquals(s[i].id, todoId); Some(s[i])
  }

  /**
   * `updatedTodo`: the form's record under the id `parseInt(todoId)`. Only
   * used where some todo is named, so `todoId` holds a number.
   */
  function UpdatedTodo(todoId: string, f: FormData): Todo
    requires ParseInt(todoId).Some?
  {
    FormRecord(ParseInt(todoId).value, f)
  }

  /**
   * `handleEditTodo`'s update: every todo the URL names is replaced by the
   * same updated record, whose id `parseInt(todoId)` is that todo's own id;
   * every other todo, and the length and order of the list, stay.
   * Non-array storage gives [].
   */
  function EditTodos(current: Stored<Todo>, todoId: string, f: FormData): (r: seq<Todo>)
    ensures |r| == |Safe(current)|
    ensures forall i :: 0 <= i < |r| && !LooseEquals(Safe(current)[i].id, todoId) ==> r[i] == Safe(current)[i]
    ensures forall i :: 0 <= i < |r| && LooseEquals(Safe(current)[i].id, todoId) ==>
      ParseInt(todoId) == Some(Safe(current)[i].id) && r[i] == UpdatedTodo(todoId, f)
    ensures current.NonArray? ==> r == []
  {
    var key := UrlId(todoId);
    if key.Some? then
      LooseNumberParses(todoId);
      ReplaceById(Safe(current), key.value, UpdatedTodo(todoId, f))
    else Safe(current)
  }

  /** `map(todo => todo.id == key ? updated : todo)` once the URL's text is read as a number. */
  function ReplaceById(s: seq<Todo>, key: int, updated: Todo): (r: seq<Todo>)
    ensures |r| == |s|
    ensures forall i :: 0 <= i < |s| ==> r[i] == if s[i].id == key then updated else s[i]
  {
    seq(|s|, i requires 0 <= i < |s| => if s[i].id == key then updated else s[i])
  }

  /** Editing keeps every todo's id. */
  lemma EditKeepsIds(current: Stored<Todo>, todoId: string, f: FormData)
    ensures forall i :: 0 <= i < |Safe(current)| ==> EditTodos(current, todoId, f)[i].id == Safe(current)[i].id
  {
  }

  /** Editing with the same form twice is editing once. */
  lemma EditIdempotent(current: Stored<Todo>, todoId: string, f: FormData)
    ensures EditTodos(Arr(EditTodos(current, todoId, f)), todoId, f) == EditTodos(current, todoId, f)
  {
    var r := EditTodos(current, todoId, f);
    var r2 := EditTodos(Arr(r), todoId, f);
    EditKeepsIds(current, todoId, f);
    forall i | 0 <= i < |r| ensures r2[i] == r[i] {
      assert r[i].id == Safe(current)[i].id;
    }
  }

  /** The text of a fresh id names none of the todos that do not carry it. */
  lemma FreshIdUnnamed(s: seq<Todo>, id: int)
    requires forall t | t in s :: t.id != id
    ensures forall i :: 0 <= i < |s| ==> !LooseEquals(s[i].id, IntToString(id))
    ensures LooseEquals(id, IntToString(id)) && ParseInt(IntToString(id)) == Some(id)
  {
    forall i | 0 <= i < |s| ensures !LooseEquals(s[i].id, IntToString(id)) {
      assert s[i] in s;
      LooseEqualsIntToString(s[i].id, id);
    }
    LooseEqualsIntToString(id, id);
    ParseIntOfIntToString(id);
  }

  /** A todo added under a fresh id is the one the edit page opens for that id. */
  lemma AddThenFind(prev: Stored<Todo>, id: int, f: FormData)
    requires forall t | t in Safe(prev) :: t.id != id
    ensures TodoToEdit(Arr(AddTodos(prev, id, f)), IntToString(id)) == Some(FormRecord(id, f))
  {
    var s := Safe(prev);
    var added := AddTodos(prev, id, f);
    LooseEqualsIntToString(id, id);
    assert UrlId(IntToString(id)) == Some(id);
    assert forall i :: 0 <= i < |s| ==> added[i] == s[i] && s[i] in s;
    var r := FindNamed(added, Some(id));
    assert r == Some(|s|) by {
      assert added[|s|].id == id;
      assert !(r.value < |s|);
    }
  }

  /** Editing a todo added under a fresh id replaces that record and leaves the rest of the list alone. */
  lemma AddThenEdit(prev: Stored<Todo>, id: int, f: FormData, g: FormData)
    requires forall t | t in Safe(prev) :: t.id != id
    ensures EditTodos(Arr(AddTodos(prev, id, f)), IntToString(id), g) == Safe(prev) + [FormRecord(id, g)]
  {
    var s := Safe(prev);
    var added := AddTodos(prev, id, f);
    var edited := EditTodos(Arr(added), IntToString(id), g);
    FreshIdUnnamed(s, id);
    assert added[|s|].id == id;
    forall i | 0 <= i < |s| ensures edited[i] == s[i] {
      assert added[i] == s[i];
    }
    assert edited[|s|] == FormRecord(id, g);
    assert edited == s + [FormRecord(id, g)];
  }

  /** Deleting a todo added under a fresh id gives back the list it was added to. */
  lemma AddThenDelete(prev: Stored<Todo>, id: int, f: FormData)
    requires forall t | t in Safe(prev) :: t.id != id
    ensures DeleteTodo(AddTodos(prev, id, f), id) == Safe(prev)
  {
    var s := Safe(prev);
    assert AddTodos(prev, id, f) == s + [FormRecord(id, f)];
    DeleteTodoSpec(s, [FormRecord(id, f)], id);
    DeleteTodoSpec([FormRecord(id, f)], [], id);
    assert DeleteTodo([FormRecord(id, f)], id) == [];
  }
}
