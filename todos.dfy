/** The todo item and the four list transformations of the todo context
    (src/contexts/TodoContext.tsx, `addTodo`, `editTodo`,
    `toggleTodoCompletion`, `deleteTodo`). Each builds a new list from the
    old one; the provider then stores it. */
module Todos {
  import opened Runtime

  datatype Todo = Todo(
    id: string,
    title: string,
    description: string,
    completed: bool,
    createdAt: Instant)

  /** `Partial<Todo>`: a field that is `Some` is present in the update object. */
  datatype Patch = Patch(
    id: Option<string>,
    title: Option<string>,
    description: Option<string>,
    completed: Option<bool>,
    createdAt: Option<Instant>)

  predicate HasId(todos: seq<Todo>, id: string) {
    exists i :: 0 <= i < |todos| && todos[i].id == id
  }

  ghost predicate UniqueIds(todos: seq<Todo>) {
    forall i, j :: 0 <= i < j < |todos| ==> todos[i].id != todos[j].id
  }

  function Pick<T>(update: Option<T>, current: T): T {
    if update.Some? then update.value else current
  }

  /** The spread `{ ...todo, ...updates }`: a field present in the update
      wins, every other field keeps the item's value. */
  function Merge(t: Todo, u: Patch): (r: Todo)
    ensures u.id.Some? ==> r.id == u.id.value
    ensures u.id.None? ==> r.id == t.id
    ensures u.title.Some? ==> r.title == u.title.value
    ensures u.title.None? ==> r.title == t.title
    ensures u.description.Some? ==> r.description == u.description.value
    ensures u.description.None? ==> r.description == t.description
    ensures u.completed.Some? ==> r.completed == u.completed.value
    ensures u.completed.None? ==> r.completed == t.completed
    ensures u.createdAt.Some? ==> r.createdAt == u.createdAt.value
    ensures u.createdAt.None? ==> r.createdAt == t.createdAt
  {
    Todo(Pick(u.id, t.id), Pick(u.title, t.title), Pick(u.description, t.description),
         Pick(u.completed, t.completed), Pick(u.createdAt, t.createdAt))
  }

  /** `{ ...todo, completed: !todo.completed }`: `completed` is negated and
      every other field is the item's own. */
  function Flip(t: Todo): (r: Todo)
    ensures r.completed != t.completed
    ensures r.(completed := t.completed) == t
  {
    t.(completed := !t.completed)
  }

  // ---------------------------------------------------------------- addTodo

  /** The `newTodo` literal: the given id, title and description, not yet
      completed, stamped with the current instant. */
  function NewTodo(id: string, title: string, description: string, now: int): (r: Todo)
    ensures r.id == id && r.title == title && r.description == description
    ensures !r.completed && r.createdAt == At(now)
  {
    Todo(id, title, description, false, At(now))
  }

  /** `[...todos, newTodo]`. */
  function AddTodo(todos: seq<Todo>, id: string, title: string, description: string, now: int): (r: seq<Todo>)
    ensures |r| == |todos| + 1
    ensures forall i :: 0 <= i < |todos| ==> r[i] == todos[i]
    ensures r[|todos|].id == id && r[|todos|].title == title && r[|todos|].description == description
    ensures !r[|todos|].completed && r[|todos|].createdAt == At(now)
  {
    todos + [NewTodo(id, title, description, now)]
  }

  /** A fresh id keeps the ids of the list unique. */
  lemma AddKeepsUniqueIds(todos: seq<Todo>, id: string, title: string, description: string, now: int)
    requires UniqueIds(todos) && !HasId(todos, id)
    ensures UniqueIds(AddTodo(todos, id, title, description, now))
    ensures HasId(AddTodo(todos, id, title, description, now), id)
  {
  }

  // --------------------------------------------------------------- editTodo

  /** `todos.map(todo => todo.id === id ? { ...todo, ...updates } : todo)`. */
  function EditTodo(todos: seq<Todo>, id: string, u: Patch): (r: seq<Todo>)
    ensures |r| == |todos|
    ensures forall i :: 0 <= i < |todos| && todos[i].id == id ==> r[i] == Merge(todos[i], u)
    ensures forall i :: 0 <= i < |todos| && todos[i].id != id ==> r[i] == todos[i]
  {
    if todos == [] then []
    else [if todos[0].id == id then Merge(todos[0], u) else todos[0]] + EditTodo(todos[1..], id, u)
  }

  /** Editing an id that is not in the list changes nothing. */
  lemma EditAbsentIsNoOp(todos: seq<Todo>, id: string, u: Patch)
    requires !HasId(todos, id)
    ensures EditTodo(todos, id, u) == todos
  {
  }

  /** An update that does not touch `id` keeps the ids where they were. */
  lemma EditKeepsIds(todos: seq<Todo>, id: string, u: Patch)
    requires u.id.None?
    ensures forall i :: 0 <= i < |todos| ==> EditTodo(todos, id, u)[i].id == todos[i].id
    ensures UniqueIds(todos) ==> UniqueIds(EditTodo(todos, id, u))
  {
  }

  /** An update that does set `id` can give two items the same id: the merge
      of `updates` is unguarded. */
  lemma EditCanDuplicateIds(a: Todo, b: Todo)
    requires a.id != b.id
    ensures UniqueIds([a, b])
    ensures !UniqueIds(EditTodo([a, b], a.id, Patch(Some(b.id), None, None, None, None)))
  {
  }

  // --------------------------------------------------- toggleTodoCompletion

  /** `todos.map(todo => todo.id === id ? { ...todo, completed: !todo.completed } : todo)`. */
  function ToggleTodoCompletion(todos: seq<Todo>, id: string): (r: seq<Todo>)
    ensures |r| == |todos|
    ensures forall i :: 0 <= i < |todos| && todos[i].id == id ==> r[i] == Flip(todos[i])
    ensures forall i :: 0 <= i < |todos| && todos[i].id != id ==> r[i] == todos[i]
  {
    if todos == [] then []
    else [if todos[0].id == id then Flip(todos[0]) else todos[0]] + ToggleTodoCompletion(todos[1..], id)
  }

  /** Toggling the same id twice gives back the original list. */
  lemma ToggleTwice(todos: seq<Todo>, id: string)
    ensures ToggleTodoCompletion(ToggleTodoCompletion(todos, id), id) == todos
  {
  }

  /** Toggling changes `completed` and nothing else, so ids are kept. */
  lemma ToggleKeepsIds(todos: seq<Todo>, id: string)
    ensures forall i :: 0 <= i < |todos| ==> ToggleTodoCompletion(todos, id)[i].id == todos[i].id
    ensures UniqueIds(todos) ==> UniqueIds(ToggleTodoCompletion(todos, id))
  {
  }

  // ------------------------------------------------------------- deleteTodo

  /** `todos.filter(todo => todo.id !== id)`. */
  function DeleteTodo(todos: seq<Todo>, id: string): (r: seq<Todo>)
    ensures |r| <= |todos|
    ensures forall t :: t in r <==> t in todos && t.id != id
    ensures !HasId(todos, id) ==> r == todos
    ensures HasId(todos, id) ==> |r| < |todos|
  {
    if todos == [] then []
    else
      var rest := DeleteTodo(todos[1..], id);
      assert forall j :: 0 < j < |todos| ==> todos[j] == todos[1..][j - 1];
      assert !HasId(todos, id) ==> !HasId(todos[1..], id);
      if todos[0].id == id then rest else [todos[0]] + rest
  }

  /** Filtering distributes over concatenation: the items that remain keep
      their relative order. */
  lemma {:induction false} DeleteAppend(a: seq<Todo>, b: seq<Todo>, id: string)
    ensures DeleteTodo(a + b, id) == DeleteTodo(a, id) + DeleteTodo(b, id)
  {
    if a != [] {
      var head := if a[0].id == id then [] else [a[0]];
      assert (a + b)[0] == a[0] && (a + b)[1..] == a[1..] + b;
      assert DeleteTodo(a + b, id) == head + DeleteTodo(a[1..] + b, id);
      assert DeleteTodo(a, id) == head + DeleteTodo(a[1..], id);
      DeleteAppend(a[1..], b, id);
      assert head + (DeleteTodo(a[1..], id) + DeleteTodo(b, id)) == (head + DeleteTodo(a[1..], id)) + DeleteTodo(b, id);
    } else {
      assert a + b == b;
    }
  }

  /** Unique ids stay unique in the tail, and the head's id is not there. */
  lemma UniqueTail(todos: seq<Todo>)
    requires UniqueIds(todos) && todos != []
    ensures UniqueIds(todos[1..]) && !HasId(todos[1..], todos[0].id)
  {
  }

  /** When ids are unique, deleting the id of item `k` removes exactly that
      item. */
  lemma {:induction false} DeleteUnique(todos: seq<Todo>, k: int)
    requires UniqueIds(todos) && 0 <= k < |todos|
    ensures DeleteTodo(todos, todos[k].id) == todos[..k] + todos[k + 1..]
  {
    var tail := todos[1..];
    UniqueTail(todos);
    if k == 0 {
      assert todos[k + 1..] == tail;
    } else {
      assert todos[0].id != todos[k].id;
      assert tail[k - 1] == todos[k];
      DeleteUnique(tail, k - 1);
      assert todos[..k] == [todos[0]] + tail[..k - 1];
      assert todos[k + 1..] == tail[k..];
    }
  }
}
