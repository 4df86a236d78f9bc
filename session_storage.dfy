/** The persistence gate of src/utils/sessionStorage.ts: the structural check
    `isValidTodos`, the conversions between `Todo` and its stored record, and
    `loadTodos` / `saveTodos` against the tab's session storage.

    Storage is a `map<string, string>` held by a `Store` object. Whether a write
    succeeds is not decided by the model: `setItem` is handed a `WriteOutcome`.
    `Load` and `Save` are the functions that say what the two methods do. */
module Persistence {
  import opened Runtime
  import opened Todos

  /** `STORAGE_KEY`. */
  const StorageKey: string := "todos"

  // ------------------------------------------------------------- validation

  /** The test applied to each element by `isValidTodos`: an object (not
      `null`, and not an array, which has none of these properties) whose own
      properties `id`, `title`, `description` and `createdAt` are strings and
      `completed` a boolean. */
  function IsTodoRecord(item: Value): (r: bool)
    ensures r <==> && item.JObj?
                   && "id" in item.fields && item.fields["id"].JStr?
                   && "title" in item.fields && item.fields["title"].JStr?
                   && "description" in item.fields && item.fields["description"].JStr?
                   && "completed" in item.fields && item.fields["completed"].JBool?
                   && "createdAt" in item.fields && item.fields["createdAt"].JStr?
  {
    && IsObjectType(item)
    && item != JNull
    && Prop(item, "id").JStr?
    && Prop(item, "title").JStr?
    && Prop(item, "description").JStr?
    && Prop(item, "completed").JBool?
    && Prop(item, "createdAt").JStr?
  }

  /** `items.every(IsTodoRecord)`. */
  function AllTodoRecords(items: seq<Value>): (r: bool)
    ensures r <==> forall i :: 0 <= i < |items| ==> IsTodoRecord(items[i])
  {
    if items == [] then true else IsTodoRecord(items[0]) && AllTodoRecords(items[1..])
  }

  /** `isValidTodos`: an array all of whose elements are todo records. */
  function IsValidTodos(data: Value): (r: bool)
    ensures r ==> data.JArr?
    ensures data.JArr? ==> (r <==> forall i :: 0 <= i < |data.elems| ==> IsTodoRecord(data.elems[i]))
  {
    data.JArr? && AllTodoRecords(data.elems)
  }

  /** A single bad element rejects the whole array, wherever it stands. */
  lemma {:induction false} OneBadElementRejects(prefix: seq<Value>, bad: Value, suffix: seq<Value>)
    requires !IsTodoRecord(bad)
    ensures !IsValidTodos(JArr(prefix + [bad] + suffix))
  {
    assert (prefix + [bad] + suffix)[|prefix|] == bad;
  }

  /** Validity of a concatenation is validity of both parts: nothing is
      accepted piecewise. */
  lemma {:induction false} ValidConcat(a: seq<Value>, b: seq<Value>)
    ensures IsValidTodos(JArr(a + b)) <==> IsValidTodos(JArr(a)) && IsValidTodos(JArr(b))
  {
    if IsValidTodos(JArr(a)) && IsValidTodos(JArr(b)) {
      forall i | 0 <= i < |a + b| ensures IsTodoRecord((a + b)[i]) {
        if i < |a| { assert (a + b)[i] == a[i]; } else { assert (a + b)[i] == b[i - |a|]; }
      }
    }
    if IsValidTodos(JArr(a + b)) {
      forall i | 0 <= i < |a| ensures IsTodoRecord(a[i]) { assert (a + b)[i] == a[i]; }
      forall i | 0 <= i < |b| ensures IsTodoRecord(b[i]) { assert (a + b)[|a| + i] == b[i]; }
    }
  }

  /** The cases of the validation tests: every non-array is rejected, the
      empty array is accepted, and a record with a numeric `id` or a missing
      field is rejected. */
  lemma ValidationExamples(rec: map<string, Value>)
    requires rec == map["id" := JStr("test"), "title" := JStr("test"), "description" := JStr("test"),
                        "completed" := JBool(false), "createdAt" := JStr("2023-01-01")]
    ensures !IsValidTodos(JObj(map[])) && !IsValidTodos(JStr("string"))
    ensures !IsValidTodos(JNull) && !IsValidTodos(JUndefined)
    ensures IsValidTodos(JArr([])) && IsValidTodos(JArr([JObj(rec)]))
    ensures !IsValidTodos(JArr([JObj(rec["id" := JNum(1.0)])]))
    ensures forall k :: k in rec ==> !IsValidTodos(JArr([JObj(rec - {k})]))
  {
  }

  // ---------------------------------------------------------- conversions

  /** `{ ...todo, createdAt: new Date(todo.createdAt) }` for a checked record. */
  function ToTodo(item: Value, b: Builtins): (r: Todo)
    requires IsTodoRecord(item)
    ensures JStr(r.id) == item.fields["id"] && JStr(r.title) == item.fields["title"]
    ensures JStr(r.description) == item.fields["description"]
    ensures JBool(r.completed) == item.fields["completed"]
    ensures r.createdAt == b.fromIso(item.fields["createdAt"].s)
  {
    Todo(Prop(item, "id").s, Prop(item, "title").s, Prop(item, "description").s,
         Prop(item, "completed").b, b.fromIso(Prop(item, "createdAt").s))
  }

  /** `parsedData.map(...)`, the rehydration of a validated array. */
  function Rehydrate(items: seq<Value>, b: Builtins): (r: seq<Todo>)
    requires AllTodoRecords(items)
    ensures |r| == |items|
    ensures forall i :: 0 <= i < |items| ==> r[i] == ToTodo(items[i], b)
  {
    if items == [] then [] else [ToTodo(items[0], b)] + Rehydrate(items[1..], b)
  }

  /** `{ ...todo, createdAt: iso }`: a record with exactly the five fields of
      a `Todo`, which passes the element check and reads back as the item
      whenever `new Date(iso)` is the item's instant. */
  function ToRecord(t: Todo, iso: string): (r: Value)
    ensures IsTodoRecord(r)
    ensures r.fields.Keys == {"id", "title", "description", "completed", "createdAt"}
    ensures forall b: Builtins :: b.fromIso(iso) == t.createdAt ==> ToTodo(r, b) == t
  {
    JObj(map["id" := JStr(t.id), "title" := JStr(t.title), "description" := JStr(t.description),
             "completed" := JBool(t.completed), "createdAt" := JStr(iso)])
  }

  /** Every `createdAt` is a valid instant, so `toISOString` does not throw. */
  predicate DatesValid(todos: seq<Todo>) {
    forall i :: 0 <= i < |todos| ==> todos[i].createdAt.At?
  }

  /** `todos.map(todo => ({ ...todo, createdAt: todo.createdAt.toISOString() }))`;
      `None` when some `toISOString` throws a RangeError (an Invalid Date). */
  function Serialize(todos: seq<Todo>, b: Builtins): (r: Option<seq<Value>>)
    ensures r.Some? <==> DatesValid(todos)
    ensures r.Some? ==> |r.value| == |todos|
    ensures r.Some? ==> forall i :: 0 <= i < |todos| ==>
              r.value[i] == ToRecord(todos[i], b.toIso(todos[i].createdAt.ms))
  {
    if todos == [] then Some([])
    else if todos[0].createdAt.InvalidDate? then None
    else match Serialize(todos[1..], b)
      case None =>
        assert !DatesValid(todos) by {
          var j :| 0 <= j < |todos[1..]| && !todos[1..][j].createdAt.At?;
          assert todos[1..][j] == todos[j + 1];
        }
        None
      case Some(rest) =>
        assert forall j :: 1 <= j < |todos| ==> todos[j] == todos[1..][j - 1];
        Some([ToRecord(todos[0], b.toIso(todos[0].createdAt.ms))] + rest)
  }

  /** The text `saveTodos` writes: `JSON.stringify(serializedTodos)`. */
  function Encoded(todos: seq<Todo>, b: Builtins): string
    requires DatesValid(todos)
  {
    b.stringify(JArr(Serialize(todos, b).value))
  }

  /** One item's record passes the element check, is plain JSON, and reads
      back as the item. */
  lemma RecordRoundTrip(t: Todo, b: Builtins)
    requires Lawful(b) && t.createdAt.At?
    ensures IsTodoRecord(ToRecord(t, b.toIso(t.createdAt.ms)))
    ensures Plain(ToRecord(t, b.toIso(t.createdAt.ms)))
    ensures ToTodo(ToRecord(t, b.toIso(t.createdAt.ms)), b) == t
  {
  }

  /** A serialised list is a valid todos array, and it rehydrates to the list
      it came from. */
  lemma RehydrateSerialize(todos: seq<Todo>, b: Builtins)
    requires Lawful(b) && DatesValid(todos)
    ensures IsValidTodos(JArr(Serialize(todos, b).value))
    ensures Plain(JArr(Serialize(todos, b).value))
    ensures Rehydrate(Serialize(todos, b).value, b) == todos
  {
    var recs := Serialize(todos, b).value;
    forall i | 0 <= i < |todos|
      ensures IsTodoRecord(recs[i]) && Plain(recs[i]) && ToTodo(recs[i], b) == todos[i]
    {
      RecordRoundTrip(todos[i], b);
    }
    assert AllTodoRecords(recs);
    var back := Rehydrate(recs, b);
    assert |back| == |todos|;
    assert forall i :: 0 <= i < |todos| ==> back[i] == todos[i];
  }

  // ------------------------------------------------------------------ load

  /** The log line `loadTodos` writes, if any. */
  datatype LoadLog = Silent | InvalidDataWarning | ParseFailureWarning

  datatype Loaded = Loaded(todos: seq<Todo>, items: map<string, string>, log: LoadLog)

  /** What `loadTodos` returns and leaves in storage, given what storage held. */
  function Load(items: map<string, string>, b: Builtins): (r: Loaded)
    ensures StorageKey !in items || items[StorageKey] == "" ==> r == Loaded([], items, Silent)
    ensures r.log == Silent ==> r.items == items
    ensures r.log != Silent ==> r.todos == [] && r.items == items - {StorageKey} && StorageKey in items
    ensures r.log == ParseFailureWarning <==>
              StorageKey in items && items[StorageKey] != "" && b.parse(items[StorageKey]).None?
    ensures r.log == InvalidDataWarning <==>
              StorageKey in items && items[StorageKey] != "" && b.parse(items[StorageKey]).Some? &&
              !IsValidTodos(b.parse(items[StorageKey]).value)
    ensures r.log == Silent && StorageKey in items && items[StorageKey] != "" ==>
              b.parse(items[StorageKey]).Some? &&
              IsValidTodos(b.parse(items[StorageKey]).value) &&
              r.todos == Rehydrate(b.parse(items[StorageKey]).value.elems, b)
  {
    if StorageKey !in items || items[StorageKey] == "" then Loaded([], items, Silent)
    else match b.parse(items[StorageKey])
      case None => Loaded([], items - {StorageKey}, ParseFailureWarning)
      case Some(data) =>
        if IsValidTodos(data) then Loaded(Rehydrate(data.elems, b), items, Silent)
        else Loaded([], items - {StorageKey}, InvalidDataWarning)
  }

  /** On valid stored data the loaded list has the stored records' length and
      order, and each item carries the record's fields with `createdAt` read
      back by `new Date`. */
  lemma LoadValid(items: map<string, string>, b: Builtins, data: Value)
    requires StorageKey in items && items[StorageKey] != ""
    requires b.parse(items[StorageKey]) == Some(data) && IsValidTodos(data)
    ensures Load(items, b).log == Silent && Load(items, b).items == items
    ensures |Load(items, b).todos| == |data.elems|
    ensures forall i :: 0 <= i < |data.elems| ==>
              var t, rec := Load(items, b).todos[i], data.elems[i];
              && JStr(t.id) == Prop(rec, "id") && JStr(t.title) == Prop(rec, "title")
              && JStr(t.description) == Prop(rec, "description")
              && JBool(t.completed) == Prop(rec, "completed")
              && t.createdAt == b.fromIso(Prop(rec, "createdAt").s)
  {
  }

  /** Loading twice gives the first load's list, and the second load neither
      writes nor logs: corrupt data is purged once and for all. */
  lemma LoadTwice(items: map<string, string>, b: Builtins)
    ensures Load(Load(items, b).items, b) == Loaded(Load(items, b).todos, Load(items, b).items, Silent)
  {
  }

  // ------------------------------------------------------------------ save

  /** What `sessionStorage.setItem` does this time: store the text, or throw a
      `DOMException` named `QuotaExceededError`, or throw anything else. */
  datatype WriteOutcome = WriteOk | Quota | Other

  /** The log line `saveTodos` writes, if any: the quota `console.warn`, or
      the `console.error` with the cause. */
  datatype SaveLog = NoSaveLog | QuotaWarning | SaveError

  datatype Saved = Saved(ok: bool, items: map<string, string>, log: SaveLog)

  /** What `saveTodos` returns, leaves in storage and logs. */
  function Save(items: map<string, string>, todos: seq<Todo>, outcome: WriteOutcome, b: Builtins): (r: Saved)
    ensures r.ok <==> outcome == WriteOk && DatesValid(todos)
    ensures r.ok ==> r.items == items[StorageKey := Encoded(todos, b)] && r.log == NoSaveLog
    ensures !r.ok ==> r.items == items
    ensures r.log == QuotaWarning <==> outcome == Quota && DatesValid(todos)
    ensures r.log == SaveError <==> outcome == Other || !DatesValid(todos)
  {
    match Serialize(todos, b)
    case None => Saved(false, items, SaveError)
    case Some(recs) =>
      match outcome
      case WriteOk => Saved(true, items[StorageKey := b.stringify(JArr(recs))], NoSaveLog)
      case Quota => Saved(false, items, QuotaWarning)
      case Other => Saved(false, items, SaveError)
  }

  /** Round trip: after a successful save of a list, loading gives that list
      back, without a log line and without touching storage. */
  lemma SaveThenLoad(items: map<string, string>, todos: seq<Todo>, b: Builtins)
    requires Lawful(b) && Save(items, todos, WriteOk, b).ok
    ensures Load(Save(items, todos, WriteOk, b).items, b) ==
            Loaded(todos, Save(items, todos, WriteOk, b).items, Silent)
  {
    var recs := Serialize(todos, b).value;
    RehydrateSerialize(todos, b);
    StringifyNonEmpty(b, JArr(recs));
    var stored := Save(items, todos, WriteOk, b).items;
    assert stored[StorageKey] == b.stringify(JArr(recs));
    assert b.parse(stored[StorageKey]) == Some(JArr(recs));
  }

  /** Saving the same list twice leaves storage as saving it once did. */
  lemma SaveTwice(items: map<string, string>, todos: seq<Todo>, outcome: WriteOutcome, b: Builtins)
    ensures Save(Save(items, todos, outcome, b).items, todos, outcome, b) == Save(items, todos, outcome, b)
  {
  }

  /** A stored record whose `createdAt` string is not a readable date passes
      validation, is loaded as an Invalid Date, and from then on every save of
      the loaded list fails with the generic error, whatever storage does. */
  lemma InvalidDatePoisonsSave(items: map<string, string>, b: Builtins, data: Value, k: int, outcome: WriteOutcome)
    requires StorageKey in items && items[StorageKey] != ""
    requires b.parse(items[StorageKey]) == Some(data) && IsValidTodos(data)
    requires 0 <= k < |data.elems| && b.fromIso(Prop(data.elems[k], "createdAt").s) == InvalidDate
    ensures var loaded := Load(items, b);
            !Save(loaded.items, loaded.todos, outcome, b).ok &&
            Save(loaded.items, loaded.todos, outcome, b).log == SaveError
  {
  }

  // ---------------------------------------------------- the storage object

  /** The tab's `window.sessionStorage`, reduced to a map of strings. */
  class Store {
    var items: map<string, string>

    constructor (initial: map<string, string>)
      ensures items == initial
    {
      items := initial;
    }

    method GetItem(key: string) returns (r: Option<string>)
      ensures key in items ==> r == Some(items[key])
      ensures key !in items ==> r == None
    {
      r := if key in items then Some(items[key]) else None;
    }

    /** A write whose outcome is given: only `WriteOk` changes the map. */
    method SetItem(key: string, value: string, outcome: WriteOutcome) returns (w: WriteOutcome)
      modifies this
      ensures w == outcome
      ensures items == if outcome == WriteOk then old(items)[key := value] else old(items)
    {
      if outcome == WriteOk {
        items := items[key := value];
      }
      w := outcome;
    }

    method RemoveItem(key: string)
      modifies this
      ensures items == old(items) - {key}
    {
      items := items - {key};
    }
  }

  /** `loadTodos`. */
  method LoadTodos(store: Store, b: Builtins) returns (todos: seq<Todo>, log: LoadLog)
    modifies store
    ensures Loaded(todos, store.items, log) == Load(old(store.items), b)
  {
    var stored := store.GetItem(StorageKey);
    if stored.None? || stored.value == "" {
      return [], Silent;
    }
    var parsed := b.parse(stored.value);
    if parsed.None? {
      store.RemoveItem(StorageKey);
      return [], ParseFailureWarning;
    }
    if IsValidTodos(parsed.value) {
      todos, log := Rehydrate(parsed.value.elems, b), Silent;
    } else {
      store.RemoveItem(StorageKey);
      todos, log := [], InvalidDataWarning;
    }
  }

  /** `saveTodos`: the result is `ok`; the kind of failure shows only in `log`. */
  method SaveTodos(store: Store, todos: seq<Todo>, outcome: WriteOutcome, b: Builtins) returns (ok: bool, log: SaveLog)
    modifies store
    ensures Saved(ok, store.items, log) == Save(old(store.items), todos, outcome, b)
  {
    var serialized := Serialize(todos, b);
    if serialized.None? {
      // toISOString threw a RangeError: not a DOMException
      return false, SaveError;
    }
    var w := store.SetItem(StorageKey, b.stringify(JArr(serialized.value)), outcome);
    match w
    case WriteOk => ok, log := true, NoSaveLog;
    case Quota => ok, log := false, QuotaWarning;
    case Other => ok, log := false, SaveError;
  }
}
