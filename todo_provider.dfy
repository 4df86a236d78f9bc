/** The state holder of src/contexts/TodoContext.tsx: `TodoProvider` keeps the
    list and `storageError`, and its effect saves the list after every change
    and turns the result into the error notice, arming a five-second
    `setTimeout` on each failure.

    Time is an integer clock in milliseconds advanced by the caller; a timer is
    a pending deadline. The id from `uuidv4()`, and what each storage write
    does, are parameters of the operations. */
module Provider {
  import opened Runtime
  import opened Todos
  import opened Persistence

  /** The one message `storageError` is ever set to. */
  const QuotaMessage: string := "Storage quota exceeded – your latest changes may not be saved."

  /** The delay of the `setTimeout` that clears the message. */
  const ClearDelay: int := 5000

  /** The error notice: the `storageError` state and the deadlines of the
      clearing timers armed and not yet fired, in the order they were armed. */
  datatype Notice = Notice(error: Option<string>, pending: seq<int>)

  /** The notice only ever shows nothing or the quota message. */
  predicate WellFormed(n: Notice) {
    n.error == None || n.error == Some(QuotaMessage)
  }

  /** The effect's reaction to one save result at time `now`: a failure, of
      whatever kind, shows the quota message and arms one more timer; a
      success clears a shown message and leaves the timers armed. */
  function AfterSave(n: Notice, ok: bool, now: int): (r: Notice)
    ensures !ok ==> r.error == Some(QuotaMessage) && r.pending == n.pending + [now + ClearDelay]
    ensures ok ==> r.error == None && r.pending == n.pending
    ensures WellFormed(r)
  {
    if !ok then Notice(Some(QuotaMessage), n.pending + [now + ClearDelay])
    else if n.error.Some? then Notice(None, n.pending)
    else n
  }

  /** Whether some armed timer is due by time `t`. */
  function AnyDue(pending: seq<int>, t: int): (r: bool)
    ensures r <==> exists i :: 0 <= i < |pending| && pending[i] <= t
  {
    if pending == [] then false
    else if pending[0] <= t then true
    else
      assert forall i :: 1 <= i < |pending| ==> pending[i] == pending[1..][i - 1];
      AnyDue(pending[1..], t)
  }

  /** The armed timers still waiting at time `t`, in arming order. */
  function StillPending(pending: seq<int>, t: int): (r: seq<int>)
    ensures forall d :: d in r <==> d in pending && d > t
    ensures |r| <= |pending|
  {
    if pending == [] then []
    else (if pending[0] <= t then [] else [pending[0]]) + StillPending(pending[1..], t)
  }

  /** `StillPending` is a filter: it distributes over concatenation, so the
      timers left keep the order in which they were armed. */
  lemma {:induction false} StillPendingAppend(a: seq<int>, b: seq<int>, t: int)
    ensures StillPending(a + b, t) == StillPending(a, t) + StillPending(b, t)
  {
    if a != [] {
      var head := if a[0] <= t then [] else [a[0]];
      assert (a + b)[0] == a[0] && (a + b)[1..] == a[1..] + b;
      StillPendingAppend(a[1..], b, t);
      assert head + (StillPending(a[1..], t) + StillPending(b, t))
          == (head + StillPending(a[1..], t)) + StillPending(b, t);
    } else {
      assert a + b == b;
    }
  }

  /** Time passing up to `t`: every timer due by then fires, and each firing
      sets `storageError` to null. */
  function Elapse(n: Notice, t: int): (r: Notice)
    ensures AnyDue(n.pending, t) ==> r.error == None
    ensures !AnyDue(n.pending, t) ==> r.error == n.error
    ensures forall d :: d in r.pending <==> d in n.pending && d > t
    ensures WellFormed(n) ==> WellFormed(r)
  {
    Notice(if AnyDue(n.pending, t) then None else n.error, StillPending(n.pending, t))
  }

  /** A failed save's message is gone once its delay has elapsed. */
  lemma ClearedAfterDelay(n: Notice, now: int, t: int)
    requires t >= now + ClearDelay
    ensures Elapse(AfterSave(n, false, now), t).error == None
  {
    var p := AfterSave(n, false, now).pending;
    assert p[|p| - 1] == now + ClearDelay;
  }

  /** Before the delay has elapsed, the message stays, unless an earlier timer
      is due. */
  lemma ShownUntilDelay(n: Notice, now: int, t: int)
    requires t < now + ClearDelay
    requires forall i :: 0 <= i < |n.pending| ==> n.pending[i] > t
    ensures Elapse(AfterSave(n, false, now), t).error == Some(QuotaMessage)
  {
  }

  /** Timers are never cancelled: the timer of an earlier failure clears the
      message of a later one before that one's own delay has elapsed, and the
      later timer is still armed after. */
  lemma StaleTimerClearsNewerError(n: Notice, first: int, second: int)
    requires first < second < first + ClearDelay
    ensures var later := AfterSave(AfterSave(n, false, first), false, second);
            && later.error == Some(QuotaMessage)
            && Elapse(later, first + ClearDelay).error == None
            && second + ClearDelay in Elapse(later, first + ClearDelay).pending
  {
    var later := AfterSave(AfterSave(n, false, first), false, second);
    assert later.pending[|n.pending|] == first + ClearDelay;
    assert later.pending[|later.pending| - 1] == second + ClearDelay;
  }

  /** A success after a failure clears the message at once; no time passes. */
  lemma SuccessClearsAtOnce(n: Notice, first: int, second: int)
    ensures AfterSave(AfterSave(n, false, first), true, second).error == None
    ensures AfterSave(AfterSave(n, false, first), true, second).pending == n.pending + [first + ClearDelay]
  {
  }

  /** The provider. `saves` records the list handed to each `saveTodos` call,
      so that a caller can count persistence attempts. */
  class TodoProvider {
    var todos: seq<Todo>
    var storageError: Option<string>
    var pending: seq<int>
    var clock: int
    const storage: Store
    const builtins: Builtins
    ghost var saves: seq<seq<Todo>>

    function CurrentNotice(): Notice
      reads this
    {
      Notice(storageError, pending)
    }

    /** The effect has run once more, from the storage content `items0`, the
        notice `notice0` and the save record `saves0`, with the write outcome
        `outcome`, on the current list. */
    ghost predicate SavedFrom(items0: map<string, string>, notice0: Notice, saves0: seq<seq<Todo>>,
                              outcome: WriteOutcome)
      reads this, storage
    {
      var s := Save(items0, todos, outcome, builtins);
      && storage.items == s.items
      && CurrentNotice() == AfterSave(notice0, s.ok, clock)
      && saves == saves0 + [todos]
    }

    /** Mounting: the list is hydrated once by `loadTodos`, the notice starts
        clear, and the effect then runs on the loaded list. */
    constructor (storage: Store, builtins: Builtins, now: int, outcome: WriteOutcome)
      modifies storage
      ensures this.storage == storage && this.builtins == builtins && clock == now
      ensures todos == Load(old(storage.items), builtins).todos
      ensures SavedFrom(Load(old(storage.items), builtins).items, Notice(None, []), [], outcome)
    {
      this.storage := storage;
      this.builtins := builtins;
      clock := now;
      storageError := None;
      pending := [];
      saves := [];
      var loaded, _ := LoadTodos(storage, builtins);
      todos := loaded;
      new;
      Persist(outcome);
    }

    /** The effect body: save the current list and set or clear the notice. */
    method Persist(outcome: WriteOutcome)
      modifies this, storage
      ensures todos == old(todos) && clock == old(clock)
      ensures SavedFrom(old(storage.items), old(CurrentNotice()), old(saves), outcome)
    {
      var ok, _ := SaveTodos(storage, todos, outcome, builtins);
      saves := saves + [todos];
      if !ok {
        storageError := Some(QuotaMessage);
        pending := pending + [clock + ClearDelay];
      } else if storageError.Some? {
        storageError := None;
      }
    }

    /** `addTodo`, with `id` the fresh value of `uuidv4()` and the clock as
        `new Date()`. */
    method AddTodo(title: string, description: string, id: string, outcome: WriteOutcome)
      requires !HasId(todos, id)
      modifies this, storage
      ensures todos == Todos.AddTodo(old(todos), id, title, description, old(clock)) && clock == old(clock)
      ensures SavedFrom(old(storage.items), old(CurrentNotice()), old(saves), outcome)
    {
      todos := Todos.AddTodo(todos, id, title, description, clock);
      Persist(outcome);
    }

    /** `editTodo`. */
    method EditTodo(id: string, updates: Patch, outcome: WriteOutcome)
      modifies this, storage
      ensures todos == Todos.EditTodo(old(todos), id, updates) && clock == old(clock)
      ensures SavedFrom(old(storage.items), old(CurrentNotice()), old(saves), outcome)
    {
      todos := Todos.EditTodo(todos, id, updates);
      Persist(outcome);
    }

    /** `toggleTodoCompletion`. */
    method ToggleTodoCompletion(id: string, outcome: WriteOutcome)
      modifies this, storage
      ensures todos == Todos.ToggleTodoCompletion(old(todos), id) && clock == old(clock)
      ensures SavedFrom(old(storage.items), old(CurrentNotice()), old(saves), outcome)
    {
      todos := Todos.ToggleTodoCompletion(todos, id);
      Persist(outcome);
    }

    /** `deleteTodo`. */
    method DeleteTodo(id: string, outcome: WriteOutcome)
      modifies this, storage
      ensures todos == Todos.DeleteTodo(old(todos), id) && clock == old(clock)
      ensures SavedFrom(old(storage.items), old(CurrentNotice()), old(saves), outcome)
    {
      todos := Todos.DeleteTodo(todos, id);
      Persist(outcome);
    }

    /** Time passes up to `t`; the timers due by then fire. */
    method AdvanceTime(t: int)
      requires clock <= t
      modifies this
      ensures clock == t && todos == old(todos) && saves == old(saves)
      ensures CurrentNotice() == Elapse(old(CurrentNotice()), t)
    {
      storageError := if AnyDue(pending, t) then None else storageError;
      pending := StillPending(pending, t);
      clock := t;
    }
  }

  // ------------------------------------------------------------- scenarios

  /** Mounting on empty storage: the list is empty and one save has run. A
      working write clears the notice and stores the empty list; a failing one
      shows the quota message, arms a timer and leaves storage empty. */
  method MountOnEmptyStorage(b: Builtins, now: int, outcome: WriteOutcome) returns (p: TodoProvider)
    ensures fresh(p) && fresh(p.storage) && p.builtins == b && p.clock == now
    ensures p.todos == [] && |p.saves| == 1
    ensures outcome == WriteOk ==>
              p.storageError == None && p.pending == [] && p.storage.items == map[StorageKey := Encoded([], b)]
    ensures outcome != WriteOk ==>
              p.storageError == Some(QuotaMessage) && p.pending == [now + ClearDelay] && p.storage.items == map[]
  {
    var store := new Store(map[]);
    p := new TodoProvider(store, b, now, outcome);
  }

  /** From empty storage: add "Buy milk", toggle it, delete it. The item
      starts pending, becomes completed and is then gone; each mutation makes
      one save attempt after the one made on mounting, and storage ends up
      holding the empty list. */
  method AddToggleDelete(b: Builtins, id: string, now: int)
    returns (added: seq<Todo>, toggled: seq<Todo>, deleted: seq<Todo>, stored: Option<string>, ghost attempts: nat)
    ensures added == [Todo(id, "Buy milk", "2%", false, At(now))]
    ensures toggled == [Todo(id, "Buy milk", "2%", true, At(now))]
    ensures deleted == []
    ensures stored == Some(Encoded([], b))
    ensures attempts == 4
  {
    var p := MountOnEmptyStorage(b, now, WriteOk);
    p.AddTodo("Buy milk", "2%", id, WriteOk);
    added := p.todos;
    p.ToggleTodoCompletion(id, WriteOk);
    toggled := p.todos;
    assert toggled[0] == Flip(added[0]);
    p.DeleteTodo(id, WriteOk);
    deleted := p.todos;
    stored := p.storage.GetItem(StorageKey);
    attempts := |p.saves|;
  }

  /** Every save fails with the quota error, the one on mounting included:
      the list keeps the new item anyway, the message shows, and it is gone
      once the delay has elapsed. */
  method QuotaThenTimeout(b: Builtins, id: string, now: int)
    returns (count: nat, shown: Option<string>, stillShown: Option<string>, after: Option<string>)
    ensures count == 1
    ensures shown == Some(QuotaMessage)
    ensures stillShown == Some(QuotaMessage)
    ensures after == None
  {
    var p := MountOnEmptyStorage(b, now, Quota);
    p.AddTodo("Test Todo", "Test description", id, Quota);
    count := |p.todos|;
    shown := p.storageError;
    p.AdvanceTime(now + ClearDelay - 1);
    stillShown := p.storageError;
    p.AdvanceTime(now + ClearDelay);
    after := p.storageError;
  }

  /** One failing save followed by a successful one: the second clears the
      message at once, without waiting for the timer. */
  method FailureThenSuccess(b: Builtins, first: string, second: string, now: int)
    returns (shown: Option<string>, after: Option<string>, count: nat)
    requires first != second
    ensures shown == Some(QuotaMessage)
    ensures after == None
    ensures count == 2
  {
    var p := MountOnEmptyStorage(b, now, WriteOk);
    p.AddTodo("Test Todo", "Test description", first, Other);
    shown := p.storageError;
    p.AddTodo("Test Todo", "Test description", second, WriteOk);
    after := p.storageError;
    count := |p.todos|;
  }
}
