# Todo list state and session persistence, in Dafny

This project models the state and persistence core of a single-user todo web
app. A list of todo items lives in memory in a `TodoProvider`. After each
change of the list, the provider saves it to the browser tab's session storage
under the key `"todos"`. When a save fails, a notice is shown for five seconds.
On start-up the list is read back from storage, and corrupt data there is
purged.

Modules, one per source concern:

- `Runtime` (`runtime.dfy`): the host facilities the code leans on. Decoded
  JSON values are the datatype `Value`. A `Date` is an `Instant`: a valid
  millisecond instant, or an Invalid Date. `JSON.parse`, `JSON.stringify`,
  `toISOString` and `new Date(string)` are function values bundled in
  `Builtins`. The one assumption made about them is the round-trip law
  `Lawful`.
- `Todos` (`todos.dfy`): the `Todo` item, `Partial<Todo>` as `Patch`, and
  the four list transformations of `TodoContext.tsx` as pure functions.
- `Persistence` (`session_storage.dfy`): `isValidTodos`, the record
  conversions in both directions, and `loadTodos` / `saveTodos`. The two
  operations are methods on a `Store` object holding a `map<string, string>`.
  The functions `Load` and `Save` state exactly what the methods do.
- `Provider` (`todo_provider.dfy`): the error notice and the class
  `TodoProvider`. The class has the list, `storageError`, the armed clearing
  timers and a clock as fields. A mutation replaces the list and then runs the
  persistence effect. Client methods at the end mount a provider on empty
  storage and replay the scenarios of the context tests; where a scenario differs from a test, its row says how.

What each storage write does is a parameter, a `WriteOutcome`: `WriteOk`,
`Quota` (a `DOMException` named `QuotaExceededError`) or `Other`. The id that
`uuidv4()` would return is also a parameter, with the precondition that it is
not already in the list. The current time is the provider's `clock`, which
only `AdvanceTime` moves forward; `new Date()` reads it.

Decisions the source forces, where another reading would be plausible:

- Timers are never cancelled (`TodoContext.tsx:18`). Each failure arms a
  further timer, and the first timer to fire clears the notice. So the timer of
  an earlier failure can clear the notice of a later one; see
  `StaleTimerClearsNewerError`. A timer restarted on each failure would avoid
  this; the model follows the code.
- Every failed save shows the quota message, generic failures included
  (`TodoContext.tsx:15-16`). One might expect generic failures not to raise a
  notice; the model follows the code.
- A stored `createdAt` that is a string but not a readable date passes
  validation and becomes an Invalid Date. `toISOString()` on an Invalid Date
  throws a `RangeError` inside `saveTodos`'s `try`, so every later save of that
  list fails with the generic error (`InvalidDatePoisonsSave`).
- The effect also runs once on mount, so the constructor saves the freshly
  loaded list.

## Model

| member | source | states |
|---|---|---|
| `Runtime.Prop` | src/utils/sessionStorage.ts:15-19 | a property read yields the object's own field when it has one, and `undefined` for everything else (arrays, primitives, missing keys) |
| `Runtime.IsObjectType` | src/utils/sessionStorage.ts:13 | `typeof item === 'object'`: true of arrays, objects and `null`, false of strings, booleans, numbers and `undefined` |
| `Runtime.StringifyNonEmpty` | src/utils/sessionStorage.ts:30-32 | under the round-trip law, the text written for a plain JSON value is never empty, so the text `saveTodos` writes never takes the `!storedData` branch |
| `Todos.Merge` | src/contexts/TodoContext.tsx:36 | in `{ ...todo, ...updates }` each field present in the update wins and each absent field keeps the item's value |
| `Todos.Flip` | src/contexts/TodoContext.tsx:40 | `completed` is negated and every other field is the item's own |
| `Todos.NewTodo` | src/contexts/TodoContext.tsx:25-31 | the new item has the given id, title and description, is not completed, and is stamped with the current instant |
| `Todos.AddTodo` | src/contexts/TodoContext.tsx:24-33 | the list grows by one, earlier items are unchanged, and the new last item has the given id, title and description, `completed = false`, and the current instant |
| `Todos.AddKeepsUniqueIds` | src/contexts/TodoContext.tsx:24-33 | adding with a fresh id keeps ids unique, and the new id is then in the list |
| `Todos.EditTodo` | src/contexts/TodoContext.tsx:35-37 | same length and order; items with the id become the merge of the item and the update; every other item is untouched |
| `Todos.EditAbsentIsNoOp` | src/contexts/TodoContext.tsx:35-37 | editing an id not in the list returns the list unchanged |
| `Todos.EditKeepsIds` | src/contexts/TodoContext.tsx:35-37 | an update without `id` keeps every item's id, hence keeps ids unique |
| `Todos.EditCanDuplicateIds` | src/contexts/TodoContext.tsx:35-37 | an update that sets `id` to another item's id gives two items the same id |
| `Todos.ToggleTodoCompletion` | src/contexts/TodoContext.tsx:39-41 | same length and order; matching items have `completed` flipped and nothing else changed; others are untouched |
| `Todos.ToggleTwice` | src/contexts/TodoContext.tsx:39-41 | toggling the same id twice restores the original list |
| `Todos.ToggleKeepsIds` | src/contexts/TodoContext.tsx:39-41 | toggling keeps every id, hence keeps ids unique |
| `Todos.DeleteTodo` | src/contexts/TodoContext.tsx:43-45 | the result holds exactly the items without that id; an absent id is a no-op; a present id shortens the list |
| `Todos.DeleteAppend` | src/contexts/TodoContext.tsx:43-45 | deleting distributes over concatenation, so the remaining items keep their original order |
| `Todos.DeleteUnique` | src/contexts/TodoContext.tsx:43-45 | with unique ids, deleting item k's id removes exactly item k |
| `Persistence.StorageKey` | src/utils/sessionStorage.ts:3 | the storage key `"todos"`, shared by `Load` and `Save` |
| `Persistence.IsTodoRecord` | src/utils/sessionStorage.ts:12-19 | an element passes exactly when it is an object, not `null` and not an array, whose own `id`, `title`, `description`, `createdAt` are strings and `completed` is a boolean |
| `Persistence.AllTodoRecords` | src/utils/sessionStorage.ts:11-20 | the `every` over the elements holds exactly when each element passes the record check |
| `Persistence.IsValidTodos` | src/utils/sessionStorage.ts:8-21 | only arrays can be valid, and an array is valid exactly when every element is a non-null object with string `id`, `title`, `description`, `createdAt` and boolean `completed` |
| `Persistence.OneBadElementRejects` | src/utils/sessionStorage.ts:11-20 | one bad element anywhere makes the whole array invalid |
| `Persistence.ValidConcat` | src/utils/sessionStorage.ts:11-20 | an array split in two is valid exactly when both parts are: there is no partial acceptance |
| `Persistence.ValidationExamples` | src/__tests__/sessionStorage.test.tsx:47-64 | an object, a string, `null` and `undefined` are rejected; `[]` and a well-formed record are accepted; a numeric `id` or any missing field is rejected |
| `Persistence.ToTodo` | src/utils/sessionStorage.ts:36-39 | a checked record becomes an item with the record's `id`, `title`, `description` and `completed`, and `createdAt` read by `new Date` |
| `Persistence.Rehydrate` | src/utils/sessionStorage.ts:36-39 | rehydration keeps length and order and converts each record on its own |
| `Persistence.ToRecord` | src/utils/sessionStorage.ts:59-62 | an item's record has exactly the five `Todo` fields, passes the element check, and reads back as the item whenever `new Date` of the ISO text is the item's instant |
| `Persistence.DatesValid` | src/utils/sessionStorage.ts:59-62 | every `createdAt` is a valid instant, the condition under which no `toISOString()` call throws |
| `Persistence.Serialize` | src/utils/sessionStorage.ts:59-62 | serialisation succeeds exactly when every `createdAt` is a valid date, and then gives each item's record, with `createdAt` as its ISO string, in order |
| `Persistence.RecordRoundTrip` | src/utils/sessionStorage.ts:59-62 | an item's stored record passes the record check, is plain JSON, and reads back as the same item |
| `Persistence.RehydrateSerialize` | src/utils/sessionStorage.ts:34-39 | a serialised list is a valid, plain JSON array that rehydrates to the original list |
| `Persistence.Encoded` | src/utils/sessionStorage.ts:64 | the text `JSON.stringify(serializedTodos)` writes under the storage key, defined for lists whose dates are all valid |
| `Persistence.Load` | src/utils/sessionStorage.ts:27-50 | missing or empty text: `[]`, storage unchanged, no log. Unparsable text: `[]`, key removed, parse warning. Parsed but invalid: `[]`, key removed, invalid-data warning. Valid: the rehydrated records, storage unchanged |
| `Persistence.LoadValid` | src/utils/sessionStorage.ts:34-39 | on valid data the loaded list has the stored length and order, each item keeps `id`, `title`, `description`, `completed`, and `createdAt` is read from its string |
| `Persistence.LoadTwice` | src/utils/sessionStorage.ts:40-48 | a second load returns the first load's list without writing or logging: corrupt data is purged once |
| `Persistence.Save` | src/utils/sessionStorage.ts:56-75 | the result is true exactly when the write succeeds and every date is valid; storage then holds the encoding under `"todos"`, otherwise it is unchanged; quota failures log a warning, all other failures an error |
| `Persistence.SaveThenLoad` | src/utils/sessionStorage.ts:56-65 | after a successful save of a list, loading gives that same list back, silently and without touching storage |
| `Persistence.SaveTwice` | src/utils/sessionStorage.ts:64 | saving the same list again with the same outcome leaves storage and result as the first save did |
| `Persistence.InvalidDatePoisonsSave` | src/utils/sessionStorage.ts:59-73 | a validated record with an unreadable `createdAt` loads as an Invalid Date, after which every save fails with the generic error |
| `Persistence.Store.constructor` | src/utils/sessionStorage.ts:29 | a storage object starts with the given content |
| `Persistence.Store.GetItem` | src/utils/sessionStorage.ts:29 | reading a key gives its text if present, otherwise nothing |
| `Persistence.Store.SetItem` | src/utils/sessionStorage.ts:64 | only a successful write changes storage, and it sets exactly that key |
| `Persistence.Store.RemoveItem` | src/utils/sessionStorage.ts:42 | removing drops exactly that key |
| `Persistence.LoadTodos` | src/utils/sessionStorage.ts:27-50 | returns the list and log of `Load` for the old storage content, and leaves storage as `Load` says |
| `Persistence.SaveTodos` | src/utils/sessionStorage.ts:56-75 | returns the result and log of `Save`, and leaves storage as `Save` says |
| `Provider.QuotaMessage` | src/contexts/TodoContext.tsx:16 | the one message `storageError` is ever set to |
| `Provider.ClearDelay` | src/contexts/TodoContext.tsx:18 | the 5000 ms delay of the clearing timer |
| `Provider.AfterSave` | src/contexts/TodoContext.tsx:13-22 | after a failure the notice shows exactly the quota message and one more timer is armed 5000 ms later; after a success the notice is clear and the armed timers are kept |
| `Provider.AnyDue` | src/contexts/TodoContext.tsx:18 | some armed timer is due by the given time |
| `Provider.StillPending` | src/contexts/TodoContext.tsx:18 | the timers still armed after a given time are exactly those due later |
| `Provider.StillPendingAppend` | src/contexts/TodoContext.tsx:18 | the timers left after a given time keep the order in which they were armed: filtering distributes over concatenation |
| `Provider.Elapse` | src/contexts/TodoContext.tsx:18 | when time passes, the notice clears if any timer fell due and is otherwise unchanged; exactly the later timers stay armed |
| `Provider.ClearedAfterDelay` | src/contexts/TodoContext.tsx:16-18 | a failure's message is cleared once 5000 ms have passed |
| `Provider.ShownUntilDelay` | src/contexts/TodoContext.tsx:16-18 | before the 5000 ms have passed, and with no earlier timer due, the message is still shown |
| `Provider.StaleTimerClearsNewerError` | src/contexts/TodoContext.tsx:18 | the timer left by an earlier failure clears a later failure's message early, while the later timer stays armed |
| `Provider.SuccessClearsAtOnce` | src/contexts/TodoContext.tsx:19-21 | a success right after a failure clears the message with no time passing |
| `Provider.TodoProvider.constructor` | src/contexts/TodoContext.tsx:7-22 | on mount the list is what `loadTodos` returns, the notice starts clear, and the effect runs once on that list |
| `Provider.TodoProvider.Persist` | src/contexts/TodoContext.tsx:13-22 | the effect saves the current list, records the attempt and updates the notice as `AfterSave` says; the list itself is never rolled back |
| `Provider.TodoProvider.AddTodo` | src/contexts/TodoContext.tsx:24-33 | the list becomes `Todos.AddTodo` of the old list at the current clock, then exactly one save is attempted on the new list |
| `Provider.TodoProvider.EditTodo` | src/contexts/TodoContext.tsx:35-37 | the list becomes `Todos.EditTodo` of the old list, then exactly one save is attempted on the new list |
| `Provider.TodoProvider.ToggleTodoCompletion` | src/contexts/TodoContext.tsx:39-41 | the list becomes `Todos.ToggleTodoCompletion` of the old list, then exactly one save is attempted on the new list |
| `Provider.TodoProvider.DeleteTodo` | src/contexts/TodoContext.tsx:43-45 | the list becomes `Todos.DeleteTodo` of the old list, then exactly one save is attempted on the new list |
| `Provider.TodoProvider.AdvanceTime` | src/contexts/TodoContext.tsx:18 | moving the clock fires the timers due by then, as `Elapse` says; nothing else changes |
| `Provider.MountOnEmptyStorage` | src/contexts/TodoContext.tsx:9-22 | mounting on empty storage gives an empty list after one save; a working write leaves the notice clear and stores the encoding of the empty list, a failing one shows the quota message with one timer armed and leaves storage empty |
| `Provider.AddToggleDelete` | src/__tests__/TodoContextStorage.test.tsx:113-145 | from empty storage: after add the item is pending, after toggle it is completed, after delete the list is empty; four save attempts (mount plus three) and storage holds the empty list. The test at line 144 expects three calls; the model counts the mount-time save the effect makes |
| `Provider.QuotaThenTimeout` | src/__tests__/TodoContextStorage.test.tsx:87-111 | with every save failing, the mount-time one included (the mock is set before rendering, line 89), the new item is kept, the exact quota message shows, it still shows 1 ms before the delay, and it is cleared at 5000 ms |
| `Provider.FailureThenSuccess` | src/__tests__/TodoContextStorage.test.tsx:147-174 | a failed save then a successful one clears the message at once, and both items are kept. The model fails the first add and mounts with a working write, as the test's comments describe; in the code the mount-time save would take the first mocked `false` |

## Left out

- The text formats of `JSON.parse`, `JSON.stringify` and ISO-8601 dates. They are function values with the round-trip law `Lawful`, which lemmas take as a precondition. The law is only stated for number-free values (`Plain`), which is all a stored todo list contains; numbers do not round-trip through text in general. `Value` objects are maps, so JavaScript's key order and duplicate keys are not modelled.
- The browser's `sessionStorage` and `DOMException`. They are a `Store` object over a `map<string, string>`, and a `WriteOutcome` parameter gives the result of each write. Exceptions from `getItem` and `removeItem` are not modelled.
- `console.warn` and `console.error`. They are the `LoadLog` and `SaveLog` values the operations return; message texts and error objects are not modelled.
- Extra fields of a stored record. `{ ...todo, createdAt }` in `loadTodos` keeps them in memory, but `Todo` has exactly five fields.
- `Patch` cannot say that a field is present with the value `undefined`: a `None` field is absent from the update.
- `JNum` holds a `real`; JavaScript's floating point is not modelled, and neither are `Date`'s range limits: an `At` instant is any integer.
- `uuidv4()` and `new Date()`. The id is a parameter of `AddTodo`, required to be fresh, and the time is the provider's `clock`.
- React scheduling: the effect re-running when `storageError` changes, batching, and extra renders. On mount and after each mutation, the effect runs exactly once. Because of the `[todos, storageError]` dependency (`TodoContext.tsx:22`), the timer's `setStorageError(null)` re-runs the effect in the code; under a persistent failure that re-run fails again and shows the message again. So `ClearedAfterDelay` and `QuotaThenTimeout` describe the one-run-per-mutation effect only.
- Real timers and the event loop. A timer is a deadline in `pending`, and `AdvanceTime` fires every deadline due by the new time.
- The stale closure of the mutation callbacks: each mutation is applied to the list current when it runs.
- `src/App.tsx`, `src/components/Toast/Toast.tsx` and `src/contexts/TodoContextType.ts` are not part of this model. They are rendering code and the context's type.
