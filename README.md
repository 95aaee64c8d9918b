# Phaedra TODO store, modelled in Dafny

Phaedra is a small TODO-list application. Its core is `EphemeralTodoStore`, an in-memory
store that maps each list name to the ordered items of that list. Items carry a revision
number. Updates and deletes go ahead only when the caller presents the stored revision
(compare-and-swap). A caller-supplied validator may veto an update. Every successful
mutation calls the list's listeners synchronously, in registration order. Around the store
sit three pure rules, and they are modelled too:

- the update validator `validateUpdate`. It forbids changing the creator and forbids the
  state moves TODO→DONE and DONE→TODO;
- the list selector's state updaters. They react to list-created and list-deleted events
  and to the user picking a list;
- the state filter's checkbox toggle.

Files:

- `seqs.dfy` (module `Seqs`): `RemoveAll`, the `filter(x => x !== v)` used by the store and
  both components, `NoDuplicates`, and their lemmas.
- `types.dfy` (module `TodoTypes`): items, metadata, states, store events, `Option`.
- `validation.dfy` (module `Validation`): `ValidateUpdate`, checked against an independent
  reference policy. The reference ranks the states TODO < ONGOING < DONE and allows a move
  of at most one step.
- `store.dfy` (module `TodoStore`): the class `EphemeralTodoStore` and its result types.
  It also holds four client methods (`ListenerScenario`, `RevisionScenario`,
  `ValidatorScenario`, `SnapshotScenario`). These walk through end-to-end runs using only
  the method contracts.
- `list_selector.dfy` (module `ListSelector`): the updaters as functions. Each returns the
  new `(listNames, selectedList)` and the value passed to `onSelect`, if it is called.
  `Replay` applies a stream of list events.
- `state_filter.dfy` (module `StateFilter`): `HandleCheckboxChange`. It returns the list
  that is handed to `onChange` exactly once.

Modelling choices:

- The store is a class. Its fields are `todoLists` (list name → items), `listeners` (list
  name → listener ids) and `delivered`. Each method changes only the fields its
  `modifies` clause names.
- Listeners are opaque ids. Calling a listener is modelled as appending a `Delivery` to
  `delivered`, so `delivered` is the ordered record of every call made.
- The fresh UUID and the current ISO timestamp are method parameters.
- A validator is a function `(current data, proposed data) -> Option<string>`. The source
  tests its result for truthiness, so an empty string does not veto an update. `Vetoes`
  models exactly that.
- Throwing is modelled as a result value. `addListener` throws on a missing list. A handle's
  `remove` throws when its bucket has already been deleted, because reading the missing
  bucket fails.
- The store code is followed wherever it differs from its declared interface
  (`src/store/store-crud.ts`):
  - `createList` returns nothing and empties an existing list;
  - there is no `deleteList`;
  - `getById` and `list` return nothing (`None`) instead of a tagged result;
  - the not-found result names the missing part in the field `missing`.
  The same code is also followed where the tests are stale: the tests read `res.metadata`
  where `create` returns `todo`, and they pass the arguments of `update` in a different order.

## Model

| member | source | states |
|---|---|---|
| TodoStore.EphemeralTodoStore.constructor | src/store/ephemeral-todo-store.ts:13-14 | a new store has no lists, no listeners and has made no listener calls |
| TodoStore.EphemeralTodoStore.UpdateListeners | src/store/ephemeral-todo-store.ts:16-21 | appends one call per listener of the list's bucket, in registration order, with the event; no calls when no bucket is registered; nothing else changes |
| TodoStore.Deliveries | src/store/ephemeral-todo-store.ts:20 | the calls made for a bucket: one per listener, same length, i-th call goes to the i-th listener with the event |
| TodoStore.EphemeralTodoStore.CreateList | src/store/ephemeral-todo-store.ts:23-25 | the name maps to an empty list afterwards, even when it held items; every other list is unchanged |
| TodoStore.EphemeralTodoStore.GetLists | src/store/ephemeral-todo-store.ts:27-29 | returns exactly the current list names, each once |
| TodoStore.EphemeralTodoStore.Create | src/store/ephemeral-todo-store.ts:31-48 | missing list: not-found 'list', nothing changes, no listener call; otherwise appends one item (the data, the fresh id, revision 1, the time) at the end of that list only, makes one update call per listener with that item and returns it as created |
| TodoStore.FindIndex | src/store/ephemeral-todo-store.ts:64-65 | the first position whose item carries the id, or none exactly when no item carries it |
| TodoStore.FindIndexAppendFresh | src/store/ephemeral-todo-store.ts:43 | an item appended under an id no other item carries is the one a later lookup of that id finds |
| TodoStore.FindIndexAfterReplace | src/store/ephemeral-todo-store.ts:84 | after an update replaces the found item, a lookup of the same id still finds that position |
| TodoStore.EphemeralTodoStore.GetById | src/store/ephemeral-todo-store.ts:50-54 | none exactly when the list is missing or no item has the id; otherwise the first item of that list carrying the id |
| TodoStore.EphemeralTodoStore.List | src/store/ephemeral-todo-store.ts:56-58 | the list's items in order, or none (distinct from an empty list) when the list is missing |
| TodoStore.EphemeralTodoStore.Update | src/store/ephemeral-todo-store.ts:60-89 | checks in order: missing list → not-found 'list'; no such id → not-found 'todo'; stored revision differs → conflict with the stored item; validator returns a non-empty message → validation-failure with it; none of these changes state or calls listeners; otherwise only that position of that list is replaced by the new data with the same id, revision + 1 and the new time, one update call per listener, result updated |
| TodoStore.EphemeralTodoStore.Delete | src/store/ephemeral-todo-store.ts:91-106 | the same not-found and conflict checks in the same order with no change; otherwise removes exactly the found item, the others keep their order, one delete call per listener with the id, result deleted |
| TodoStore.EphemeralTodoStore.ImportStore | src/store/ephemeral-todo-store.ts:108-110 | the whole table is replaced by the given one; listeners untouched, no listener call |
| TodoStore.EphemeralTodoStore.ExportStore | src/store/ephemeral-todo-store.ts:112-114 | a value copy of the table: the same list names with the same items |
| TodoStore.EphemeralTodoStore.AddListener | src/store/ephemeral-todo-store.ts:116-125 | throws, changing nothing, for a missing list; otherwise appends the listener to that list's bucket (creating it) and returns the handle |
| TodoStore.EphemeralTodoStore.Remove | src/store/ephemeral-todo-store.ts:127-132 | throws, changing nothing, when the bucket is gone; otherwise removes every registration of that listener from the bucket and deletes the bucket once empty; buckets are never left empty |
| TodoStore.ValidateUpdateVetoes | src/store/ephemeral-todo-store.ts:70-73 | passed to the store, `validateUpdate` vetoes exactly the updates that change the creator or skip ONGOING |
| Validation.ValidateUpdate | src/service/validation.ts:3-19 | no error exactly when the creator is unchanged and the state moves at most one step on TODO → ONGOING → DONE; a creator change is reported (with the creator message) whatever the states; with an unchanged creator, an error is the state message; every message is non-empty |
| Validation.RefusedStateMoves | src/service/validation.ts:12-18 | with an unchanged creator, the refused moves are exactly TODO→DONE and DONE→TODO |
| Validation.ValidateUpdateSymmetric | src/service/validation.ts:13-16 | with an unchanged creator, a move is refused iff the reverse move is refused |
| Validation.ValidateUpdateIgnoresTitle | src/service/validation.ts:3-19 | the titles never change the verdict or the message |
| ListSelector.HandleListCreated | src/components/TodoListSelector/TodoListSelector.tsx:56-70 | a known name returns the previous state and no onSelect; a new name is appended at the end; it becomes the selection and is announced exactly when nothing was selected, otherwise the selection stays and nothing is announced; keeps names unique and the selection '' or a known name |
| ListSelector.HandleListDeleted | src/components/TodoListSelector/TodoListSelector.tsx:72-82 | removes every occurrence of the name, keeping the others in order; deleting the selected list selects and announces the first remaining name or ''; deleting another list keeps the selection and announces nothing; keeps names unique and the selection '' or a known name |
| ListSelector.HandleChange | src/components/TodoListSelector/TodoListSelector.tsx:50-54 | the chosen name becomes the selection and is announced; the names are untouched |
| ListSelector.ReplayKeepsCoherent | src/components/TodoListSelector/TodoListSelector.tsx:31-42 | any stream of created/deleted events keeps names unique and the selection '' or a known name |
| ListSelector.FirstCreatedIsSelected | src/components/TodoListSelector/TodoListSelector.test.tsx:53-65 | from the empty state, two created events select the first list and announce it once |
| ListSelector.DeletingSelectedMovesSelection | src/components/TodoListSelector/TodoListSelector.test.tsx:97-134 | deleting the selected first list selects and announces the next; deleting the last list selects and announces '' |
| StateFilter.HandleCheckboxChange | src/components/StateFilterSelector/StateFilterSelector.tsx:13-18 | the toggled state is present afterwards iff it was absent; every other state keeps its membership; removal drops every occurrence and appending puts the state at the end |
| StateFilter.UncheckKeepsOrder | src/components/StateFilterSelector/StateFilterSelector.tsx:14-15 | unchecking distributes over concatenation, so the remaining states keep their order |
| StateFilter.ToggleTwiceRestores | src/components/StateFilterSelector/StateFilterSelector.tsx:14-16 | toggling an unselected state twice gives back the original list |
| StateFilter.ToggleKeepsNoDuplicates | src/components/StateFilterSelector/StateFilterSelector.tsx:14-16 | a selection without repeats stays without repeats |
| Seqs.RemoveAll | src/store/ephemeral-todo-store.ts:128 | the result holds exactly the elements of the input that differ from the value, and is no longer than the input |
| Seqs.RemoveAllAppend | src/components/TodoListSelector/TodoListSelector.tsx:74 | filtering distributes over concatenation, so the kept elements stay in their order |
| Seqs.RemoveAllAbsent | src/components/StateFilterSelector/StateFilterSelector.tsx:15 | filtering out a value that does not occur returns the input |
| Seqs.RemoveAllNoDuplicates | src/components/TodoListSelector/TodoListSelector.tsx:74 | filtering keeps a duplicate-free sequence duplicate-free |
| Seqs.AppendFreshNoDuplicates | src/components/TodoListSelector/TodoListSelector.tsx:62 | appending a value not yet present keeps a sequence duplicate-free |

## Left out

- React rendering, hooks, focus handling and CSS are not modelled, nor are the legacy
  component copies. They are UI glue.
- The `EventSource` subscription and JSON parsing in the selector are not modelled. Only the
  event dispatch and the updaters are. Because React may run an updater twice, `onSelect`
  is modelled as an output value, not as a call.
- `fetch`, `async` flow, the Electron shell, the HTTP service and the zod schemas are not
  modelled. They are I/O, framework code or foreign-library parsing. Items are modelled as
  datatypes directly, and `exportStore`'s schema parse as a value copy of the table.
- `uuidv4()` and `new Date().toISOString()` are method parameters. The store never checks
  that ids are unique, so the model does not promise uniqueness either.
- Listener callbacks are ids plus a call record. Listeners that call back into the store,
  and listeners that throw, are not modelled.
- Aliasing is not modelled. `list` returns the live array and `importStore` keeps the
  caller's object, so in the source later mutation through either reference changes the
  store. In the model all of these are values.
- List names that collide with properties of JavaScript's `Object.prototype` (such as
  `"toString"`) are not modelled. For those names the source's `!this.todoLists[listName]`
  test misfires.
- EphemeralTodoStore.GetLists: it does not promise the order of `Object.keys` (insertion
  order for non-numeric names), because the model's table is a map whose keys form a set.
- A validator may return any value in the source, and the veto is a truthiness test. The
  model fixes the validator's result to an optional string, the type `validateUpdate`
  returns, and keeps the empty-string case.
- Revisions and timestamps are unbounded integers and plain strings. JavaScript number
  precision and date parsing are not modelled.
