# Todo store of hapitodo, modelled in Dafny

hapitodo is a small todo-list backend. Its only logic is the todo model
(`server/method/todoModel`): an object `todosDB`, bound by the caller, that
maps generated ids to todo bodies `{content, done}`. Five operations work on
it:

- `row` lists every body with its id merged in;
- `get(id)` looks up one body;
- `del(id)` removes an entry and answers whether there was one;
- `add(obj)` checks `obj` and stores `{content, done}` under a fresh id,
  with `done` defaulting to `false`;
- `set(obj)` checks `obj` and, when its id is stored, overwrites only the
  fields it gives, answering whether it updated anything.

The implementation file is not part of this model. Its contract comes from
its test suite, `test/method/todoModelTest.js`, and the model follows that
contract case by case.

Files:

- `js_values.dfy` (module `JsValues`): the JavaScript values an argument can
  be (`undefined`, `null`, a number, a string, a boolean). It also gives plain
  objects as `map<string, Value>`, where a missing property reads as
  `undefined`.
- `todo_model.dfy` (module `TodoModel`):
  - the bodies and listed records;
  - the two error kinds: `InvalidArgument` for a non-string `id` given to
    `get`/`del`, and `ValidationError` for an object that breaks `add`'s or
    `set`'s field rules;
  - the rule checks `CheckAdd` and `CheckSet`, and the partial update `Apply`;
  - the class `TodoStore` with the five operations;
  - lemmas on how `del`, `add` and `set` change what `row` lists.
- `todo_model_tests.dfy` (module `TodoModelScenarios`): each case of the test
  suite replayed against `TodoStore`, with what the case expects written as
  assertions. Two general client methods go with them: deleting twice
  answers `true` then `false`, and an added record is listed and found.

Modelling choices:

- The callbacks are replaced by return values, returned synchronously. A
  callback given an error and a value (`get`, `del`, `set`) becomes a
  `Reply(err, value)`. `add`'s callback, given only an error, becomes an
  `Option<Error>`.
- The bound `todosDB` object is the pair of fields `db` (its properties) and
  `keys` (their order, which `row` follows). The store invariant `Valid()`
  says that `keys` has no repeats and holds exactly the keys of `db`.
  `Bind` stands for the caller assigning a new object to `todosDB`.
- The id generator is a parameter of `Add`, `freshId`, and the model requires
  it not to be stored already.
- A rejected object reports the first field that breaks its rule, either
  `Missing(f)` or `WrongType(f)`. The checks run in the order `id`, `content`,
  `done`. The source only signals that an error exists, so any error here is
  at least as precise as the source's.

## Model

| member | source | states |
|---|---|---|
| `TodoModel.TodoStore.constructor` | test/method/todoModelTest.js:17-18 | a store bound to an empty object is valid and holds nothing |
| `TodoModel.TodoStore.Bind` | test/method/todoModelTest.js:28-33 | rebinding `todosDB` gives a valid store holding exactly the new object, in its property order |
| `TodoModel.TodoStore.Row` | test/method/todoModelTest.js:37-54 | one record per stored entry, so an empty store lists `[]`; every record's id is stored and its body is the stored body; no id is listed twice; every stored id is listed |
| `TodoModel.Merge` | test/method/todoModelTest.js:44-49 | merging a key into a body gives a record with that id whose body reads back unchanged |
| `TodoModel.Rows` | test/method/todoModelTest.js:39-49 | the listing has one record per key, in key order, each the body under that key with the key merged in |
| `TodoModel.TodoStore.Get` | test/method/todoModelTest.js:59-98 | a non-string id gives `InvalidArgument` and no body; a string id gives no error, and gives a body exactly when the id is stored, namely the stored body |
| `TodoModel.RowGetAgree` | test/method/todoModelTest.js:76-87 | for every record `row` lists, `get` of its id answers that record's body with no error |
| `TodoModel.TodoStore.Del` | test/method/todoModelTest.js:103-146 | a non-string id gives `InvalidArgument` and `false`; otherwise the answer is true exactly when the id was stored. Only then are that key and its record removed; otherwise the store is unchanged, other keys included |
| `TodoModel.Without` | test/method/todoModelTest.js:120-146 | removing a key from the property order keeps every other key and its uniqueness, and is the identity when the key is absent |
| `TodoModel.DropId` | test/method/todoModelTest.js:120-146 | a listing without an id's records keeps exactly the records with other ids |
| `TodoModel.RowsWithout` | test/method/todoModelTest.js:120-146 | deleting a key drops exactly its record from `row`'s listing and keeps the others in order |
| `JsValues.Field` | test/method/todoModelTest.js:151-166 | a property reads as `undefined` exactly when it is missing or set to `undefined`; otherwise it reads as its value. So every rule treats a property set to `undefined` as missing, and reads `content` in `{test: true}` and `{}` as `undefined` |
| `TodoModel.CheckAdd` | test/method/todoModelTest.js:151-188 | an object is accepted exactly when `content` is a string and `done` is absent or a boolean; the stored body has that `content`, and `done` is true only when `true` was supplied. Missing content is reported as `Missing("content")` exactly when `content` is absent |
| `TodoModel.TodoStore.Add` | test/method/todoModelTest.js:151-193 | a rejected object gives a `ValidationError` and leaves the store unchanged; an accepted one is stored under the fresh id and nothing else changes. `row` then lists it last and `get` finds it |
| `TodoModel.RowsAppend` | test/method/todoModelTest.js:174-193 | adding an entry under a fresh key appends its record to the listing |
| `TodoModel.CheckSet` | test/method/todoModelTest.js:198-240 | an object is accepted exactly when `id` is a string, `content` is absent or a string and `done` is absent or a boolean. The patch carries that id and exactly the fields given. A missing id is reported as `Missing("id")` exactly when `id` is absent |
| `TodoModel.TodoStore.Set` | test/method/todoModelTest.js:198-259 | a rejected object gives a `ValidationError`, `false` and no change. An accepted object with an unknown id gives no error, `false` and no change. With a stored id it gives `true` and merges the given fields into that body only; the property order is kept and `row` changes only that record |
| `TodoModel.Apply` | test/method/todoModelTest.js:226-245 | the partial merge: a field the patch gives overwrites the stored one; a field it does not give keeps its stored value |
| `TodoModel.ApplyIdempotent` | test/method/todoModelTest.js:226-245 | a derived property of the merge `Apply`, not one the test cases check: applying the same update twice is the same as applying it once |
| `TodoModel.ReplaceId` | test/method/todoModelTest.js:226-245 | replacing an id's record keeps the listing's length and every other record in its position |
| `TodoModel.RowsUpdate` | test/method/todoModelTest.js:226-245 | overwriting a stored body replaces its record in `row`'s listing, in place |
| `TodoModel.RecordRoundTrip` | test/method/todoModelTest.js:39-49 | a derived property, not one the test cases check: a record as `row` lists it, written as an object, is accepted by `set`'s rules with all its fields, and applying that update changes nothing. It is also accepted by `add`'s rules with its own body, but only because properties outside a rule set are ignored (see "Left out") |
| `TodoModel.DistinctCard` | test/method/todoModelTest.js:39-49 | a property order without repeats has as many keys as the object, which is how `row`'s length equals the number of entries |
| `TodoModelScenarios.DelTwice` | test/method/todoModelTest.js:120-132 | deleting a stored id twice answers `true`, then `false`, and removes only that key |
| `TodoModelScenarios.AddThenList` | test/method/todoModelTest.js:174-193 | an accepted `add` leaves the record listed by `row` and found by `get` |

The scenario methods follow the test cases one by one:

- `RowListsAllTodos` replays lines 37-54.
- `GetCases` replays lines 59-98.
- `DelCases` replays lines 103-146.
- `AddCases` replays lines 151-193.
- `SetRejectsInvalid` replays lines 198-224.
- `SetUpdatesGivenFields` replays lines 226-245.
- `SetUnknownId` replays lines 247-259.

## Left out

- The hapi wiring is not modelled: method registration, `bind` options and
  the test server (test/method/todoModelTest.js:15-26). The bound object is
  the store's own state instead.
- Asynchronous callbacks are not modelled. Every operation completes at once
  over in-memory state, so it returns its error and value directly.
- The id generation algorithm is not visible. It is a parameter of `Add`,
  required to be an id not already stored.
- The validation library's own rules are not modelled. The rules are the ones
  the store's contract states: extra properties are ignored, and an empty
  string is an acceptable `content`. A schema library with default settings
  might reject either; the implementation is not part of this model, so this
  cannot be decided here.
- Which error is reported when several fields are wrong is the model's choice
  (the first in the order `id`, `content`, `done`). The source only signals
  that there is an error. Error messages are not modelled.
- Arguments to `add` and `set` that are not objects (`undefined`, a string) are
  not modelled: the input type is always an object.
- Numbers are integers. Floating point, `NaN` and objects, arrays or functions
  as field values are not modelled; every rule rejects them the same way as
  any other non-string, non-boolean value.
- Object identity is not modelled: bodies are values. `get` returning the
  stored object itself, which a caller could then mutate, is not captured. Nor
  is `set` changing the stored object in place rather than replacing it.
- JavaScript property order is not modelled exactly. It lists integer-like
  keys first, in ascending order. The model keeps plain insertion order,
  which matches whenever ids are not integer-like strings.
- Properties inherited from `Object.prototype` (`toString`, `__proto__`) are
  not modelled as stored ids.
- The index route (test/route/indexRouteTest.js) serves a static page over
  HTTP and has no logic to model.
