# Todo API — a Dafny model of its request handlers

The system is a small Express server over one SQLite table, `todo`. It has
six handlers. GET /todos/ lists rows that match four optional substring
filters. GET /todos/:todoId/ fetches one row. GET /agenda/ lists the rows
due on a given date. POST /todos/ creates a row, PUT /todos/:todoId/ patches
one, and DELETE /todos/:todoId/ deletes one. Priority, status, category and
due date are checked against fixed enumerations and a date check, in a fixed
first-failure-wins order. Listing (which has no date to check), agenda
(which checks only the date) and create validate before they read the
table. Update first looks up the row and answers 404 when it is absent, and
only then validates the fields it was given. Lookup and delete validate
nothing.

This model keeps all of that decision logic and replaces the database with
an in-memory map from id to row.

- `Todos` (todos.dfy): the row type, the three enumeration sets, the
  response shape (status code plus a text, one row or a set of rows), and
  every message text. It also holds `DateLib`, the two date-fns services the
  handlers call, passed in as function values:
  - `isValid(s)` stands for `isValid(parseISO(s))`;
  - `format(s)` stands for `format(new Date(s), 'yyyy-MM-dd')`.
- `Validation` (validation.dfy): the validation chain as one function
  `Validate`. Its `required` flag separates create, where every field must
  be present and allowed, from listing and update, where an absent or empty
  field skips its check.
- `Listing` (listing.dfy): the substring filters (`LIKE '%x%'`), proved
  equal to a position-based definition of substring, plus the agenda's
  exact date match.
- `Patching` (patching.dfy): the update logic. It covers:
  - which columns a request changes (the due date is compared after
    normalising);
  - the `updates` object, built in place by the same sequence of
    assignments the handler makes;
  - the row after the UPDATE;
  - the single message that reports the change.
- `Handlers` (handlers.dfy): class `TodoApp`. Its field `rows` is the table
  and its `const dates` is the date library. There is one method per
  handler; create, update and delete change `rows` and state the whole new
  table.

## Model

| member | source | states |
|---|---|---|
| `Validation.Validate` | app.js:169-180 | The verdict is Accept iff every check passes. A rejection names a failing check, and every check earlier in the order priority, status, category, due date passes. |
| `Validation.FirstFailureWins` | app.js:126-137 | A check is the one reported iff it fails and every check before it passes, so the first failure alone decides the 400 message. |
| `Validation.RequiredIsStricter` | app.js:126-137 | Whatever create's required chain accepts, the optional chain of listing and update accepts too. When every field is supplied, the two chains give the same verdict. |
| `Listing.ContainsIffOccurs` | app.js:63-64 | The `LIKE '%x%'` test holds iff the filter text occurs at some position of the column, both directions. |
| `Listing.MatchesIffOccurs` | app.js:60-67 | A row is listed iff each of status, priority, search text and category occurs as a substring of its column. |
| `Listing.FiltersConjoin` | app.js:63-64 | Matching a query is the same as matching each of its four single-filter queries: the filters combine with AND. |
| `Listing.SelectNoFiltersIsAll` | app.js:39-44 | With every filter left at its default "", the selection is the whole table. |
| `Patching.CollectUpdates` | app.js:182-195 | Building `updates` field by field ends in exactly the changed columns. Each holds its requested value, with the due date normalised. |
| `Patching.Patched` | app.js:197-207 | The UPDATE keeps the id. A column named in the SET list takes the new value, and every other column keeps its stored value. |
| `Patching.UpdateWritesExactlyChanges` | app.js:182-207 | After the write, the columns that differ from the stored row are exactly the changed columns, each holding the value the request asked for. |
| `Patching.NoChangeIffAllEqual` | app.js:182-201 | No column changes iff every supplied field, the due date after normalising, equals the stored value. In that case the patched row is the old row. |
| `Patching.RepeatedUpdateChangesNothing` | app.js:182-201 | Repeating an update on the row it produced changes no column, so the second answer is "No Updates Provided". |
| `Patching.PatchedConforms` | app.js:169-195 | An update that passes validation keeps a row conforming: allowed enumeration values and a normalised due date. |
| `Patching.FirstIndex` | app.js:209-221 | Returns the position of a column that is in the changed set, and no earlier position of the order is in that set. |
| `Patching.Reported` | app.js:209-221 | The reported column is a changed column whose precedence rank is no larger than that of any other changed column. |
| `Patching.UpdateMessage` | app.js:209-221 | The handler's message chain gives the message of the highest-precedence changed column (status, priority, todo, category, due date). It is always one of the five update messages. |
| `Handlers.CreatedConforms` | app.js:126-145 | After create's checks pass, the inserted row carries the request's values with the due date normalised, and it conforms. |
| `Handlers.TodoApp.constructor` | app.js:12-20 | The app starts from the table as it is stored, each row under its own id. |
| `Handlers.TodoApp.ListTodos` | app.js:37-68 | A failed filter check answers its 400 message. Otherwise the answer is 200 with exactly the rows matching all four filters. With no filters, that is every row. |
| `Handlers.TodoApp.GetTodo` | app.js:76-89 | Answers the stored row, or 404 "Todo Not Found" when the id is absent. The table does not change. |
| `Handlers.TodoApp.Agenda` | app.js:97-110 | An absent or invalid date answers 400 "Invalid Due Date", a response that does not depend on the table. Otherwise the answer is exactly the rows whose due date equals the normalised date. |
| `Handlers.TodoApp.CreateTodo` | app.js:119-150 | A failed check answers its 400 message and writes nothing. An id already stored answers 500 and writes nothing. Otherwise exactly one row is added, no other row changes, and the answer is "Todo Successfully Added". |
| `Handlers.TodoApp.UpdateTodo` | app.js:154-228 | An absent id answers 404 and writes nothing, whatever the body holds. A failed check answers 400 and writes nothing. If nothing changed, the answer is "No Updates Provided" and the table is unchanged. Otherwise only that row changes, exactly in its changed columns, and the answer is the message of the first changed column in precedence order. |
| `Handlers.TodoApp.WriteChanges` | app.js:182-224 | For an accepted update of a stored row: with no changed column, the table stays and the answer is "No Updates Provided". Otherwise that row alone is replaced by its patched form, and the answer is the message of the first changed column. |
| `Handlers.TodoApp.DeleteTodo` | app.js:232-244 | Removes the row with that id if there is one, changes no other row, and always answers "Todo Deleted". |

Create, update and delete also preserve the table invariant: if every row
conformed before, every row conforms after (`AllConform`).

## Left out

- HTTP plumbing: Express routing, `response.status().send()` and JSON
  serialisation are left out. A response is a status code with a message, a
  row or a set of rows.
- Storage: the SQLite handle and its asynchronous `open`/`all`/`get`/`run`
  calls are replaced by the `rows` map. The SQL text, including the SET list
  joined from `updates` and the SQL injection it allows, is not built. The
  map of updates is written directly. An empty SET list corresponds to an
  empty map.
- Row order: list and agenda results are sets, because the order SQLite
  returns rows in is not visible in the handler.
- `LIKE` specifics: ASCII case-insensitive matching and the `%` and `_`
  wildcards inside a filter value are not modelled. `Listing.Contains` is
  plain substring containment.
- Dates: date-fns parsing and formatting and the time-zone behaviour of
  `new Date` are foreign code. They become the `DateLib` parameters
  `isValid` and `format`, without further properties. In particular:
  - `format` is taken as total. The model leaves out what happens when
    `new Date` cannot read a string that `parseISO` accepted, so `format`
    throws a RangeError. In update (app.js:191, 193 and 219, inside the
    `try` of app.js:156-228) the catch answers 500 "Server Error". In
    create (app.js:139) and agenda (app.js:102) the call sits outside any
    `try`, so the error escapes the handler and no response is sent;
  - the example in which "2024-3-5" becomes "2024-03-05" is not stated.
- Server errors: apart from the `format` failure above, the 500 "Server
  Error" paths and their logging come from storage failures. The one the
  model keeps is an insert with an id already in the table. It answers 500
  on the assumption that `id` is the table's primary key; the schema itself
  is not part of this model.
- Request shapes: path ids are integers. Body and query fields are strings
  or absent. Not modelled are non-string JSON values, repeated query
  parameters, and a non-numeric `:todoId` spliced into the SQL.
- Create bodies without `todo` or `id`: in `NewTodo` both are always
  present (`todo` a string, `id` an integer), so these requests have no
  counterpart in the model. In the source, a missing `todo` is stored as the
  text 'undefined'. A missing or non-numeric `id` puts `undefined` (or the raw
  text) into the VALUES list (app.js:141-144), the INSERT fails and the
  handler answers 500 "Server Error".
- Concurrency: requests do not interleave in the model. In the source, the
  read and the write of an update are separate statements.
- Server startup and exports: `app.listen` on port 3000 and
  `module.exports` are left out.
