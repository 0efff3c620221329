# Tudù task service: a Dafny model

This project models the task service of the Tudù backend. It has five
handlers over one table:

- create (`POST /api/tasks`)
- get (`GET /api/tasks/{id}`)
- list (`GET /api/tasks?completed=…`)
- update (`PUT /api/tasks/{id}`)
- delete (`DELETE /api/tasks/{id}`)

The model also covers the records those handlers read and write.

- `wrappers.dfy`, module `Wrappers`: `Option`, which stands for Python's `None`/value.
- `models.dfy`, module `Models`: the row of table `task` (`TaskModel`) and the API bodies.
  `TaskBase` carries the declared defaults as constructor defaults. `TaskCreate` is
  `TaskBase` itself. `Task` is a `TaskBase` plus an `id`. The table is a `map` from id
  to row, and `PrimaryKeyed` says every row sits under its own id.
  `FromAttributes` reads a response body off a row.
- `validation.dfy`, module `Validation`: the one title check the handlers share.
  Python's `str.strip()` becomes `Strip`, which removes the code points `str.isspace`
  accepts from both ends. A title passes when its stripped length is at most 200.
- `handlers.dfy`, module `Handlers`: the handlers as functions of the table.
  `GetTask` and `ListTasks` only query. `CreateResult`, `UpdateResult` and
  `DeleteResult` give the response (`Ok`, `BadRequest` for 400, `NotFound` for 404)
  together with the table after the request. The lemmas relating the handlers
  live here too.
- `store.dfy`, module `Store`: class `TaskStore` holds the table in the field `tasks`.
  It also holds the `created_at` column default, fixed when the store is built,
  because the source computes it once at module load. Its methods `CreateTask`,
  `UpdateTask` and `DeleteTask` change `tasks` step by step. Each one is proved to
  produce exactly the response and table its `Handlers` function gives.
  `ToggleCompleted` is a client that replays the update test's request sequence
  against a store.

`uuid4()` is modelled as a parameter, `freshId`. The store requires that this id is
not already in use. `Handlers.FreshId` shows that such an id exists for every table.

Two behaviours of the code are worth stating plainly:

- The title check has only an upper bound (backend/app.py:61, 80), so an empty
  or all-whitespace title is accepted (`Validation.BlankTitleAccepted`).
- Update writes the whole request body into the row (backend/app.py:92),
  `created_at` included, so `created_at` becomes None when the body leaves it
  out (`Handlers.UpdateClearsOmittedCreatedAt`).

## Model

| member | source | states |
|---|---|---|
| `Models.FromAttributesInjective` | backend/models.py:41-43 | a response body determines the row it was read from, and the reverse |
| `Models.OmittedFieldDefaults` | backend/models.py:30-38 | a request body that gives only `title` has description None, completed false and created_at None |
| `Validation.LeadingEnd` | backend/app.py:61 | the leading-whitespace scan stops at the first non-space character at or after its start, or at the end; everything it passes over is whitespace |
| `Validation.TrailingStart` | backend/app.py:61 | the trailing-whitespace scan stops just after the last non-space character before its end, or at its start; everything it passes over is whitespace |
| `Validation.Strip` | backend/app.py:61 | `strip()` is a middle part `s[lo..hi]` of its input, and everything cut off before `lo` and after `hi` is whitespace; it is empty exactly when the input is all whitespace; otherwise it starts and ends with a non-space; a string without whitespace at its ends is returned whole |
| `Validation.BlankTitleAccepted` | backend/app.py:61-65 | an empty or all-whitespace title passes the title check: there is no lower bound |
| `Validation.ShortTitleAccepted` | backend/app.py:61-65 | any title of at most 200 characters passes the check |
| `Validation.LongTitleRejected` | backend/app.py:61-65 | a title longer than 200 characters with no whitespace at either end fails the check |
| `Handlers.GetTask` | backend/app.py:40-48 | 404 exactly when the id is not in the table; otherwise the body of the row stored under that id, whose id is the requested one; never 400 |
| `Handlers.ListTasks` | backend/app.py:51-56 | a row is listed exactly when it passes the optional `completed` filter, and everything listed is the body of a row that passes |
| `Handlers.ListTasksSize` | backend/app.py:51-56 | the list has one entry per matching row, and one per row when there is no filter |
| `Handlers.ListPartition` | backend/app.py:52-56 | the `completed=true` and `completed=false` lists are disjoint, and together they are the unfiltered list |
| `Handlers.BodiesOfIds` | backend/models.py:18 | because `id` is the primary key, distinct rows give distinct response bodies |
| `Handlers.ListOfTwo` | backend/app.py:53-56 | take a table of one completed row and one open row; each filter lists exactly the row with that flag |
| `Handlers.FilteredListAfterTwoCreates` | backend/tests/test_api.py:36-49 | create a completed task and an open one on an empty table; each filter then lists exactly one of them |
| `Handlers.CreateResult` | backend/app.py:59-75 | 400 exactly when the stripped title is over 200 characters, and the table is then unchanged; never 404. Otherwise exactly one row is added, under the fresh id. That row holds the untrimmed title, the caller's description and completed flag, and the `created_at` column default. Every other row is unchanged, and the response is that row's body |
| `Handlers.CreateThenGet` | backend/app.py:66-75 | after a successful create, get on the new id returns the created body, whose title is the one sent |
| `Handlers.CreateIgnoresCreatedAt` | backend/app.py:66-71 | the `created_at` the caller sends to create changes neither the response nor the table |
| `Handlers.CreateRefusesOversizedTitle` | backend/tests/test_api.py:23-33 | create with a title of 201 letters `A` gives 400 and stores nothing |
| `Handlers.UpdateResult` | backend/app.py:78-95 | 400 exactly when the title check fails, even for an unknown id; 404 exactly when the title passes and the id is unknown. Both errors leave the table unchanged. On success the key set stays the same, no other row changes, and the row keeps its id while every other column takes the request's value, `created_at` included. The response is the request body plus the id |
| `Handlers.UpdateChecksTitleFirst` | backend/app.py:80-91 | an oversized title on an unknown id gives 400, not 404, and leaves the table unchanged |
| `Handlers.UpdateClearsOmittedCreatedAt` | backend/app.py:92 | a successful update whose body leaves out `created_at` stores None in that column |
| `Handlers.UpdateIdempotent` | backend/app.py:92-95 | repeating an update gives the same response and the same table |
| `Handlers.DeleteResult` | backend/app.py:98-109 | 404 exactly when the id is unknown, and the table is then unchanged; never 400. Otherwise exactly that key is removed and every other row is unchanged |
| `Handlers.DeleteThenGet` | backend/app.py:99-109 | after a delete, get on the same id gives 404 |
| `Handlers.LongestId` | backend/app.py:67 | every id of a finite set is at most this long |
| `Handlers.FreshId` | backend/app.py:67 | every finite set of ids leaves some id unused, so the create handler's fresh-id requirement can always be met |
| `Store.TaskStore.constructor` | backend/models.py:22 | the store holds the rows already persisted, which must be keyed by their ids; its `created_at` default is the single instant given at load time |
| `Store.TaskStore.CreateTask` | backend/app.py:59-75 | the response and the new table are those of `Handlers.CreateResult` on the old table, and the primary-key invariant is kept |
| `Store.TaskStore.UpdateTask` | backend/app.py:78-95 | the response and the new table are those of `Handlers.UpdateResult` on the old table, and the primary-key invariant is kept |
| `Store.TaskStore.DeleteTask` | backend/app.py:98-109 | the response and the new table are those of `Handlers.DeleteResult` on the old table, and the primary-key invariant is kept |
| `Store.ToggleCompleted` | backend/tests/test_api.py:52-93 | create an open task, mark it completed, then send an oversized title. The last update is refused with 400. The task is left completed, with the title as created and `created_at` None, and no other row changes |

## Left out

- FastAPI wiring, the CORS middleware, the `/api` router prefix and the `get_index` greeting. They are framework set-up or a constant with no logic.
- Path parsing of `UUID` parameters. A malformed id is refused by the framework before any handler runs. Ids are opaque strings here.
- `uuid4()` itself. It is replaced by the `freshId` parameter, and the model assumes it is not already in use. The source does not handle a collision, which would surface as a database error.
- The database engine: `create_all`, `commit`, `refresh` and `synchronize_session`. The table is a map, and each handler's change is one atomic step.
- `Handlers.ListTasks`: returns a set, so it does not model the order of `query.all()`. No order is promised. Rows have distinct ids, so no entry is lost: see `Handlers.ListTasksSize`.
- Date-time values. They are opaque `Timestamp` tokens. The time `datetime.now(UTC)` reads at module load is the constructor parameter `loadedAt`.
- The `String(200)` column width. Nothing in the code path enforces it, and SQLite ignores it.
- The wording of the `detail` error messages. The `Outcome` constructor identifies the error.
- The HTTP status codes. They are fixed per handler: 200, 201 for create, 204 for delete, 400 and 404. The model gives only the `Outcome` constructor.
- async/await and the test fixtures in backend/tests/conftest.py. They are infrastructure, not logic.
