# Task table of go-todo-api

This is a model of the in-memory task table behind a small Go HTTP service for to-do tasks. Package globals hold the state:

- a map from integer identifier to `Task` record;
- an identifier counter that starts at 1;
- a mutex guarding both.

Six handlers (create, list, get, update, delete, complete) read and change the map and the counter. Every handler except list parses its input before it takes the mutex. Create and get send their answers after releasing it; list, update, delete and complete answer while still holding it. But every handler reads and writes the map and the counter only inside a single critical section. So each call acts on the table as one atomic step, and the model is sequential: one method per handler, each running to completion.

The project has four modules:

- `Tasks` (`tasks.dfy`) holds the values:
  - the `Task` record;
  - the parsed path identifier `IdParam`: an integer, or `Unparsable` when integer parsing fails;
  - the decoded request body `Body`: every field of a `Task` the client sent, or `Undecodable`;
  - the handler `Outcome`;
  - the HTTP status code sent with each outcome.
- `TaskTable` (`table.dfy`) treats the table as a value `Store(tasks, nextId)`. It has:
  - the invariant `Valid`: every key k satisfies `1 <= k < nextId`, and `tasks[k].id == k`;
  - one step function for each handler except list. `CreateStep`, `UpdateStep`, `DeleteStep` and `CompleteStep` give the new table and the outcome; `GetStep` gives only the outcome, since get changes nothing. Each contract states the handler's promises: who assigns the identifier, full replace, error precedence, nothing else changes;
  - `IsListing`, which says what list promises in place of a step function;
  - lemmas that relate several calls.
- `TaskTraces` (`traces.dfy`) covers sequences of calls. Over any run:
  - the invariant holds;
  - the counter never goes down;
  - creates hand out consecutive identifiers;
  - a deleted identifier never comes back.
- `TaskServer` (`store.dfy`) holds the class `TaskStore`. Its fields are the map `tasks` and the counter `nextId`. It has one method per handler. The four mutating methods (`CreateTask`, `UpdateTask`, `DeleteTask`, `MarkTaskComplete`) change those fields in place, as the Go handlers change the globals. Each is proved to leave exactly the state, and return exactly the outcome, that its step function gives. `GetTaskById` and `GetAllTasks` have no `modifies` clause and change nothing. `GetTaskById` is proved to return exactly `GetStep`'s outcome. `GetAllTasks` builds its list with a loop and picks keys in an unspecified order, as a Go map iteration does. It is proved to return every stored task exactly once.

The due date is only ever copied, so it is an opaque `DueDate` wrapping an integer.

## Model

| member | source | states |
|---|---|---|
| `Tasks.StatusCode` | main.go:52-177 | Errors get 4xx. 201 is sent for a create and only for a create. 404 means not found. Exactly 400 is sent for an unparsable id or an undecodable body. 200 means a read, an update or a delete succeeded. |
| `TaskTable.Empty` | main.go:22-23 | At start-up the map is empty, the counter is 1, and the table invariant holds. |
| `TaskTable.CreateStep` | main.go:52-67 | An undecodable body gives BadBody and no change. Otherwise the new task gets the old counter value as its id, which was free, and status "pending", whatever id or status the body sent. Title, description and due date are copied. The counter goes up by exactly one. The keys gain just the new id. Every existing entry is unchanged. The invariant is preserved. |
| `TaskTable.GetStep` | main.go:83-100 | An unparsable id gives InvalidId. Otherwise the result is Ok exactly when the key is present, and then it is the stored task, whose id is the key. An absent key gives NotFound. |
| `TaskTable.UpdateStep` | main.go:103-133 | Error precedence is InvalidId, then BadBody, then NotFound, and every error leaves the table unchanged. On success, title, description, due date and status are all replaced by the supplied values. The stored id is kept and the body's id is ignored. Only that entry changes, the counter stays, and the invariant is preserved. |
| `TaskTable.DeleteStep` | main.go:136-154 | An unparsable id gives InvalidId. An absent id gives NotFound, and neither changes anything. On success, exactly that key is removed, every other entry is unchanged, and the counter stays. |
| `TaskTable.CompleteStep` | main.go:157-177 | Whatever the prior status was, it becomes exactly "complete". Id, title, description and due date are kept, and no other entry changes. Errors as for delete, with the table unchanged. |
| `TaskTable.ListingsArePermutations` | main.go:74-77 | List promises no order, and order is its only freedom: any two listings of one table are permutations of each other. |
| `TaskTable.GetAfterCreate` | main_test.go:76-83 | Getting the id that create returned yields the created task. |
| `TaskTable.GetAfterDelete` | main_test.go:150-160 | After a successful delete, getting that id gives NotFound. |
| `TaskTable.GetAfterUpdate` | main_test.go:107-125 | After a successful update, get returns the supplied fields under the unchanged id. |
| `TaskTable.CompleteIdempotent` | main.go:167-174 | Completing twice leaves the same table as completing once. |
| `TaskTraces.Apply` | main.go:59-63 | Any one call keeps the invariant. Only a successful create moves the counter, by exactly one, and its task's id is the old counter value. |
| `TaskTraces.Run` | main.go:22-24 | After any sequence of calls, the invariant holds and the counter has not decreased. |
| `TaskTraces.CreatedIdsConsecutive` | main.go:60-63 | In any run, the creates hand out nextId, nextId+1, ... in order, one per successful create, and the final counter is just past the last one. So the ids are increasing, distinct and gapless. |
| `TaskTraces.CreatedIdsFromStartUp` | main.go:23 | From start-up, the creates of any run hand out 1, 2, 3, ... |
| `TaskTraces.NoIdReuse` | main.go:143-153 | An id that was handed out and then deleted is absent after any later run, so it is never reused. |
| `TaskTraces.ScenarioFromTests` | main_test.go:17-193 | A composite run on one task, built from the steps the tests check separately. Create on a fresh table gives id 1 and "pending" (TestCreateTask). Update gives the new title and "in progress" (TestUpdateTask). Complete gives "complete" (TestMarkTaskComplete). Delete, then get, gives NotFound (TestDeleteTask). The tests never do this last step: get of an id never handed out (999) gives NotFound, the not-found path of main.go:94-97. |
| `TaskServer.ClientScenario` | main_test.go:17-193 | The six tests in file order on one shared store, as they run on the Go globals, proved from the method contracts alone. TestCreateTask: 201 with id 1, status "pending" and the title sent. TestGetAllTasks: one task listed. TestGetTaskByID: 200 and id 2. TestUpdateTask: 200, id 3, the new title and "in progress". TestDeleteTask: delete of id 4, then a 404 get. TestMarkTaskComplete: 200, id 5 and "complete". |
| `TaskServer.TaskStore.constructor` | main.go:22-23 | The globals' initial values: an empty map and a counter of 1. The invariant holds. |
| `TaskServer.TaskStore.CreateTask` | main.go:52-67 | Keeps the invariant. The new fields and the outcome are exactly those of CreateStep on the old fields. |
| `TaskServer.TaskStore.GetAllTasks` | main.go:70-80 | Returns every stored task exactly once, in any order: the length is the number of keys, each element is the task stored under its own id, no id repeats, and every stored task appears. |
| `TaskServer.TaskStore.GetTaskById` | main.go:83-100 | Changes nothing. Its outcome is GetStep's on the current fields. |
| `TaskServer.TaskStore.UpdateTask` | main.go:103-133 | Keeps the invariant. The new fields and the outcome are exactly those of UpdateStep on the old fields. |
| `TaskServer.TaskStore.DeleteTask` | main.go:136-154 | Keeps the invariant. The new fields and the outcome are exactly those of DeleteStep on the old fields. |
| `TaskServer.TaskStore.MarkTaskComplete` | main.go:157-177 | Keeps the invariant. The new fields and the outcome are exactly those of CompleteStep on the old fields. |

## Left out

- Routing and server start-up (`main`, the route table, listening on port 8080) are framework plumbing with no table logic.
- JSON binding and encoding are not modelled. A body either decodes to all fields of a `Task` or is `Undecodable`. The error text of a failed decode is not modelled.
- The response messages ("Task not found", "Invalid task ID", "Task deleted") are not modelled. Only the outcome variant and its status code are.
- An empty table lists as JSON `null`, because the Go list starts as a nil slice. The model returns an empty sequence.
- Parsing the path parameter as an integer happens before the model. The identifier arrives already parsed, or as `Unparsable`. Non-positive identifiers parse and then miss the map, as in the source.
- The mutex and concurrent callers are not modelled. They only make each call atomic, and the model's calls are atomic by construction. So linearizability is assumed, not proved.
- `time.Time` and RFC 3339 parsing: the due date is opaque and only copied.
- `TaskTraces.Apply`: Go's `int` is 32 or 64 bits depending on the platform. On 64-bit platforms the counter would wrap after 2^63 - 1 creates (2^31 - 1 on 32-bit ones). The model's counter is unbounded, so "the counter goes up by exactly one" ignores the wrap.
- `TaskTable.CreateStep`: the same unbounded counter; the wrap of Go's `int` counter on the create after the largest `int` is not modelled.
- `TaskServer.TaskStore.CreateTask`: the same unbounded counter; the wrap of Go's `int` counter on the create after the largest `int` is not modelled.
- The Go test file's HTTP harness is not modelled. `ClientScenario` models the calls the tests make, and `ScenarioFromTests` models the steps they check.
