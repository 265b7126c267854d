/**
  The service's mutable state and its six handlers. The Go program keeps the
  map and the counter in package globals guarded by one mutex; here they are
  the two fields of one object. Every handler except list parses its input
  before it takes the mutex; create and get send their answers after
  releasing it, while list, update, delete and complete answer still holding
  it. Every handler reads and writes the map and the counter only inside a
  single critical section, so each handler's effect on them is one atomic
  step: a method that runs to completion before the next starts.
 */
module TaskServer {
  import opened Tasks
  import opened TaskTable

  class TaskStore {
    /** The stored tasks, by identifier. */
    var tasks: map<int, Task>
    /** The identifier the next create hands out. */
    var nextId: int

    /** The fields as a TaskTable value. */
    function State(): Store
      reads this
    {
      Store(tasks, nextId)
    }

    /** The table invariant holds of the fields. */
    ghost predicate Valid()
      reads this
    {
      TaskTable.Valid(State())
    }

    /** The state at start-up: an empty map and a counter at 1. */
    constructor ()
      ensures Valid()
      ensures tasks == map[] && nextId == 1
    {
      tasks := map[];
      nextId := 1;
    }

    /** POST /tasks. */
    method CreateTask(body: Body) returns (r: Outcome)
      requires Valid()
      modifies this
      ensures Valid()
      ensures State() == CreateStep(old(State()), body).store
      ensures r == CreateStep(old(State()), body).outcome
    {
      if body.Undecodable? {
        return BadBody;
      }
      var t := body.fields;
      t := t.(id := nextId);
      t := t.(status := Pending);
      tasks := tasks[nextId := t];
      nextId := nextId + 1;
      r := Created(t);
    }

    /** GET /tasks: the stored tasks, picked from the map in whatever order it
        yields them. */
    method GetAllTasks() returns (list: seq<Task>)
      requires Valid()
      ensures IsListing(tasks, list)
    {
      list := [];
      var remaining := tasks.Keys;
      while remaining != {}
        invariant remaining <= tasks.Keys
        invariant |list| + |remaining| == |tasks|
        invariant forall i :: 0 <= i < |list| ==>
          list[i].id in tasks && list[i].id !in remaining && tasks[list[i].id] == list[i]
        invariant DistinctIds(list)
        invariant forall k :: k in tasks && k !in remaining ==> tasks[k] in list
        decreases remaining
      {
        // Not used by the program: binding a member of the non-empty set gives the
        // verifier the witness it needs to see that the choice below exists.
        ghost var someKey := AnyMember(remaining);
        var k :| k in remaining;
        assert tasks[k].id == k;
        list := list + [tasks[k]];
        remaining := remaining - {k};
      }
    }

    /** GET /tasks/:id. */
    method GetTaskById(id: IdParam) returns (r: Outcome)
      ensures r == GetStep(State(), id)
    {
      if id.Unparsable? {
        return InvalidId;
      }
      if id.value in tasks {
        r := Ok(tasks[id.value]);
      } else {
        r := NotFound;
      }
    }

    /** PUT /tasks/:id. */
    method UpdateTask(id: IdParam, body: Body) returns (r: Outcome)
      requires Valid()
      modifies this
      ensures Valid()
      ensures State() == UpdateStep(old(State()), id, body).store
      ensures r == UpdateStep(old(State()), id, body).outcome
    {
      if id.Unparsable? {
        return InvalidId;
      }
      if body.Undecodable? {
        return BadBody;
      }
      if id.value !in tasks {
        return NotFound;
      }
      var task := tasks[id.value];
      task := task.(title := body.fields.title);
      task := task.(description := body.fields.description);
      task := task.(dueDate := body.fields.dueDate);
      task := task.(status := body.fields.status);
      tasks := tasks[id.value := task];
      r := Ok(task);
    }

    /** DELETE /tasks/:id. */
    method DeleteTask(id: IdParam) returns (r: Outcome)
      requires Valid()
      modifies this
      ensures Valid()
      ensures State() == DeleteStep(old(State()), id).store
      ensures r == DeleteStep(old(State()), id).outcome
    {
      if id.Unparsable? {
        return InvalidId;
      }
      if id.value !in tasks {
        return NotFound;
      }
      tasks := tasks - {id.value};
      r := Deleted;
    }

    /** PATCH /tasks/:id/complete. */
    method MarkTaskComplete(id: IdParam) returns (r: Outcome)
      requires Valid()
      modifies this
      ensures Valid()
      ensures State() == CompleteStep(old(State()), id).store
      ensures r == CompleteStep(old(State()), id).outcome
    {
      if id.Unparsable? {
        return InvalidId;
      }
      if id.value !in tasks {
        return NotFound;
      }
      var task := tasks[id.value];
      task := task.(status := Complete);
      tasks := tasks[id.value := task];
      r := Ok(task);
    }
  }

  /** A member of a non-empty set; it serves as the witness that the loop of
      GetAllTasks has a key left to pick. */
  ghost function AnyMember<T>(s: set<T>): (x: T)
    requires s != {}
    ensures x in s
  {
    var x :| x in s; x
  }

  /** The six tests of the service run in file order against one shared store,
      as they do against the Go globals: each test creates its own task, so the
      tasks get identifiers 1 to 5. The results are what the tests inspect,
      and the contracts of the methods alone prove what the tests assert. */
  method ClientScenario(d: DueDate)
    returns (created: Outcome, listed: seq<Task>, fetched: Outcome, updated: Outcome,
             deleted: Outcome, afterDelete: Outcome, completed: Outcome)
    ensures StatusCode(created) == 201 && created.task == Task(1, "Test Task", "This is a test task", d, Pending)
    ensures |listed| == 1
    ensures StatusCode(fetched) == 200 && fetched.Ok? && fetched.task.id == 2
    ensures StatusCode(updated) == 200 && updated.Ok? && updated.task.id == 3
    ensures updated.task.title == "Updated Task Title" && updated.task.status == "in progress"
    ensures deleted == Deleted && afterDelete == NotFound && StatusCode(afterDelete) == 404
    ensures StatusCode(completed) == 200 && completed.Ok? && completed.task.id == 5
    ensures completed.task.status == Complete
  {
    var store := new TaskStore();
    // TestCreateTask
    created := store.CreateTask(Decoded(Task(0, "Test Task", "This is a test task", d, "")));
    assert store.tasks.Keys == {1} && store.nextId == 2;
    // TestGetAllTasks
    listed := store.GetAllTasks();
    // TestGetTaskByID
    var forGet := store.CreateTask(Decoded(Task(0, "Test Task for Get", "This is a task for testing Get", d, "")));
    assert forGet.task.id == 2 && 2 in store.tasks && store.nextId == 3;
    fetched := store.GetTaskById(Parsed(forGet.task.id));
    // TestUpdateTask
    var forUpdate := store.CreateTask(Decoded(Task(0, "Test Task for Update", "This is a task for testing Update", d, "")));
    assert forUpdate.task.id == 3 && 3 in store.tasks && store.nextId == 4;
    updated := store.UpdateTask(Parsed(forUpdate.task.id),
      Decoded(Task(0, "Updated Task Title", "Updated description", d, "in progress")));
    assert store.nextId == 4;
    // TestDeleteTask
    var forDelete := store.CreateTask(Decoded(Task(0, "Test Task for Delete", "This is a task for testing Delete", d, "")));
    assert forDelete.task.id == 4 && 4 in store.tasks && store.nextId == 5;
    deleted := store.DeleteTask(Parsed(forDelete.task.id));
    assert 4 !in store.tasks && store.nextId == 5;
    afterDelete := store.GetTaskById(Parsed(forDelete.task.id));
    // TestMarkTaskComplete
    var forComplete := store.CreateTask(Decoded(Task(0, "Test Task for Complete", "This is a task for testing Complete", d, "")));
    assert forComplete.task.id == 5 && 5 in store.tasks;
    completed := store.MarkTaskComplete(Parsed(forComplete.task.id));
  }
}
