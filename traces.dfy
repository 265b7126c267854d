/**
  Sequences of handler calls. Every handler touches the map and the counter
  only inside one critical section of the single mutex, so a run of the
  service acts on them as a sequence of whole calls applied one after
  another; these lemmas state what holds of every such run.
 */
module TaskTraces {
  import opened Tasks
  import opened TaskTable

  /** One call of a handler that may change the table. Listing changes nothing,
      so it does not appear. */
  datatype Request =
    | CreateReq(body: Body)
    | GetReq(id: IdParam)
    | UpdateReq(id: IdParam, body: Body)
    | DeleteReq(id: IdParam)
    | CompleteReq(id: IdParam)

  /** The effect of one call. Only create moves the counter, by exactly one,
      and only when it answers Created. */
  function Apply(s: Store, req: Request): (r: Step)
    requires Valid(s)
    ensures Valid(r.store)
    ensures r.outcome.Created? ==> r.outcome.task.id == s.nextId && r.store.nextId == s.nextId + 1
    ensures !r.outcome.Created? ==> r.store.nextId == s.nextId
  {
    match req
    case CreateReq(body) => CreateStep(s, body)
    case GetReq(id) => Step(s, GetStep(s, id))
    case UpdateReq(id, body) => UpdateStep(s, id, body)
    case DeleteReq(id) => DeleteStep(s, id)
    case CompleteReq(id) => CompleteStep(s, id)
  }

  /** The table after a sequence of calls. The invariant holds after every
      run, and the counter never goes down. */
  function Run(s: Store, reqs: seq<Request>): (r: Store)
    requires Valid(s)
    ensures Valid(r)
    ensures r.nextId >= s.nextId
    decreases |reqs|
  {
    if reqs == [] then s else Run(Apply(s, reqs[0]).store, reqs[1..])
  }

  /** The identifiers that the creates of a run hand out, in order. */
  function CreatedIds(s: Store, reqs: seq<Request>): seq<int>
    requires Valid(s)
    decreases |reqs|
  {
    if reqs == [] then []
    else
      var st := Apply(s, reqs[0]);
      (if st.outcome.Created? then [st.outcome.task.id] else []) + CreatedIds(st.store, reqs[1..])
  }

  /** The creates of any run hand out consecutive identifiers starting at the
      counter's value, one per successful create, and leave the counter just
      past the last one: increasing, distinct and without gaps. */
  lemma {:induction false} CreatedIdsConsecutive(s: Store, reqs: seq<Request>)
    requires Valid(s)
    ensures |CreatedIds(s, reqs)| == Run(s, reqs).nextId - s.nextId
    ensures forall i :: 0 <= i < |CreatedIds(s, reqs)| ==> CreatedIds(s, reqs)[i] == s.nextId + i
    decreases |reqs|
  {
    if reqs != [] {
      var st := Apply(s, reqs[0]);
      CreatedIdsConsecutive(st.store, reqs[1..]);
    }
  }

  /** The creates of a run from start-up hand out 1, 2, 3, ... in order. */
  lemma CreatedIdsFromStartUp(reqs: seq<Request>)
    ensures forall i :: 0 <= i < |CreatedIds(Empty(), reqs)| ==> CreatedIds(Empty(), reqs)[i] == i + 1
  {
    CreatedIdsConsecutive(Empty(), reqs);
  }

  /** An identifier that was handed out and is no longer stored (it was
      deleted) is absent after every later run: identifiers are never reused. */
  lemma {:induction false} NoIdReuse(s: Store, reqs: seq<Request>, k: int)
    requires Valid(s) && k < s.nextId && k !in s.tasks
    ensures k !in Run(s, reqs).tasks
    decreases |reqs|
  {
    if reqs != [] {
      var st := Apply(s, reqs[0]);
      assert k !in st.store.tasks;
      NoIdReuse(st.store, reqs[1..], k);
    }
  }

  /** A composite run on one task, built from the steps the tests check one
      by one: create on a fresh table answers identifier 1 with status
      "pending", then update, complete, delete and a get of the deleted
      identifier answer as the update, complete and delete tests expect.
      Last, a get of an identifier that was never handed out answers NotFound
      (the not-found path of get). */
  lemma ScenarioFromTests(d: DueDate)
    ensures var s0 := Empty();
      var c := CreateStep(s0, Decoded(Task(0, "Test Task", "This is a test task", d, "")));
      && c.outcome == Created(Task(1, "Test Task", "This is a test task", d, Pending))
      && var u := UpdateStep(c.store, Parsed(1), Decoded(Task(0, "Updated Task Title", "Updated description", d, "in progress")));
      && u.outcome == Ok(Task(1, "Updated Task Title", "Updated description", d, "in progress"))
      && var m := CompleteStep(u.store, Parsed(1));
      && m.outcome.Ok? && m.outcome.task.status == Complete
      && var x := DeleteStep(m.store, Parsed(1));
      && x.outcome == Deleted
      && GetStep(x.store, Parsed(1)) == NotFound
      && GetStep(s0, Parsed(999)) == NotFound
  {
  }
}
