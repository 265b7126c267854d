/**
  The task table as a value: the map from identifier to task and the
  identifier counter, the invariant that binds them, and one step function per
  handler giving the table after the call and the outcome it reports. The
  class TaskServer.TaskStore is proved to change its fields exactly as these
  functions say.
 */
module TaskTable {
  import opened Tasks

  /** The two globals of the service: the map of tasks and the next identifier. */
  datatype Store = Store(tasks: map<int, Task>, nextId: int)

  /** A handler's effect: the table afterwards and the answer. */
  datatype Step = Step(store: Store, outcome: Outcome)

  /** Every stored task carries its own key as its identifier. */
  ghost predicate Keyed(tasks: map<int, Task>) {
    forall k :: k in tasks ==> tasks[k].id == k
  }

  /** The table invariant: every key was handed out by the counter (so lies in
      [1, nextId)) and is the identifier of the task stored under it. */
  ghost predicate Valid(s: Store) {
    && s.nextId >= 1
    && Keyed(s.tasks)
    && forall k :: k in s.tasks ==> 1 <= k < s.nextId
  }

  /** The table at start-up: no tasks, and the counter at 1. */
  function Empty(): (s: Store)
    ensures Valid(s)
    ensures s.tasks == map[] && s.nextId == 1
  {
    Store(map[], 1)
  }

  /** Create: the new task takes the counter's value as its identifier and the
      status "pending", whatever identifier and status the body carried. */
  function CreateStep(s: Store, body: Body): (r: Step)
    requires Valid(s)
    ensures Valid(r.store)
    ensures body.Undecodable? ==> r == Step(s, BadBody)
    ensures body.Decoded? ==>
      && r.outcome.Created?
      && r.outcome.task.id == s.nextId
      && r.outcome.task.id !in s.tasks
      && r.outcome.task.status == Pending
      && r.outcome.task.title == body.fields.title
      && r.outcome.task.description == body.fields.description
      && r.outcome.task.dueDate == body.fields.dueDate
      && r.store.nextId == s.nextId + 1
      && r.store.tasks.Keys == s.tasks.Keys + {s.nextId}
      && r.store.tasks[s.nextId] == r.outcome.task
      && (forall k :: k in s.tasks ==> r.store.tasks[k] == s.tasks[k])
  {
    match body
    case Undecodable => Step(s, BadBody)
    case Decoded(fields) =>
      var t := fields.(id := s.nextId, status := Pending);
      Step(Store(s.tasks[s.nextId := t], s.nextId + 1), Created(t))
  }

  /** Get: the stored task, or NotFound; the table is not changed. */
  function GetStep(s: Store, id: IdParam): (r: Outcome)
    ensures id.Unparsable? ==> r == InvalidId
    ensures id.Parsed? ==> (r.Ok? <==> id.value in s.tasks)
    ensures id.Parsed? && id.value in s.tasks ==> r == Ok(s.tasks[id.value])
    ensures id.Parsed? && id.value !in s.tasks ==> r == NotFound
    ensures Valid(s) && r.Ok? ==> r.task.id == id.value
  {
    match id
    case Unparsable => InvalidId
    case Parsed(k) => if k in s.tasks then Ok(s.tasks[k]) else NotFound
  }

  /** Update: a full replace of title, description, due date and status
      (empty values included); the stored identifier is kept and the body's is
      ignored. An unparsable identifier is reported before an undecodable
      body, and that before a missing task. */
  function UpdateStep(s: Store, id: IdParam, body: Body): (r: Step)
    requires Valid(s)
    ensures Valid(r.store)
    ensures r.store.nextId == s.nextId
    ensures r.outcome.IsError() ==> r.store == s
    ensures id.Unparsable? ==> r.outcome == InvalidId
    ensures id.Parsed? && body.Undecodable? ==> r.outcome == BadBody
    ensures id.Parsed? && body.Decoded? && id.value !in s.tasks ==> r.outcome == NotFound
    ensures id.Parsed? && body.Decoded? && id.value in s.tasks ==>
      && r.outcome.Ok?
      && r.outcome.task.id == id.value
      && r.outcome.task.title == body.fields.title
      && r.outcome.task.description == body.fields.description
      && r.outcome.task.dueDate == body.fields.dueDate
      && r.outcome.task.status == body.fields.status
      && r.store.tasks == s.tasks[id.value := r.outcome.task]
  {
    match id
    case Unparsable => Step(s, InvalidId)
    case Parsed(k) =>
      match body
      case Undecodable => Step(s, BadBody)
      case Decoded(fields) =>
        if k !in s.tasks then Step(s, NotFound)
        else
          var t := s.tasks[k].(title := fields.title, description := fields.description,
                               dueDate := fields.dueDate, status := fields.status);
          Step(s.(tasks := s.tasks[k := t]), Ok(t))
  }

  /** Delete: removes exactly the one key; the counter is left alone, so the
      identifier is never handed out again. */
  function DeleteStep(s: Store, id: IdParam): (r: Step)
    requires Valid(s)
    ensures Valid(r.store)
    ensures r.store.nextId == s.nextId
    ensures r.outcome.IsError() ==> r.store == s
    ensures id.Unparsable? ==> r.outcome == InvalidId
    ensures id.Parsed? && id.value !in s.tasks ==> r.outcome == NotFound
    ensures id.Parsed? && id.value in s.tasks ==>
      && r.outcome == Deleted
      && r.store.tasks.Keys == s.tasks.Keys - {id.value}
      && (forall k :: k in r.store.tasks ==> r.store.tasks[k] == s.tasks[k])
  {
    match id
    case Unparsable => Step(s, InvalidId)
    case Parsed(k) =>
      if k !in s.tasks then Step(s, NotFound)
      else Step(s.(tasks := s.tasks - {k}), Deleted)
  }

  /** Complete: the status becomes "complete" whatever it was; every other
      field of the task, and every other task, stays as it was. */
  function CompleteStep(s: Store, id: IdParam): (r: Step)
    requires Valid(s)
    ensures Valid(r.store)
    ensures r.store.nextId == s.nextId
    ensures r.outcome.IsError() ==> r.store == s
    ensures id.Unparsable? ==> r.outcome == InvalidId
    ensures id.Parsed? && id.value !in s.tasks ==> r.outcome == NotFound
    ensures id.Parsed? && id.value in s.tasks ==>
      && r.outcome.Ok?
      && r.outcome.task.status == Complete
      && r.outcome.task.id == id.value
      && r.outcome.task.title == s.tasks[id.value].title
      && r.outcome.task.description == s.tasks[id.value].description
      && r.outcome.task.dueDate == s.tasks[id.value].dueDate
      && r.store.tasks == s.tasks[id.value := r.outcome.task]
  {
    match id
    case Unparsable => Step(s, InvalidId)
    case Parsed(k) =>
      if k !in s.tasks then Step(s, NotFound)
      else
        var t := s.tasks[k].(status := Complete);
        Step(s.(tasks := s.tasks[k := t]), Ok(t))
  }

  /** Every element of the list is a stored task, filed under its own identifier. */
  ghost predicate AllStored(tasks: map<int, Task>, list: seq<Task>) {
    forall i :: 0 <= i < |list| ==> list[i].id in tasks && tasks[list[i].id] == list[i]
  }

  /** No identifier occurs twice in the list. */
  ghost predicate DistinctIds(list: seq<Task>) {
    forall i, j :: 0 <= i < j < |list| ==> list[i].id != list[j].id
  }

  /** Every stored task occurs in the list. */
  ghost predicate Covers(tasks: map<int, Task>, list: seq<Task>) {
    forall k :: k in tasks ==> tasks[k] in list
  }

  /** What list promises: every stored task exactly once, in no particular order. */
  ghost predicate IsListing(tasks: map<int, Task>, list: seq<Task>) {
    && |list| == |tasks|
    && AllStored(tasks, list)
    && DistinctIds(list)
    && Covers(tasks, list)
  }

  /** Dropping one element of a listing leaves a listing of the table without
      that element's key. */
  lemma ListingWithout(tasks: map<int, Task>, list: seq<Task>, i: int)
    requires Keyed(tasks) && IsListing(tasks, list) && 0 <= i < |list|
    ensures Keyed(tasks - {list[i].id})
    ensures IsListing(tasks - {list[i].id}, list[..i] + list[i + 1..])
  {
    var k := list[i].id;
    var rest := tasks - {k};
    var shorter := list[..i] + list[i + 1..];
    assert k in tasks;
    assert rest.Keys == tasks.Keys - {k};
    assert |rest| == |tasks| - 1;
    assert |shorter| == |rest|;
    forall m | 0 <= m < |shorter|
      ensures shorter[m] == list[if m < i then m else m + 1]
    {
    }
    assert AllStored(rest, shorter) by {
      forall m | 0 <= m < |shorter|
        ensures shorter[m].id in rest && rest[shorter[m].id] == shorter[m]
      {
        var p := if m < i then m else m + 1;
        assert shorter[m] == list[p] && p != i;
      }
    }
    assert DistinctIds(shorter) by {
      forall m, m' | 0 <= m < m' < |shorter|
        ensures shorter[m].id != shorter[m'].id
      {
        var p, p' := if m < i then m else m + 1, if m' < i then m' else m' + 1;
        assert shorter[m] == list[p] && shorter[m'] == list[p'] && p < p';
      }
    }
    assert Covers(rest, shorter) by {
      forall k' | k' in rest
        ensures rest[k'] in shorter
      {
        var p :| 0 <= p < |list| && list[p] == tasks[k'];
        assert p != i;
        assert shorter[if p < i then p else p - 1] == list[p];
      }
    }
  }

  /** Taking one element out of a sequence takes it out of its multiset. */
  lemma MultisetWithout<T>(s: seq<T>, j: int)
    requires 0 <= j < |s|
    ensures multiset(s) == multiset(s[..j] + s[j + 1..]) + multiset{s[j]}
  {
    assert s == s[..j] + [s[j]] + s[j + 1..];
  }

  /** The order of a listing is the only freedom it has: any two listings of
      the same table hold the same tasks the same number of times. */
  lemma {:induction false} ListingsArePermutations(tasks: map<int, Task>, a: seq<Task>, b: seq<Task>)
    requires Keyed(tasks) && IsListing(tasks, a) && IsListing(tasks, b)
    ensures multiset(a) == multiset(b)
    decreases |a|
  {
    if |a| == 0 {
      assert a == [] && b == [];
    } else {
      var n := |a| - 1;
      var x := a[n];
      assert x.id in tasks && tasks[x.id] == x by {
        assert AllStored(tasks, a);
      }
      assert x in b by {
        assert Covers(tasks, b);
      }
      var j :| 0 <= j < |b| && b[j] == x;
      var a', b' := a[..n] + a[n + 1..], b[..j] + b[j + 1..];
      ListingWithout(tasks, a, n);
      ListingWithout(tasks, b, j);
      ListingsArePermutations(tasks - {x.id}, a', b');
      MultisetWithout(a, n);
      MultisetWithout(b, j);
    }
  }

  /** Getting the identifier that create returned yields the created task. */
  lemma GetAfterCreate(s: Store, body: Body)
    requires Valid(s) && body.Decoded?
    ensures var r := CreateStep(s, body);
      GetStep(r.store, Parsed(r.outcome.task.id)) == Ok(r.outcome.task)
  {
  }

  /** After a delete succeeds, getting the same identifier reports NotFound. */
  lemma GetAfterDelete(s: Store, k: int)
    requires Valid(s) && k in s.tasks
    ensures GetStep(DeleteStep(s, Parsed(k)).store, Parsed(k)) == NotFound
  {
  }

  /** After an update succeeds, get returns the supplied mutable fields under the old identifier. */
  lemma GetAfterUpdate(s: Store, k: int, fields: Task)
    requires Valid(s) && k in s.tasks
    ensures GetStep(UpdateStep(s, Parsed(k), Decoded(fields)).store, Parsed(k))
      == Ok(fields.(id := k))
  {
  }

  /** Completing twice leaves the same table as completing once. */
  lemma CompleteIdempotent(s: Store, id: IdParam)
    requires Valid(s)
    ensures var once := CompleteStep(s, id).store;
      CompleteStep(once, id).store == once
  {
  }
}
