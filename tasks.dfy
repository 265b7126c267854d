/**
  The values the task service handles: the Task record, the two inputs taken
  from an HTTP request (the path identifier and the JSON body) once the
  framework has parsed them, and the outcome each handler reports.
 */
module Tasks {

  /** A due date. The service only copies it, so its inside is irrelevant. */
  datatype DueDate = DueDate(instant: int)

  /** The one entity of the service. */
  datatype Task = Task(id: int, title: string, description: string, dueDate: DueDate, status: string)

  /** The status every new task starts with. */
  const Pending: string := "pending"

  /** The status the complete operation writes. */
  const Complete: string := "complete"

  /** The path parameter `:id` after integer parsing: a number, or text that is not one. */
  datatype IdParam = Parsed(value: int) | Unparsable

  /** The request body after JSON binding into a Task: every field the client sent
      (including an `id` and a `status`, which some handlers ignore), or a decode failure. */
  datatype Body = Decoded(fields: Task) | Undecodable

  /** What a handler answers. */
  datatype Outcome =
    | Created(task: Task)   // a new task was stored
    | Ok(task: Task)        // the task that was read or updated
    | Deleted               // the confirmation of a delete
    | NotFound              // no task has the identifier
    | InvalidId             // the path identifier is not an integer
    | BadBody               // the request body did not decode
  {
    /** The three failures of the service. */
    predicate IsError() {
      NotFound? || InvalidId? || BadBody?
    }
  }

  /** The HTTP status code the handlers send with each outcome. */
  function StatusCode(o: Outcome): (code: int)
    ensures o.IsError() <==> 400 <= code < 500
    ensures code == 201 <==> o.Created?
    ensures code == 404 <==> o.NotFound?
    ensures code == 400 <==> (o.InvalidId? || o.BadBody?)
    ensures code == 200 <==> (o.Ok? || o.Deleted?)
  {
    match o
    case Created(_) => 201
    case Ok(_) => 200
    case Deleted => 200
    case NotFound => 404
    case InvalidId => 400
    case BadBody => 400
  }
}
