/** Value types shared by the route handlers and the client components. */
module Common {

  datatype Option<T> = None | Some(value: T)

  datatype Result<T, E> = Success(value: T) | Failure(error: E)

  /** JavaScript truthiness of an optional text field: present and not "". */
  predicate Truthy(s: Option<string>)
  {
    s.Some? && s.value != ""
  }

  /** The expression `s || null`: a falsy text becomes null. */
  function OrNull(s: Option<string>): (r: Option<string>)
    ensures Truthy(s) ==> r == s
    ensures !Truthy(s) ==> r == None
    ensures r.Some? ==> r.value != ""
  {
    if Truthy(s) then s else None
  }

  /** What the database call of a create handler ends in: success, a unique
      constraint violation (Prisma error code P2002), or any other failure. */
  datatype DbResult = Ok | UniqueViolation | OtherFailure

  /** A JSON response body: the payload, or an object `{ error: message }`. */
  datatype Body<T> = Payload(value: T) | ErrorMessage(error: string)

  datatype Reply<T> = Reply(status: int, body: Body<T>)

  /** The outcome of a create handler: the data handed to the database's
      create call (None when the call is never reached) and the response. */
  datatype Handled<T> = Handled(write: Option<T>, reply: Reply<T>)

  /** The part of a user record the client components display. */
  datatype UserSummary = UserSummary(id: string, name: string, icon: string)

  /** The status mapping shared by the create handlers once the create call
      has been reached: 201 with the created row, 409 on a unique violation,
      500 on anything else. */
  function CreateReply<T>(data: T, db: DbResult, conflict: string, failure: string): (r: Reply<T>)
    ensures r.status == 201 <==> db == Ok
    ensures r.status == 201 ==> r.body == Payload(data)
    ensures r.status == 409 <==> db == UniqueViolation
    ensures r.status == 409 ==> r.body == ErrorMessage(conflict)
    ensures r.status == 500 <==> db == OtherFailure
    ensures r.status == 500 ==> r.body == ErrorMessage(failure)
  {
    match db
    case Ok => Reply(201, Payload(data))
    case UniqueViolation => Reply(409, ErrorMessage(conflict))
    case OtherFailure => Reply(500, ErrorMessage(failure))
  }

  /** Multiplying by a non-negative factor keeps an inequality. */
  lemma MulMonotone(a: int, b: int, k: int)
    requires a <= b && k >= 0
    ensures a * k <= b * k
  {
    assert (b - a) * k >= 0;
  }
}
