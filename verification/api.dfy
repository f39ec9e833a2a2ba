/** What every controller shares: the caller established by the
    authentication middleware, the HTTP status codes the controllers send,
    the shape of a reply, and JavaScript's truthiness test on request
    fields. */
module Api {

  import opened Wrappers
  import opened Schema

  datatype Status = Ok | Created | BadRequest | Unauthorized | Forbidden | NotFound | ServerError

  /** The numeric HTTP code of a status. */
  function Code(s: Status): (r: nat)
    ensures 200 <= r < 600
  {
    match s
    case Ok => 200
    case Created => 201
    case BadRequest => 400
    case Unauthorized => 401
    case Forbidden => 403
    case NotFound => 404
    case ServerError => 500
  }

  /** `req.user`: the id and role decoded from a verified token.  The id need
      not name a user that still exists. */
  datatype Caller = Caller(id: Id, role: Role)

  /** A reply: a success carrying its payload, or a failure carrying the
      `error` text of the JSON body. */
  datatype Reply<T> = Success(status: Status, data: T) | Failure(status: Status, error: string)

  /** A reply together with the store after the request. */
  datatype Step<T> = Step(reply: Reply<T>, store: Store)

  /** The text every `catch` block sends with a 500. */
  const InternalError: string := "Internal server error"

  /** `!x` is false: the field is present and not the empty string. */
  predicate Given(field: Option<string>)
  {
    field.Some? && field.value != ""
  }

  /** `req.user && req.user.role === role`. */
  predicate HasRole(caller: Option<Caller>, role: Role)
  {
    caller.Some? && caller.value.role == role
  }
}
