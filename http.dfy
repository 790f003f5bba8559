/** JavaScript error objects as the core throws them, the `http-errors` constructor, promises,
    and recorders for what a middleware does to `next` and to the response. */
module Http {
  import opened Ids

  /** An error's `message`: a literal written in the source, or the message of an error
      raised by Mongoose or the JavaScript runtime, whose wording is not modelled. */
  datatype Message = Text(text: string) | Native(origin: string)

  /** The fields of an error object that the core reads: `name`, `status` (absent on errors
      that do not come from `http-errors`) and `message`. */
  datatype Error = Error(name: string, status: Option<int>, message: Message)

  /** The status codes the core passes to `createError`. */
  datatype HttpStatus = BadRequest | Unauthorized | NotFound | InternalServerError {
    function Code(): int {
      match this
      case BadRequest => 400
      case Unauthorized => 401
      case NotFound => 404
      case InternalServerError => 500
    }
    /** The class name `http-errors` gives the error it creates for this status. */
    function ClassName(): string {
      match this
      case BadRequest => "BadRequestError"
      case Unauthorized => "UnauthorizedError"
      case NotFound => "NotFoundError"
      case InternalServerError => "InternalServerError"
    }
  }

  /** `createError(status, message)`: the error carries the class name `http-errors` gives the
      status, the code and the message; the name alone tells the status back. */
  function CreateError(s: HttpStatus, m: Message): (e: Error)
    ensures e.status == Some(s.Code()) && e.message == m && e.name == s.ClassName()
    ensures e.name == "BadRequestError" <==> s == BadRequest
    ensures e.name == "UnauthorizedError" <==> s == Unauthorized
    ensures e.name == "NotFoundError" <==> s == NotFound
    ensures e.name == "InternalServerError" <==> s == InternalServerError
  {
    Error(s.ClassName(), Some(s.Code()), m)
  }

  /** The `http-errors` table for the statuses the core uses: each code has its own class name,
      and two created errors with the same name have the same status. */
  lemma StatusTable(s: HttpStatus, t: HttpStatus, m: Message, n: Message)
    ensures CreateError(s, m).status == Some(400) <==> CreateError(s, m).name == "BadRequestError"
    ensures CreateError(s, m).status == Some(401) <==> CreateError(s, m).name == "UnauthorizedError"
    ensures CreateError(s, m).status == Some(404) <==> CreateError(s, m).name == "NotFoundError"
    ensures CreateError(s, m).status == Some(500) <==> CreateError(s, m).name == "InternalServerError"
    ensures CreateError(s, m).name == CreateError(t, n).name <==> CreateError(s, m).status == CreateError(t, n).status
  {
  }

  /** An error raised outside this code: it carries a name but no status. */
  function Raw(name: string): Error
  {
    Error(name, None, Native(name))
  }

  /** `findById` rejected: the id did not cast to an ObjectId. */
  const CastError: Error := Raw("CastError")
  /** A property was read on `null` or `undefined`. */
  const TypeError: Error := Raw("TypeError")
  /** A required path was missing when a document was saved. */
  const ValidationError: Error := Raw("ValidationError")
  /** A unique index rejected an insert (duplicate key). */
  const MongoError: Error := Raw("MongoError")

  /** The trailing `.catch(err => Promise.reject(createError(404, err.message)))`. */
  function NotFoundFrom(cause: Error): (e: Error)
    ensures e.status == Some(404) && e.name == "NotFoundError" && e.message == cause.message
  {
    CreateError(NotFound, cause.message)
  }

  /** How a promise returned by a model function settles. */
  datatype Promise<+T> = Resolved(value: T) | Rejected(error: Error)

  /** What an Express middleware passes to `next`, one entry per call (`None` is `next()`). */
  class Next {
    var calls: seq<Option<Error>>
    constructor ()
      ensures calls == []
    {
      calls := [];
    }
  }

  /** A response that was sent: `res.status(status).send(body)`. */
  datatype Reply = Reply(status: int, body: string)

  class Response {
    var sent: seq<Reply>
    constructor ()
      ensures sent == []
    {
      sent := [];
    }
  }
}
