/** lib/error-middleware.js: the response status and body chosen for an error, and the
    handler that sends it and calls `next()`. */
module ErrorMiddleware {
  import opened Ids
  import opened Http

  /** `if (err.status)`: a status of 0 is as good as none. */
  predicate HasStatus(err: Error) {
    err.status.Some? && err.status.value != 0
  }

  /** The reply sent for `err`. */
  function ReplyFor(err: Error): (r: Reply)
    // a status wins over every name, `ValidationError` included
    ensures HasStatus(err) ==> r == Reply(err.status.value, err.name)
    // without one, only a ValidationError is a client error
    ensures !HasStatus(err) ==> (r.status == 400 <==> err.name == "ValidationError")
    ensures !HasStatus(err) ==> r.status in {400, 500}
    ensures !HasStatus(err) ==> r.body == (if r.status == 400 then "BadRequestError" else "InternalServerError")
  {
    if HasStatus(err) then Reply(err.status.value, err.name)
    else
      var replaced := if err.name == "ValidationError" then CreateError(BadRequest, err.message)
                      else CreateError(InternalServerError, err.message);
      Reply(replaced.status.value, replaced.name)
  }

  /** Every error the linking operations wrap with `createError(404, ...)` is answered 404
      `NotFoundError`, whatever it wrapped. */
  lemma NotFoundIsAnswered404(cause: Error)
    ensures ReplyFor(NotFoundFrom(cause)) == Reply(404, "NotFoundError")
  {
  }

  /** The unwrapped errors that `Store.findByIdAndAddEmployee` passes on: a null store and a
      duplicate username become 500, a failed validation 400. */
  lemma UnwrappedErrorsAnswered()
    ensures ReplyFor(TypeError) == Reply(500, "InternalServerError")
    ensures ReplyFor(MongoError) == Reply(500, "InternalServerError")
    ensures ReplyFor(ValidationError) == Reply(400, "BadRequestError")
    ensures ReplyFor(CastError) == Reply(500, "InternalServerError")
  {
  }

  /** The handler: exactly one reply is sent and `next` is called exactly once, with no error. */
  method HandleError(err: Error, res: Response, next: Next)
    modifies res, next
    ensures res.sent == old(res.sent) + [ReplyFor(err)]
    ensures next.calls == old(next.calls) + [None]
  {
    var e := err;
    if e.status.Some? && e.status.value != 0 {
      res.sent := res.sent + [Reply(e.status.value, e.name)];
      next.calls := next.calls + [None];
      return;
    }
    if e.name == "ValidationError" {
      e := CreateError(BadRequest, e.message);
      res.sent := res.sent + [Reply(e.status.value, e.name)];
      next.calls := next.calls + [None];
      return;
    }
    e := CreateError(InternalServerError, e.message);
    res.sent := res.sent + [Reply(e.status.value, e.name)];
    next.calls := next.calls + [None];
  }
}
