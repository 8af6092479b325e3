/** `errorHandler`: the last middleware, turning an error into a response. */
module ErrorMiddleware {
  import opened Common

  /** The fields of a thrown error the handler reads. An absent or falsy
      `statusCode` (`undefined`, `0`) is `None` or `Some(0)`; an absent or
      empty `message` is `None` or `Some("")`. */
  datatype Err = Err(statusCode: Option<int>, message: Option<string>, isOperational: bool)

  /** `{ success, error: { message } }` */
  datatype ErrorBody = ErrorBody(success: bool, message: string)
  datatype ErrorResponse = ErrorResponse(status: int, body: ErrorBody)

  predicate TruthyStatus(s: Option<int>) { s.Some? && s.value != 0 }
  predicate TruthyMessage(m: Option<string>) { m.Some? && m.value != "" }

  function Handle(err: Err): (r: ErrorResponse)
    // The response never reports success, and its status is never the falsy 0.
    ensures !r.body.success
    ensures r.status != 0
    // Operational errors keep their own status and message where set.
    ensures err.isOperational && TruthyStatus(err.statusCode) ==> r.status == err.statusCode.value
    ensures err.isOperational && !TruthyStatus(err.statusCode) ==> r.status == 500
    ensures err.isOperational && TruthyMessage(err.message) ==> r.body.message == err.message.value
    ensures err.isOperational && !TruthyMessage(err.message) ==> r.body.message == "Something went wrong!"
    // Anything else is masked, whatever its status and message.
    ensures !err.isOperational ==> r.status == 500 && r.body.message == "Internal Server Error"
  {
    var status := if TruthyStatus(err.statusCode) then err.statusCode.value else 500;
    var message := if TruthyMessage(err.message) then err.message.value else "Something went wrong!";
    if err.isOperational then ErrorResponse(status, ErrorBody(false, message))
    else ErrorResponse(500, ErrorBody(false, "Internal Server Error"))
  }
}
