/** Values shared by every controller: optional values, the authenticated
    caller, and the HTTP response a handler produces. */
module Common {

  datatype Option<+T> = None | Some(value: T) {
    function GetOr(default: T): T {
      match this
      case Some(v) => v
      case None => default
    }
  }

  /** The identity the token middleware attaches to a request. The handlers
      read it as `req.userId`, `req.user.id` or `req.user`; here it is one value.
      An absent `isSeller` claim is falsy and is written `false`. */
  datatype Caller = Caller(userId: int, isSeller: bool)

  /** The JSON body a handler sends: a payload, `{ error }`, `{ message }`,
      or `{ error }` holding a caught exception object, which serialises
      as `{}`. */
  datatype Body<+T> = Json(value: T) | Error(error: string) | Message(message: string) | ThrownError

  /** One `res.status(status).json(body)` call. */
  datatype Response<+T> = Response(status: int, body: Body<T>)

  function Ok<T>(value: T): Response<T> { Response(200, Json(value)) }
  function Created<T>(value: T): Response<T> { Response(201, Json(value)) }
  function Fail<T>(status: int, error: string): Response<T> { Response(status, Error(error)) }
}

/** The error object the role gates hand to `next`. Its class lives in
    utils/AppError.js, which is not part of this model: only the two
    constructor arguments are kept. */
module AppErrors {
  datatype AppError = AppError(message: string, statusCode: int)

  /** What a middleware does with `next`: call it bare, or call it with an
      error. A middleware returns exactly one of these, so `next` is called
      exactly once. */
  datatype NextCall = Next | NextWith(err: AppError)

  const ForbiddenPrefix := "You are not allowed to "

  /** The refusal both role gates produce for `action`: the message is the
      fixed prefix, the action verbatim, then "!". */
  function Forbidden(action: string): (e: AppError)
    ensures e.statusCode == 403
    ensures |e.message| == |ForbiddenPrefix| + |action| + 1
    ensures e.message[..|ForbiddenPrefix|] == ForbiddenPrefix
    ensures e.message[|ForbiddenPrefix|..|e.message| - 1] == action
    ensures e.message[|e.message| - 1] == '!'
  {
    AppError(ForbiddenPrefix + action + "!", 403)
  }

  /** The refusal names its action: two gates refusing with the same error
      were refusing the same action. */
  lemma ForbiddenNamesAction(a: string, b: string)
    ensures Forbidden(a) == Forbidden(b) ==> a == b
  {
    if Forbidden(a) == Forbidden(b) {
      var m := Forbidden(a).message;
      assert a == m[|ForbiddenPrefix|..|m| - 1] == b;
    }
  }
}
