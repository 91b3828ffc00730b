/** The error middleware `errorHandler` (src/middlewares/error.middlewares.js):
    every exception a handler throws ends here and becomes the HTTP status and
    JSON body of the reply. */
module Errors {

  import opened Common

  /** What reaches the middleware: an ApiError thrown by a handler, or any other
      exception (a TypeError, a Mongoose error, an error from a library), with
      the properties the middleware reads: a foreign error's `statusCode` property
      is `code` (`None` when absent) and its `errors` property is `details`. */
  datatype Failure =
    | ApiError(statusCode: nat, message: string, errors: seq<string>, stack: string)
    | Foreign(code: Option<nat>, isMongooseError: bool, message: string,
              details: Option<seq<string>>, stack: string)

  /** The status and the JSON fields of the error reply. */
  datatype Reply = Reply(statusCode: nat, message: string, errors: seq<string>, stack: Option<string>)

  /** JavaScript truthiness of an optional number: present and not zero. */
  predicate TruthyNumber(n: Option<nat>) {
    n.Some? && n.value != 0
  }

  /** The status the middleware picks, as written: an ApiError keeps its own
      status; for anything else `error.statusCode || error instanceof mongoose.Error ? 500 : 400`
      parses as `(error.statusCode || error instanceof mongoose.Error) ? 500 : 400`. */
  function StatusAsWritten(e: Failure): (code: nat)
    ensures e.ApiError? ==> code == e.statusCode
    ensures e.Foreign? ==> (code == 500 <==> TruthyNumber(e.code) || e.isMongooseError)
    ensures e.Foreign? ==> (code == 400 <==> !TruthyNumber(e.code) && !e.isMongooseError)
  {
    match e
    case ApiError(code, _, _, _) => code
    case Foreign(code, mongoose, _, _, _) => if TruthyNumber(code) || mongoose then 500 else 400
  }

  /** The status the middleware evidently means to pick: a foreign error's own
      truthy `statusCode` is kept, and only errors without one get 500
      (Mongoose) or 400 (anything else). */
  function Status(e: Failure): (code: nat)
    ensures e.ApiError? ==> code == e.statusCode
    ensures e.Foreign? && TruthyNumber(e.code) ==> code == e.code.value
    ensures e.Foreign? && !TruthyNumber(e.code) ==> code == StatusAsWritten(e)
  {
    match e
    case ApiError(code, _, _, _) => code
    case Foreign(code, mongoose, _, _, _) =>
      if TruthyNumber(code) then code.value else if mongoose then 500 else 400
  }

  /** The two readings part exactly on foreign errors that carry a status code
      other than 500: as written, every such error is answered with 500. */
  lemma StatusAsWrittenDiffers(e: Failure)
    ensures StatusAsWritten(e) != Status(e)
        <==> e.Foreign? && TruthyNumber(e.code) && e.code.value != 500
  {
  }

  /** A concrete case: a body-parser error for malformed JSON carries
      `statusCode: 400`, and the middleware as written answers it with 500. */
  lemma MalformedJsonAnsweredWith500()
    ensures StatusAsWritten(Foreign(Some(400), false, "Unexpected token", None, "")) == 500
    ensures Status(Foreign(Some(400), false, "Unexpected token", None, "")) == 400
  {
  }

  /** `errorHandler`: the status of the reply, its message (the original
      error's), its `errors` list (`[]` when the foreign error has none) and
      its stack, present exactly in the development environment. */
  function HandleError(e: Failure, nodeEnv: string): (r: Reply)
    ensures r.statusCode == Status(e)
    ensures r.message == e.message
    ensures e.ApiError? ==> r.errors == e.errors
    ensures e.Foreign? && e.details.None? ==> r.errors == []
    ensures e.Foreign? && e.details.Some? ==> r.errors == e.details.value
    ensures r.stack.Some? <==> nodeEnv == "development"
    ensures r.stack.Some? ==> r.stack.value == e.stack
  {
    var errors := match e
      case ApiError(_, _, errs, _) => errs
      case Foreign(_, _, _, errs, _) => if errs.Some? then errs.value else [];
    Reply(Status(e), e.message, errors, if nodeEnv == "development" then Some(e.stack) else None)
  }

  /** The response of a handler whose `await` threw e: what the middleware replies. */
  function Thrown<T>(e: Failure): (r: Response<T>)
    ensures r.Error? && r.status == HandleError(e, "production").statusCode
    ensures r.message == e.message
  {
    Error(Status(e), e.message)
  }

  /** The TypeError JavaScript raises for `null.url`. */
  const NullUrlRead: Failure :=
    Foreign(None, false, "Cannot read properties of null (reading 'url')", None, "")
}
