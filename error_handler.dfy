/** The error-handling middleware: it maps an error raised by a route to an
    HTTP status and a JSON body, by the error's name; and the 404 answer for
    an unknown route. */
module ErrorHandler {
  import opened Common

  /** One entry of `err.errors`: the field at fault and what is wrong with it. */
  datatype FieldError = FieldError(path: string, message: string)

  /** The fields of an error the handler looks at. `status` and `message` are
      None when the error does not set them. */
  datatype AppError = AppError(name: string, errors: seq<FieldError>, status: Option<int>, message: Option<string>)

  /** One object of the `details` array. */
  datatype Detail = Detail(field: string, message: string)

  /** The answer: a status, the `error` text, the `details` array (empty when
      the body has none) and the `message` text of the foreign-key answer. */
  datatype Reply = Reply(status: int, error: string, details: seq<Detail>, message: Option<string>)

  const ValidationErrorName: string := "SequelizeValidationError"
  const UniqueConstraintErrorName: string := "SequelizeUniqueConstraintError"
  const ForeignKeyConstraintErrorName: string := "SequelizeForeignKeyConstraintError"
  const InternalServerError := 500

  /** `err.errors.map(e => ({ field: e.path, message: e.message }))`. */
  function Details(errors: seq<FieldError>): (ds: seq<Detail>)
    ensures |ds| == |errors|
    ensures forall i :: 0 <= i < |errors| ==> ds[i].field == errors[i].path && ds[i].message == errors[i].message
  {
    if errors == [] then []
    else [Detail(errors[0].path, errors[0].message)] + Details(errors[1..])
  }

  /** `errorHandler`: validation errors are 400 with one detail per
      underlying error, unique-constraint errors 409, foreign-key errors 400;
      anything else carries its own status when that is truthy (else 500)
      and its own message when that is non-empty (else a generic one). */
  function HandleError(err: AppError): (reply: Reply)
    ensures err.name == ValidationErrorName ==>
              reply == Reply(BadRequest, "Validation error", Details(err.errors), None)
    ensures err.name == UniqueConstraintErrorName ==>
              reply == Reply(Conflict, "Duplicate entry", Details(err.errors), None)
    ensures err.name == ForeignKeyConstraintErrorName ==>
              reply == Reply(BadRequest, "Invalid reference", [], Some("Referenced record does not exist"))
    ensures err.name !in {ValidationErrorName, UniqueConstraintErrorName, ForeignKeyConstraintErrorName} ==>
              && reply.status == (if err.status.Some? && err.status.value != 0 then err.status.value else InternalServerError)
              && reply.error == (if err.message.Some? && err.message.value != [] then err.message.value
                                 else "Internal server error")
              && reply.details == [] && reply.message == None
    ensures reply.status in {BadRequest, Conflict, InternalServerError}
            || (err.status.Some? && reply.status == err.status.value)
  {
    if err.name == ValidationErrorName then
      Reply(BadRequest, "Validation error", Details(err.errors), None)
    else if err.name == UniqueConstraintErrorName then
      Reply(Conflict, "Duplicate entry", Details(err.errors), None)
    else if err.name == ForeignKeyConstraintErrorName then
      Reply(BadRequest, "Invalid reference", [], Some("Referenced record does not exist"))
    else
      Reply(if err.status.Some? && err.status.value != 0 then err.status.value else InternalServerError,
            if err.message.Some? && err.message.value != [] then err.message.value else "Internal server error",
            [], None)
  }

  /** The three Sequelize errors are answered by name alone: whatever status
      or message they carry is ignored. */
  lemma SequelizeErrorsIgnoreStatus(err: AppError, status: Option<int>, message: Option<string>)
    requires err.name in {ValidationErrorName, UniqueConstraintErrorName, ForeignKeyConstraintErrorName}
    ensures HandleError(err.(status := status, message := message)) == HandleError(err)
  {
  }

  /** The details are the underlying errors in order: the detail list of a
      concatenation is the concatenation of the detail lists. */
  lemma {:induction false} DetailsConcat(a: seq<FieldError>, b: seq<FieldError>)
    ensures Details(a + b) == Details(a) + Details(b)
  {
    if a == [] {
      assert a + b == b;
    } else {
      assert (a + b)[1..] == a[1..] + b;
      DetailsConcat(a[1..], b);
    }
  }

  /** `notFound`: an unknown route is always answered 404. */
  function RouteNotFound(): (reply: Reply)
    ensures reply.status == NotFound && reply.error == "Route not found" && reply.details == []
  {
    Reply(NotFound, "Route not found", [], None)
  }
}
