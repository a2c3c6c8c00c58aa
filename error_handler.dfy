/**
 * The last middleware: every error a handler throws ends here and becomes
 * exactly one response, chosen by the error's class, its Prisma code and its
 * name.
 */
module ErrorHandler {
  import opened Wrappers
  import opened Json
  import opened Http
  import opened Store

  /** The class of a thrown value, as far as the handler tests it with `instanceof`. */
  datatype ErrorClass = KnownRequestError(code: string) | ValidationError | OtherClass

  /** A thrown value: its class, its `name` property (if any) and its extra data (`meta`, `flatten()`). */
  datatype Thrown = Thrown(cls: ErrorClass, name: Option<string>, extra: Json)

  /** What each store failure looks like when it is thrown. */
  function ThrownOf(f: Failure): (t: Thrown)
    ensures f.PrismaKnown? ==> t.cls == KnownRequestError(f.code)
    ensures f.PrismaValidation? ==> t.cls == ValidationError
    ensures f.Message? ==> t.cls == OtherClass && t.name == Some("Error")
  {
    match f
    case PrismaKnown(code) => Thrown(KnownRequestError(code), Some("PrismaClientKnownRequestError"), JNull)
    case PrismaValidation => Thrown(ValidationError, Some("PrismaClientValidationError"), JNull)
    case Message(_) => Thrown(OtherClass, Some("Error"), JNull)
  }

  /** The one response sent for a thrown error; the tests are made in this order. */
  function Handle<T>(err: Thrown): (r: Response<T>)
    ensures IsError(r) && r.status in {400, 404, 409, 500}
    ensures r.status == 409 <==> err.cls == KnownRequestError(UniqueViolation)
    ensures r.status == 404 <==> err.cls == KnownRequestError(RecordNotFound)
    ensures r.status == 500 <==>
              !err.cls.ValidationError? && err.name != Some("ZodError")
              && err.cls !in {KnownRequestError(UniqueViolation), KnownRequestError(ForeignKeyViolation), KnownRequestError(RecordNotFound)}
    ensures r.status == 409 ==> r.body == ErrorWithExtra("Unique constraint failed", err.extra)
    ensures r.status == 404 ==> r.body == ErrorWithExtra("Record not found", err.extra)
    ensures err.cls == KnownRequestError(ForeignKeyViolation) ==>
              r == Response(400, ErrorWithExtra("Invalid relation reference", err.extra))
    ensures err.cls.ValidationError? ==> r == Response(400, ErrorMessage("Invalid data for Prisma query"))
    ensures r.status == 400 && !err.cls.ValidationError? && err.cls != KnownRequestError(ForeignKeyViolation) ==>
              err.name == Some("ZodError") && r.body == ErrorWithExtra("Validation failed", err.extra)
    ensures r.status == 500 ==> r.body == ErrorMessage("Server error")
  {
    if err.cls.KnownRequestError? && err.cls.code == UniqueViolation then
      Response(409, ErrorWithExtra("Unique constraint failed", err.extra))
    else if err.cls.KnownRequestError? && err.cls.code == ForeignKeyViolation then
      Response(400, ErrorWithExtra("Invalid relation reference", err.extra))
    else if err.cls.KnownRequestError? && err.cls.code == RecordNotFound then
      Response(404, ErrorWithExtra("Record not found", err.extra))
    else if err.cls.ValidationError? then
      Response(400, ErrorMessage("Invalid data for Prisma query"))
    else if err.name == Some("ZodError") then
      Response(400, ErrorWithExtra("Validation failed", err.extra))
    else
      Response(500, ErrorMessage("Server error"))
  }

  /** A known-request error with any other code is not translated: it becomes a 500 unless it is named ZodError. */
  lemma OtherPrismaCodesAreServerErrors<T>(code: string, extra: Json)
    requires code !in {UniqueViolation, ForeignKeyViolation, RecordNotFound}
    ensures Handle<T>(Thrown(KnownRequestError(code), Some("PrismaClientKnownRequestError"), extra))
            == Response(500, ErrorMessage("Server error"))
  {
  }

  /** Failures raised by the store: the three known codes map to 409/400/404, a query shape error to 400. */
  lemma FailureStatus<T>(f: Failure)
    ensures f == PrismaKnown(UniqueViolation) ==> Handle<T>(ThrownOf(f)).status == 409
    ensures f == PrismaKnown(ForeignKeyViolation) ==> Handle<T>(ThrownOf(f)).status == 400
    ensures f == PrismaKnown(RecordNotFound) ==> Handle<T>(ThrownOf(f)).status == 404
    ensures f.PrismaValidation? ==> Handle<T>(ThrownOf(f)) == Response(400, ErrorMessage("Invalid data for Prisma query"))
    ensures f.Message? ==> Handle<T>(ThrownOf(f)) == Response(500, ErrorMessage("Server error"))
  {
  }
}
