/**
 * The API's database-error mapping (`apps/api/utils/index.ts`): a SQLite result
 * code becomes an application error, an application error becomes an API
 * error, and `handleDatabaseErr` always ends by throwing one of them.
 *
 * The application error type itself (`apps/api/errors/index.ts`) is not part
 * of this model: its kinds are the ones the mapping names, plus `NotFound` and
 * `Unauthorized`, which the controllers raise and the mapping does not name.
 */
module ApiErrors {

  /** The kinds of application error. */
  datatype AppErrorKind =
    | AlreadyExists
    | InvalidArgument
    | Unavailable
    | PermissionDenied
    | Unimplemented
    | InternalError
    | NotFound
    | Unauthorized

  datatype AppError = AppError(kind: AppErrorKind, message: string)

  /** The error codes of the API framework that the mapping produces. */
  datatype ErrCode = AlreadyExistsCode | InvalidArgumentCode | UnavailableCode | PermissionDeniedCode | UnimplementedCode | InternalCode

  datatype ApiError = ApiError(code: ErrCode, message: string)

  /** `handleLibsqlError`: one application error per SQLite code, `internal` for any code it does not name. */
  function HandleLibsqlError(code: string): (r: AppError)
    ensures r.message != ""
    ensures r.kind == AlreadyExists <==> code == "SQLITE_CONSTRAINT_UNIQUE"
    ensures r.kind == Unavailable <==> code == "SQLITE_BUSY"
  {
    if code == "SQLITE_CONSTRAINT_UNIQUE" then AppError(AlreadyExists, "Duplicate name")
    else if code == "SQLITE_ERROR" then AppError(InternalError, "Internal err")
    else if code == "SQLITE_CONSTRAINT_NOTNULL" then AppError(InvalidArgument, "A required field was null")
    else if code == "SQLITE_BUSY" then AppError(Unavailable, "Database is busy, try again")
    else if code == "SQLITE_CANTOPEN" then AppError(InternalError, "Could not open database file")
    else if code == "SQLITE_READONLY" then AppError(PermissionDenied, "Database is read-only")
    else if code == "SQLITE_MISMATCH" then AppError(InternalError, "Type mismatch in query")
    else if code == "SQLITE_AUTH" then AppError(PermissionDenied, "Not authorized")
    else if code == "SQLITE_NOTADB" then AppError(InternalError, "File is not a valid SQLite database")
    else if code == "SQLITE_CORRUPT" then AppError(InternalError, "Database file is corrupt")
    else if code == "SQLITE_TOOBIG" then AppError(InternalError, "Query or data too large")
    else if code == "SQLITE_RANGE" then AppError(InvalidArgument, "Parameter index out of range")
    else if code == "SQLITE_CONSTRAINT" then AppError(InvalidArgument, "Database constraint violated")
    else AppError(InternalError, "Unhandled SQLite error: " + code)
  }

  /**
   * A unique-constraint violation is "already exists"; a not-null, range or
   * other constraint violation is an invalid argument; a busy database is
   * unavailable; a read-only database and an authorisation failure are
   * permission denied; every other code, named or not, is internal.
   */
  lemma LibsqlErrorKinds(code: string)
    ensures HandleLibsqlError(code).kind == AlreadyExists <==> code == "SQLITE_CONSTRAINT_UNIQUE"
    ensures HandleLibsqlError(code).kind == InvalidArgument <==>
      code == "SQLITE_CONSTRAINT_NOTNULL" || code == "SQLITE_RANGE" || code == "SQLITE_CONSTRAINT"
    ensures HandleLibsqlError(code).kind == Unavailable <==> code == "SQLITE_BUSY"
    ensures HandleLibsqlError(code).kind == PermissionDenied <==> code == "SQLITE_READONLY" || code == "SQLITE_AUTH"
    ensures HandleLibsqlError(code).kind in {AlreadyExists, InvalidArgument, Unavailable, PermissionDenied, InternalError}
  {
  }

  /** A code the mapping does not name is reported with the code in the message. */
  lemma UnhandledCodeMessage(code: string)
    requires code !in ["SQLITE_CONSTRAINT_UNIQUE", "SQLITE_ERROR", "SQLITE_CONSTRAINT_NOTNULL", "SQLITE_BUSY",
                       "SQLITE_CANTOPEN", "SQLITE_READONLY", "SQLITE_MISMATCH", "SQLITE_AUTH", "SQLITE_NOTADB",
                       "SQLITE_CORRUPT", "SQLITE_TOOBIG", "SQLITE_RANGE", "SQLITE_CONSTRAINT"]
    ensures HandleLibsqlError(code) == AppError(InternalError, "Unhandled SQLite error: " + code)
  {
  }

  /** `mapAppErrorToAPIError` */
  function MapAppErrorToApiError(error: AppError): (r: ApiError)
    ensures r.message == error.message
  {
    var code := match error.kind
      case AlreadyExists => AlreadyExistsCode
      case InvalidArgument => InvalidArgumentCode
      case Unavailable => UnavailableCode
      case PermissionDenied => PermissionDeniedCode
      case Unimplemented => UnimplementedCode
      case _ => InternalCode;
    ApiError(code, error.message)
  }

  /**
   * The API error keeps the message, carries the code of the same name for
   * the five named kinds, and is internal for every other kind.
   */
  lemma MapAppErrorKeeps(error: AppError)
    ensures var api := MapAppErrorToApiError(error);
      api.message == error.message &&
      (error.kind == AlreadyExists ==> api.code == AlreadyExistsCode) &&
      (error.kind == InvalidArgument ==> api.code == InvalidArgumentCode) &&
      (error.kind == Unavailable ==> api.code == UnavailableCode) &&
      (error.kind == PermissionDenied ==> api.code == PermissionDeniedCode) &&
      (error.kind == Unimplemented ==> api.code == UnimplementedCode) &&
      (api.code == InternalCode <==> error.kind !in {AlreadyExists, InvalidArgument, Unavailable, PermissionDenied, Unimplemented})
  {
  }

  /** What `handleDatabaseErr` can be given: a query error with its cause, or anything else. */
  datatype Cause = LibsqlError(code: string) | OtherCause
  datatype Thrown = DrizzleQueryError(cause: Cause) | OtherThrown

  /**
   * `handleDatabaseErr` never returns: the result is the error it throws.
   * Only a query error caused by a SQLite error is mapped by its code.
   */
  function HandleDatabaseErr(err: Thrown): (thrown: AppError)
    ensures !err.DrizzleQueryError? || !err.cause.LibsqlError? ==> thrown == AppError(InternalError, "Internal error")
    ensures err.DrizzleQueryError? && err.cause.LibsqlError? ==> thrown == HandleLibsqlError(err.cause.code)
  {
    if !err.DrizzleQueryError? then AppError(InternalError, "Internal error")
    else if !err.cause.LibsqlError? then AppError(InternalError, "Internal error")
    else HandleLibsqlError(err.cause.code)
  }

  /** Through both mappings, a unique-constraint violation reaches the client as "already exists" and a busy database as "unavailable". */
  lemma DatabaseErrToApi(code: string)
    ensures var api := MapAppErrorToApiError(HandleDatabaseErr(DrizzleQueryError(LibsqlError(code))));
      (api.code == AlreadyExistsCode <==> code == "SQLITE_CONSTRAINT_UNIQUE") &&
      (api.code == UnavailableCode <==> code == "SQLITE_BUSY") &&
      (api.code == PermissionDeniedCode <==> code == "SQLITE_READONLY" || code == "SQLITE_AUTH") &&
      (api.code == InvalidArgumentCode <==> code == "SQLITE_CONSTRAINT_NOTNULL" || code == "SQLITE_RANGE" || code == "SQLITE_CONSTRAINT") &&
      api.code != UnimplementedCode
  {
    LibsqlErrorKinds(code);
  }
}
