/** Shared vocabulary of the service: optional values, results, the error kinds that
    travel from the storage layer up to the error middleware, and the HTTP status codes
    the handlers use. */
module Common {

  /** A record identifier. The database assigns them; the model stands for them by naturals. */
  type Id = nat

  datatype Option<+T> = None | Some(value: T)

  datatype Result<+R> = Success(value: R) | Failure(error: Error)

  /** The outcome of an operation that returns nothing (`Promise<void>`) but may throw. */
  datatype Outcome = Pass | Fail(error: Error)

  /** HTTP status codes used by the service. */
  const OK: int := 200
  const CREATED: int := 201
  const BAD_REQUEST: int := 400
  const NOT_FOUND: int := 404

  /** The message of the domain-level NotFound error. */
  const PIECE_NOT_FOUND_ERR: string := "Piece not found"

  /** The message of the plain `Error` the storage layer throws when an update targets no record. */
  const REPO_NOT_FOUND_MSG: string := "Piece non trouvé"

  /** The path of a schema field, used to label validation errors. */
  datatype Field =
    | PieceName | CompositorName | DurationMinutes | DateOfRelease | CompositorIsAlive
    | Instruments | DifficultyLevel | Styles | CompositorImageUrl

  function FieldPath(f: Field): string {
    match f
    case PieceName => "pieceName"
    case CompositorName => "compositorName"
    case DurationMinutes => "durationMinutes"
    case DateOfRelease => "dateOfRelease"
    case CompositorIsAlive => "compositorIsAlive"
    case Instruments => "instruments"
    case DifficultyLevel => "difficultyLevel"
    case Styles => "styles"
    case CompositorImageUrl => "compositorImageUrl"
  }

  /** One failed validator: the field's path and the schema's message for it. */
  datatype FieldError = FieldError(field: Field, message: string)

  /** The errors that are thrown through the layers.
      - RouteError: the service's typed error, carrying its own HTTP status;
      - PlainError: a bare `Error` (the storage layer's "Piece non trouvé", the ODM's refusal
        of a string where a document was expected);
      - ValidationError: the schema's verdict when `save()` refuses a document;
      - TypeError: the JavaScript runtime error raised by reading a property of a missing value;
      - ObjectParameterError: the ODM's refusal to build a document from a value that is not
        an object. */
  datatype Error =
    | RouteError(status: int, message: string)
    | PlainError(message: string)
    | ValidationError(errors: seq<FieldError>)
    | TypeError(message: string)
    | ObjectParameterError(message: string)

  /** The name the ODM gives a failed document validation of the Piece model. */
  const VALIDATION_PREFIX: string := "Piece validation failed"

  /** "path: message, path: message, ..." */
  function JoinErrors(es: seq<FieldError>): string {
    if es == [] then ""
    else
      var head := FieldPath(es[0].field) + ": " + es[0].message;
      if |es| == 1 then head else head + ", " + JoinErrors(es[1..])
  }

  /** `err.message` of each error kind. */
  function Message(e: Error): string {
    match e
    case RouteError(_, m) => m
    case PlainError(m) => m
    case ValidationError(es) => VALIDATION_PREFIX + ": " + JoinErrors(es)
    case TypeError(m) => m
    case ObjectParameterError(m) => m
  }

  /** The NotFound error every guard of the service raises. */
  const NotFound: Error := RouteError(NOT_FOUND, PIECE_NOT_FOUND_ERR)
}
