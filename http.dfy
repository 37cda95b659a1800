/**
 * What the services hand back to the HTTP layer: a reply with a status code, or an
 * exception that the service's `catch` block re-throws as an `HttpException`.
 */
module Http {
  import opened Wrappers

  const OK := 200
  const CREATED := 201
  const BAD_REQUEST := 400
  const UNAUTHORIZED := 401
  const NOT_FOUND := 404
  const NOT_ACCEPTABLE := 406
  const INTERNAL_SERVER_ERROR := 500

  /** The message texts of src/helper/message.ts and the literals of the services, as tags. */
  datatype Message =
    | EmailAlreadyExists          // EMAIL_ALREADY_EXISTS_MESSAGE
    | PhoneAlreadyExists          // PHONE_ALREADY_EXISTS_MESSAGE
    | UserNotFound                // USER_NOT_FOUND_MESSAGE
    | UserCreated                 // USER_CREATED_MESSAGE
    | UserUpdated                 // USER_UPDATED_MESSAGE
    | UserDeleted                 // USER_DELETED_MESSAGE
    | UsersRetrieved              // the literal 'Users retrieved successfully'
    | EmailCredential             // EMAIL_CREDENTIAL_MESSAGE
    | InvalidPasswordCredentials  // INVALID_PASSWORD_CREDENTIALS_MESSAGE
    | EmailNotFound               // the literal 'Email not found'
    | ForgotPasswordEmailSent     // the literal 'Forgot password email sent'
    | UserPasswordUpdated         // USER_PASSWORD_UPDATED_MESSAGE
    | LinkExpire                  // LINK_EXPIRE
    | PasswordInvalid             // PASSWORD_INVALID
    | TokenRejected               // the message of the error jwt.verify throws
    | NoUserForToken              // the message of the TypeError raised by destructuring a null user

  /** The class of the object a service throws before its `catch` block re-wraps it. */
  datatype ErrorKind =
    | BadRequest    // BadRequestException
    | NotFound      // NotFoundException, or an HttpException built from one
    | Unauthorized  // UnauthorizedException
    | JwtError      // JsonWebTokenError from jsonwebtoken
    | TypeError     // a JavaScript TypeError

  /** The HTTP status a Nest exception of this kind carries in its `status` field. */
  function StatusField(kind: ErrorKind): Option<int> {
    match kind
    case BadRequest => Some(BAD_REQUEST)
    case NotFound => Some(NOT_FOUND)
    case Unauthorized => Some(UNAUTHORIZED)
    case JwtError => None
    case TypeError => None
  }

  /** The re-thrown `HttpException`: its kind of origin, its message, and the status the client sees. */
  datatype HttpError = HttpError(kind: ErrorKind, message: Message, status: int)

  /**
   * The `catch` blocks of the services: `error.status || fallback` when `readsStatus`, and
   * `error.statusCode || fallback` otherwise. No thrown object has a `statusCode` field, so the
   * second form always falls back.
   */
  function Rethrow(kind: ErrorKind, message: Message, readsStatus: bool, fallback: int): (e: HttpError)
    ensures e.kind == kind && e.message == message
    ensures !readsStatus ==> e.status == fallback
    ensures readsStatus && kind == BadRequest ==> e.status == BAD_REQUEST
    ensures readsStatus && kind == NotFound ==> e.status == NOT_FOUND
    ensures readsStatus && kind == Unauthorized ==> e.status == UNAUTHORIZED
    ensures readsStatus && (kind == JwtError || kind == TypeError) ==> e.status == fallback
  {
    HttpError(kind, message, if readsStatus then StatusField(kind).GetOr(fallback) else fallback)
  }

  /** A successful reply `{ statusCode, message?, data? }`. */
  datatype Reply<T> = Reply(status: int, message: Option<Message>, data: T)

  datatype Outcome<T> = Done(reply: Reply<T>) | Thrown(error: HttpError)
}
