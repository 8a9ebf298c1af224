/**
 * Values shared by the back-end services: optional values, the outcome of an
 * operation that may throw, and the security context of the current request.
 */
module Common {

  /** A value that may be absent (Java `Optional`, a nullable reference, a
      TypeScript `undefined`). */
  datatype Option<+T> = None | Some(value: T)

  /** The result of a service call that returns a value or throws. */
  datatype Result<+T, +E> = Ok(value: T) | Err(error: E)

  /** The result of a `void` service call: it returns, or it throws. */
  datatype Outcome<+E> = Pass | Fail(error: E)

  /** A user login, the key the services use to identify users. */
  type Login = string

  /** A point in time as read from the clock; the services receive it as an argument. */
  type Instant = int

  /** Database identifiers (JPA `Long` keys). */
  type Id = nat

  /**
   * The security context of the current request: the login of the
   * authenticated user, if any, and whether that user holds ROLE_ADMIN.
   */
  datatype Caller = Caller(login: Option<Login>, admin: bool)

  /**
   * The exceptions the services throw, by kind: Spring's
   * `AccessDeniedException` with its message, JHipster's
   * `BadRequestAlertException` with its error key, `IllegalStateException`
   * and the not-found `RuntimeException` / `EntityNotFoundException` with their
   * messages (without the id or login some of them append), a plain
   * `RuntimeException` raised for a rule violation, the
   * `NoSuchElementException` of an `Optional.orElseThrow()` without argument,
   * and Spring Data's `IncorrectResultSizeDataAccessException`, thrown when a
   * query declared to return at most one entity finds several.
   */
  datatype ServiceError =
    | AccessDenied(message: string)
    | BadRequest(errorKey: string)
    | IllegalState(message: string)
    | NotFound(message: string)
    | Runtime(message: string)
    | NoSuchElement
    | IncorrectResultSize
}
