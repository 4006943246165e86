/** Outcome types shared by every service: optional values, the application error
    thrown with an HTTP status and a message, and the value a service hands to its
    success wrapper. */
module Outcomes {

  /** A value that may be missing: JavaScript `undefined` / `null`, or a store lookup that found nothing. */
  datatype Option<+T> = None | Some(value: T)

  /** An application error: the HTTP status code and the message it is thrown with. */
  datatype AppError = AppError(status: int, message: string)

  /** The data and message a service passes to `successResponse`; the envelope itself is not modelled. */
  datatype Response<+T> = Response(data: T, message: string)

  /** Either the value an operation produced or the application error it threw. */
  datatype Result<+T> = Ok(value: T) | Err(error: AppError)

  const BadRequest: int := 400
  const Unauthorized: int := 401
  const NotFound: int := 404
  const Conflict: int := 409
  const InternalServerError: int := 500

  /** JavaScript truthiness of an optional string: present and not the empty string. */
  predicate Truthy(s: Option<string>) {
    s.Some? && s.value != ""
  }
}
