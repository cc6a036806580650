/** Failure-carrying values shared by the service models. */
module Outcomes {

  datatype Option<+T> = None | Some(value: T)

  datatype Result<+T, +E> = Success(value: T) | Failure(error: E)

  /** The Python exceptions that leave the services. The HTTP layer turns a
      `ValueError` (a `json.JSONDecodeError` among them) into a 400 response
      and any other exception into a 500. */
  datatype PyError =
    | ValueError(message: string)
    | Exception(message: string)
      /** an exception raised by the HTTP client itself, such as a timeout
          or a refused connection; it is not a `ValueError` */
    | HttpError(message: string)

  /** The outcome of one HTTP GET: an answer with its status and body, or an
      exception raised by the client. */
  datatype HttpOutcome = Answered(status: int, text: string) | Raised(reason: string)
}
