/**
 * Outcomes shared by the gateway model: an Option type, the causes of the
 * unhandled exceptions that the web framework turns into a 500 reply, and
 * the `HTTPException`s the handlers raise on purpose.
 */
module Outcomes {

  datatype Option<T> = None | Some(value: T)

  /** Why a request ended in an exception that no handler catches. */
  datatype Cause =
    | UpstreamUnreachable   // `requests.post` raised a connection error
    | ReplyNotJson          // `response.json()` raised on a body that is not JSON
    | NonAsciiPlaintext     // `str.encode('ascii')` raised UnicodeEncodeError
    | StoreUnreachable      // the token store could not be reached by `exists`

  /** The `detail` of an `HTTPException`. */
  datatype Detail =
    | Text(message: string)   // a plain message such as "Not authorized."
    | ErrorObject(status: int) // the `requests` HTTPError object itself
    | ErrorString(status: int) // the text of that HTTPError (`str(err)`)

  datatype ApiError =
    | Http(status: int, detail: Detail)  // an HTTPException raised by a handler
    | Internal(cause: Cause)             // an uncaught exception: a 500 reply

  datatype Result<T> = Ok(value: T) | Err(error: ApiError)
}
