/** Outcome types shared by every handler of the tracker. */
module Basics {

  datatype Option<+T> = None | Some(value: T)

  /** The failure kinds a handler answers with, one per HTTP status it sends. */
  datatype Error =
    | BadRequest    // 400
    | Unauthorized  // 401
    | Forbidden     // 403
    | NotFound      // 404
    | ServerError   // 500: a thrown exception or a failed schema validation

  datatype Result<+T> = Ok(value: T) | Err(error: Error)
}
