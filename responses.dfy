/** The error responses the controllers return instead of a result. */
module Responses {
  datatype HttpError = NotFound(message: string) | BadRequest(message: string)
}
