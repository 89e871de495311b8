/**
 * The exceptions the repository layer and its callers throw or catch:
 * the two domain exceptions of TodoService.Core/Exceptions and the framework
 * exceptions the infrastructure code raises or lets through.
 */
module Exceptions {

  /** HTTP status codes a DocumentClientException can carry that the code names. */
  const StatusBadRequest: int := 400
  const StatusNotFound: int := 404
  const StatusConflict: int := 409

  datatype Exception =
    | EntityNotFoundException
    | EntityAlreadyExistsException
      /** A failure reported by the document store, with its HTTP status code. */
    | DocumentClientException(statusCode: int)
    | ArgumentNullException(paramName: string)
    | ArgumentException(message: string)
    | NullReferenceException
}
