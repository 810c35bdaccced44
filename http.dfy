/** What a route handler sends back: a status with a JSON body, or a status
    with the `{ error: { code, message, details } }` envelope. */
module Http {
  import opened Wrappers

  /** The `error.code` strings the routes use. */
  datatype ErrorCode =
    | ValidationError    // 'VALIDATION_ERROR'
    | LocationNotFound   // 'LOCATION_NOT_FOUND'
    | InternalError      // 'INTERNAL_ERROR'
    | InvalidCategory    // 'INVALID_CATEGORY'
    | DuplicateLocation  // 'DUPLICATE_LOCATION'
    | InvalidId          // 'INVALID_ID'
    | NotFound           // 'NOT_FOUND'
    | MissingFields      // 'MISSING_FIELDS'

  datatype Reply<+T, +D> =
    | Success(status: int, body: T)
    | Failure(status: int, code: ErrorCode, message: string, details: Option<D>)

  /** The detail type of routes whose errors carry none. */
  datatype NoDetails = NoDetails
}
