/**
 * Error values that reach the error-handling chain: rejections the core builds
 * itself (`{ status, msg }`) and errors raised by PostgreSQL (`{ code }`, a SQLSTATE).
 */
module Errors {

  /** A field that is absent reads as `""` (code, msg) or `0` (status): both falsy in JS. */
  datatype ErrorValue = ErrorValue(code: string, status: int, msg: string)

  /** `Promise.reject({ status, msg })`. */
  function Rejection(status: int, msg: string): ErrorValue
  {
    ErrorValue("", status, msg)
  }

  /** An error from the database driver: it carries a SQLSTATE code and no status or msg. */
  function DbError(code: string): ErrorValue
  {
    ErrorValue(code, 0, "")
  }

  // SQLSTATE codes PostgreSQL raises for the statements of the core.
  const InvalidTextRepresentation := "22P02"
  const ForeignKeyViolation := "23503"
  const UniqueViolation := "23505"
  const InvalidRowCountInLimit := "2201W"
  const InvalidRowCountInOffset := "2201X"
}
