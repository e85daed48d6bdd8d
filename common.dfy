/** Failure-carrying wrappers shared by the task model. */
module Common {

  /** A value that may be missing: `null` in the database, absent in a query. */
  datatype Option<+T> = None | Some(value: T)

  /** Either a value or the error the service throws instead of returning one. */
  datatype Result<+T, +E> = Ok(value: T) | Err(error: E)
}
