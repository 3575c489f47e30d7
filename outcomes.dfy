/** Small value wrappers shared by every component: an optional value, and the
    two shapes of answer the hosted database client gives back. */
module Outcomes {

  datatype Option<+T> = None | Some(value: T)

  /** The answer to an insert or update followed by `.select().single()`:
      either the stored row or an error. */
  datatype Response<+T> = Ok(row: T) | Err

  /** The answer to a call whose result carries no row (delete, a bare update or insert). */
  datatype Ack = Done | Failed
}
