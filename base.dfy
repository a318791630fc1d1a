/** Option, Result and the error value that Express forwards with next(error). */
module Base {

  datatype Option<+T> = None | Some(value: T)

  /** A thrown JavaScript error: its `name` (e.g. "ValidationError") and its `message`. */
  datatype Error = Error(name: string, message: string)

  datatype Result<+T> = Ok(value: T) | Err(error: Error)

  /** The error MongoDB raises when a unique index (here `_id` or `subscriptionId`) would be violated. */
  const DuplicateKey := Error("MongoServerError", "E11000 duplicate key error")
}
