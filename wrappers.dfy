/** Option and Result, the two failure-carrying shapes the model returns. */
module Wrappers {

  datatype Option<+T> = None | Some(value: T)

  /** What a store call reports instead of a value. */
  datatype Error =
    | NotAnInteger   // INCR/HINCRBY on a value that is not an integer, or a reply that is not one
    | NoSuchKey      // RENAME of a key that does not exist
    | NilReply       // a nil reply read as a number or a string
    | Panicked       // an `.unwrap()` in the caller gave up

  datatype Result<+T> = Ok(value: T) | Err(error: Error)
}
