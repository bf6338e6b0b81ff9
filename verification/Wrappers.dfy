/** The result datatypes that stand for null pointers and exceptions. */
module Wrappers {

  /** A `shared_ptr` that may be null. */
  datatype Option<+T> = None | Some(value: T)

  /** The exceptions the queue classes throw. */
  datatype Error =
    | QueueShutDown
    | CouldNotLoadQueueFile(path: string)
    | MalformedRecord(path: string)

  datatype Result<+T> = Success(value: T) | Failure(error: Error)
}
