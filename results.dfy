/** Failure-compatible wrappers. `Option` stands for a C# reference that may be
    null (or a LINQ `FirstOrDefault` that found nothing); `Result` for a call
    that either returns a value or throws. */
module Results {

  datatype Option<+T> = None | Some(value: T)

  datatype Result<+T, +E> = Ok(value: T) | Err(error: E)
}
