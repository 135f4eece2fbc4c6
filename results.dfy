/** The success-or-error value returned by fallible operations: Rust's
    `Result<T, E>`. */
module Results {

  datatype Result<+T, +E> = Ok(value: T) | Err(error: E)

  /** The constraint system's `SynthesisError`, kept abstract: the model
      distinguishes only success from failure. */
  datatype SynthesisError = SynthesisError
}
