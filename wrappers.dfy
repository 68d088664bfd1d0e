/** Success/failure carriers shared by every stage of the pipeline. */
module Wrappers {

  datatype Option<+T> = None | Some(value: T)

  /** The `anyhow::Result` of the compiler: a value or the error that stopped a stage. */
  datatype Result<+T, +E> = Ok(value: T) | Err(error: E)
}
