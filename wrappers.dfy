/** Option and Result, and the exceptions the modelled Python code can raise. */
module Wrappers {

  datatype Option<+T> = None | Some(value: T)

  datatype Result<+R, +E> = Success(value: R) | Failure(error: E)

  /** The Python exceptions (and the process exit) that the core can end in. */
  datatype Error =
    | AssertionFailed                 // a failed `assert`
    | KeyNotFound(key: string)        // `KeyError` from a dict lookup
    | InvalidLiteral(text: string)    // `ValueError` from `int(text)`
    | ProcessFailed(exitCode: int)    // `CalledProcessError` from `subprocess.run(check=True)`
    | NotSubscriptable                // `TypeError` from indexing `None`
}
