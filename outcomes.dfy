/** Shared vocabulary: optional values and the abstract outcome of a call into
    the browser driver or the file system. */
module Outcomes {

  datatype Option<T> = None | Some(value: T)

  /** The exception classes the script's `except` clauses distinguish.
      `OtherError` stands for every exception that is an instance of none of
      the three built-in classes named there (the driver's own error and
      timeout classes among them). */
  datatype ErrorKind = OSError | ValueError | RuntimeError | OtherError

  /** What one driver or file-system call did: returned, or raised. */
  datatype Outcome = Done | Raised(kind: ErrorKind)
}
