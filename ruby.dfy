/** Ruby-level values the model needs: nil-or-value, exceptions, and the
    outcome of a step of user or framework code that may raise. */
module Ruby {

  /** `nil` (None) or an object (Some). */
  datatype Option<+T> = None | Some(value: T)

  /** An exception object: the ArgumentError this library raises itself,
      or one raised by code the library calls (a block, a proc, Rails). */
  datatype Exception = ArgumentError(message: string) | Error(description: string)

  /** How a call into code outside this library ends. */
  datatype Step = Completes | Fails(error: Exception)

  /** How a block ends: it finishes (falls off its end or uses `next`), it
      leaves with `break`, which makes the yielding method return at once,
      or it raises. */
  datatype BlockExit = Finishes | Breaks | RaisesOut(error: Exception)
}
