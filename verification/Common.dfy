/** Vocabulary shared by the models of the agent's reliability machinery. */
module Common {

  datatype Option<+T> = None | Some(value: T)

  /** A clock reading in seconds (Python's `time.time()`), without rounding. */
  type Time = real

  /** The two kinds of exception the tool pipeline tells apart. */
  datatype Exn =
    | ToolExecutionError(tool: string, retryable: bool)
    | OtherError(message: string)

  /** How an awaited coroutine, or a call that wraps one, ends. */
  datatype Outcome<+T> = Returned(value: T) | Raised(exn: Exn)
}
