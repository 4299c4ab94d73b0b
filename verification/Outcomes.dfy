/** Results of operations that may fail, and values that may be missing. */
module Outcomes {

  /** The outcome of a call: a result, or a failed assertion, dictionary lookup or conversion. */
  datatype Outcome<+T> = Ok(value: T) | Crash {
    predicate IsFailure() { Crash? }
    function PropagateFailure<U>(): Outcome<U> requires Crash? { Crash }
    function Extract(): T requires Ok? { value }
  }

  datatype Option<+T> = None | Some(value: T)
}
