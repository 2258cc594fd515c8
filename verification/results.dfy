/** Failure-compatible wrappers and the error taxonomy of the rule engine. */
module Results {

  datatype Option<+T> = None | Some(value: T)

  /** The compile-time errors of the engine. Evaluation itself never fails. */
  datatype Error =
    | UnsupportedToken(c: char)          // the lexer met a character no token starts with
    | UnknownSelection(name: string)     // the condition names a selection the rule lacks
    | UnknownModifier(modifier: string)  // a field key carries an unrecognised modifier
    | MalformedCondition(at: nat)        // grammar violation at this token position

  datatype Result<+T> = Ok(value: T) | Err(error: Error) {

    predicate IsFailure() {
      Err?
    }

    function PropagateFailure<U>(): Result<U>
      requires Err?
    {
      Err(error)
    }

    function Extract(): T
      requires Ok?
    {
      value
    }
  }
}
