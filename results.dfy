/** The analyzer's failures, and the result types its builders return in
    place of raising an exception. */
module Results {
  import opened Terms

  datatype Option<+T> = None | Some(value: T) {
    function GetOr(default: T): T {
      match this
      case Some(v) => v
      case None => default
    }
  }

  /** Why building a method failed. Every one of them aborts the run. */
  datatype AnalyzerError =
    | UndefinedVariable(name: string)             // a name not in the environment
    | TypingError(expr: Term, expected: VarType)  // a term of the wrong sort
    | DuplicateVariable(name: string)             // a second declaration of a name
    | NonBooleanCondition(cond: Term)            // an `if` over a non-boolean term

  datatype Result<+T> = Ok(value: T) | Err(error: AnalyzerError) {
    predicate IsFailure() {
      Err?
    }

    function PropagateFailure<U>(): Result<U>
      requires Err?
    {
      Err(error)
    }

    function Extract(): T
      requires Ok?
    {
      value
    }
  }

  /** The result of a check or of a state change that returns nothing. */
  datatype Outcome = Pass | Fail(error: AnalyzerError) {
    predicate IsFailure() {
      Fail?
    }

    function PropagateFailure<U>(): Result<U>
      requires Fail?
    {
      Err(error)
    }
  }
}
