/** The exceptions the core throws, as values. A C# method that throws becomes one that
    returns `Err`/`Fail`; callers propagate them the way an uncaught exception would. */
module Errors {

  /** The string of an argument error is .NET's `ParamName` where the core passes one
      ("behaviorType" in GetBehavior and FindActorsWithBehavior, "templateName" in
      InstantiateTemplate). Where the throw carries a message only, so that `ParamName` is null
      (RemoveAnimation, SetCurrentAnimation, and the duplicate key of AddAnimation's
      `Dictionary.Add`), it names the argument the message blames. */
  datatype Error =
    | ArgumentError(paramName: string)        // System.ArgumentException
    | ArgumentOutOfRange(paramName: string)   // System.ArgumentOutOfRangeException (List<T> indexer, RemoveAt)
    | NullReference                            // System.NullReferenceException

  datatype Result<T> = Ok(value: T) | Err(error: Error) {
    predicate IsFailure() { Err? }
    function PropagateFailure<U>(): Result<U>
      requires Err?
    {
      Err(error)
    }
    function Extract(): T
      requires Ok?
    {
      value
    }
  }

  datatype Outcome = Pass | Fail(error: Error) {
    predicate IsFailure() { Fail? }
    function PropagateFailure(): Outcome
      requires Fail?
    {
      this
    }
  }
}
