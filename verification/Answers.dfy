/** The failure-compatible types shared by the models: an optional value and the
    answer of an external call, which either carries a value or the code of the error
    that the original throws. */
module Answers {

  datatype Option<+T> = None | Some(value: T) {
    predicate IsFailure() { None? }

    function PropagateFailure<U>(): Option<U>
      requires None?
    {
      None
    }

    function Extract(): T
      requires Some?
    {
      value
    }
  }

  /** Error codes of the pool indexer that its control flow distinguishes. */
  datatype Code =
    | BudgetExhausted | IndexClosed | Reorg | IndexGap
    | RpcUnavailable | RpcRejected | LogsTooLarge
    | InvalidField | NotDeployed | Storage | Other

  datatype Answer<+T> = Ok(value: T) | Fail(code: Code) {
    predicate IsFailure() { Fail? }

    function PropagateFailure<U>(): Answer<U>
      requires Fail?
    {
      Fail(code)
    }

    function Extract(): T
      requires Ok?
    {
      value
    }
  }

  datatype Done = Done
}
