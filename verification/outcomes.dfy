/** Error codes, results and checked arithmetic, as the program returns them. */
module Outcomes {
  import opened Numbers

  /** The program's own errors, then the ones raised by the runtime it calls into. */
  datatype Error =
    | InvalidAccount
    | Unauthorized
    | AlreadyInitialized
    | ZeroAmount
    | NotFunding
    | OracleNotTerminal
    | NotCancelled
    | OracleResolved
    | WrongMint
    | NotFunded
    | PoolNotEmpty
    | NotActive
    | AlreadySettled
    | InvalidFee
    | FeeNotCollected
    | InvalidOutcome
    | ContributionsOpen
    | NotSettled
    | InvalidAiResponse
    | ArithmeticOverflow
    | TransferFailed
    | CpiFailed

  datatype Result<+T> = Ok(value: T) | Err(error: Error) {
    predicate IsFailure() { Err? }

    function PropagateFailure<U>(): Result<U>
      requires Err?
    {
      Err(error)
    }

    function Extract(): T
      requires Ok?
    {
      value
    }
  }

  datatype Option<+T> = None | Some(value: T)

  datatype Guard = Pass | Fail(error: Error) {
    predicate IsFailure() { Fail? }

    function PropagateFailure<U>(): Result<U>
      requires Fail?
    {
      Err(error)
    }
  }

  function Need(condition: bool, error: Error): Guard {
    if condition then Pass else Fail(error)
  }

  function CheckedMul(a: U128, b: U128): Result<U128> {
    if 0 <= a * b <= U128_MAX then Ok(a * b) else Err(ArithmeticOverflow)
  }

  function CheckedAdd(a: U128, b: U128): Result<U128> {
    if a + b <= U128_MAX then Ok(a + b) else Err(ArithmeticOverflow)
  }

  function ToU64(a: U128): Result<U64> {
    if a <= U64_MAX then Ok(a) else Err(ArithmeticOverflow)
  }

  function CheckedAdd64(a: U64, b: U64): Result<U64> {
    if a + b <= U64_MAX then Ok(a + b) else Err(ArithmeticOverflow)
  }
}
