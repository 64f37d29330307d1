/** Result types shared by the models: `Option` for a value that may be nil, and
    `Result` for Ruby code that may raise. */
module Wrappers {

  datatype Option<+T> = None | Some(value: T)

  /** `Raised` stands for any exception; which one never matters to the callers modelled here. */
  datatype Result<+T> = Ok(value: T) | Raised {
    predicate IsFailure() { Raised? }

    function PropagateFailure<U>(): Result<U>
      requires Raised?
    {
      Raised
    }

    function Extract(): T
      requires Ok?
    {
      value
    }
  }
}
