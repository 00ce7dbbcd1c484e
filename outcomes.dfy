/** Optional values and the failures the parsers raise.

    The Python code signals every failure with an exception; the model returns
    `Err` carrying the exception class that the source would raise at that point. */
module Outcomes {

  datatype Option<+T> = None | Some(value: T)

  /** The Python exception classes raised along the modelled paths. */
  datatype Failure =
    | AssertionFailed   // a failed `assert` statement
    | ValueError        // int()/float() of a malformed token, max() of an empty array, a shape mismatch
    | IndexError        // indexing a token list past its end
    | KeyError          // a dictionary lookup of a missing key
    | TypeError         // max() given fewer than two numbers, unpickling a missing record
    | AttributeError    // a stored field that is not a block dictionary
    | NotImplemented    // NotImplementedError
    | FileNotFound      // open() of a file that does not exist
    | Overflow          // int.to_bytes of a value that does not fit
    | Unchecked         // CSR arrays scipy expands without validating them (see CsrArrays.Expandable)

  /** A value or the exception that interrupted its computation; usable with `:-`. */
  datatype Result<+T> = Ok(value: T) | Err(failure: Failure) {
    predicate IsFailure() { Err? }

    function PropagateFailure<U>(): Result<U>
      requires Err?
    {
      Err(failure)
    }

    function Extract(): T
      requires Ok?
    {
      value
    }
  }
}
