/** Failure-carrying results shared by every module of the model. */
module Wrappers {

  /** A value that may be absent (`undefined` in the source). */
  datatype Option<+T> = None | Some(value: T)

  /**
   * The outcome of an operation that the source may abort by throwing or by
   * failing an `assert` from `@ember/debug`; `msg` is the error text.
   */
  datatype Result<+T> = Ok(value: T) | Err(msg: string)

  /** The outcome of a check that yields no value. */
  datatype Outcome = Pass | Fail(msg: string)

  /** A prefix grows by the next element. */
  lemma PrefixStep<T>(s: seq<T>, i: nat)
    requires i < |s|
    ensures s[..i + 1] == s[..i] + [s[i]]
  {
  }
}
