/** Option and Result, and the error type shared by every component. */
module Wrappers {

  datatype Option<+T> = None | Some(value: T)

  datatype Result<+T, +E> = Success(value: T) | Failure(error: E) {
    predicate IsFailure() {
      Failure?
    }

    function PropagateFailure<U>(): Result<U, E>
      requires Failure?
    {
      Failure(error)
    }

    function Extract(): T
      requires Success?
    {
      value
    }
  }
}

/** The error cases of the crate; message texts are dropped, payloads that callers match on are kept. */
module Errors {

  datatype Error =
    | Plog                                            // raised by the provenance-log crate
    | PlogVerifyFailed
    | PathNotFound(path: string)
    | Encoding
    | InvalidOp
    | ChallengeNotFound(id: string)
    | HeadMismatch(expected: string, current: string)
    | AccountNotCached(hashPrefix: string)
}

/** Sequences taken apart at their last element, the way loops build them up. */
module Sequences {

  function Last<T>(s: seq<T>): T
    requires s != []
  {
    s[|s| - 1]
  }

  function Init<T>(s: seq<T>): seq<T>
    requires s != []
  {
    s[..|s| - 1]
  }

  /** Appending and then looking at the parts gives the parts back. */
  lemma SnocParts<T>(s: seq<T>, x: T)
    ensures Last(s + [x]) == x && Init(s + [x]) == s
  {
  }

  /** One more step of a loop over `s`. */
  lemma TakeSnoc<T>(s: seq<T>, i: nat)
    requires i < |s|
    ensures s[..i + 1] == s[..i] + [s[i]]
    ensures Last(s[..i + 1]) == s[i] && Init(s[..i + 1]) == s[..i]
  {
  }
}
