/** Failure-compatible result types used throughout the model. */
module Wrappers {

  /** An optional value: an absent parameter, or a parse that failed. */
  datatype Option<+T> = None | Some(value: T)

  /** A computation that either produced a value or raised an error (the
      error text is the message the Python exception would carry). */
  datatype Result<+T> = Success(value: T) | Failure(error: string)

  function Abs(x: real): (r: real)
    ensures r >= 0.0
    ensures r == x || r == -x
  {
    if x < 0.0 then -x else x
  }

  /** The indices a `for` loop over `range(n)` visits, in order. */
  function Range(n: int): seq<int>
    decreases n
  {
    if n <= 0 then [] else Range(n - 1) + [n - 1]
  }

  /** `range(n)` yields 0, 1, ..., n - 1, and nothing when n <= 0. */
  lemma {:induction false} RangeIndices(n: int)
    ensures |Range(n)| == if n < 0 then 0 else n
    ensures forall k :: 0 <= k < |Range(n)| ==> Range(n)[k] == k
    decreases n
  {
    if n > 0 {
      RangeIndices(n - 1);
    }
  }

  /** How many passes a loop over `range(n)` makes (`RangeIndices` says
      that pass k has index k). */
  function Passes(n: int): (r: nat)
    ensures r == |Range(n)|
  {
    RangeIndices(n);
    if n < 0 then 0 else n
  }

  /** Python's message when the variable of a `for` loop over an empty
      range is read after the loop. */
  const IUnbound: string := "cannot access local variable 'i' where it is not associated with a value"
}
