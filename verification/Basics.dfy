/** Types shared by the models. */
module Basics {
  datatype Option<+T> = None | Some(value: T)

  /** The outcome of a call that may raise an exception. */
  datatype Outcome<+T> = Ok(value: T) | Raised

  type byte = x: int | 0 <= x < 256

  function Min(a: int, b: int): int {
    if a < b then a else b
  }

  lemma {:induction false} Associates<T>(a: seq<T>, b: seq<T>, c: seq<T>)
    ensures a + (b + c) == (a + b) + c
  {
  }
}
