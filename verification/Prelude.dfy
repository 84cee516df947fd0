/** Result types and the arithmetic and window facts several cores share. */
module Prelude {

  datatype Option<+T> = None | Some(value: T)

  /** A value, or the exception that took its place. */
  datatype Result<+T, +E> = Ok(value: T) | Err(error: E) {
    predicate IsFailure() { Err? }

    function PropagateFailure<U>(): Result<U, E>
      requires Err?
    {
      Err(error)
    }

    function Extract(): T
      requires Ok?
    {
      value
    }
  }

  /** The last `n` elements (all of them if there are fewer): what a
      `deque(maxlen=n)` holds after they were appended in order. */
  function Last<T>(n: nat, s: seq<T>): (t: seq<T>)
    ensures |t| == if |s| <= n then |s| else n
    ensures |s| <= n ==> t == s
  {
    if |s| <= n then s else s[|s| - n..]
  }

  /** Appending to a window and cutting it again is the window of the whole. */
  lemma LastAppend<T>(n: nat, s: seq<T>, t: seq<T>)
    ensures Last(n, Last(n, s) + t) == Last(n, s + t)
  {
  }
}
