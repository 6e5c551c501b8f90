/** Failure-compatible results, and blank texts, shared by every module of the model. */
module Outcomes {

  datatype Option<+T> = None | Some(value: T)

  /** A computed value, or the reason why there is none. */
  datatype Result<+T, +E> = Ok(value: T) | Err(error: E) {
    predicate IsFailure() {
      Err?
    }

    function PropagateFailure<U>(): Result<U, E>
      requires Err?
    {
      Err(error)
    }

    function Extract(): T
      requires Ok?
    {
      value
    }
  }

  /** What trimming takes away: the white space and line terminators of ECMAScript. */
  predicate IsWhite(c: char) {
    var code := c as int;
    9 <= code <= 13 || code == 0x20 || code == 0xA0 || code == 0x1680 || 0x2000 <= code <= 0x200A
    || code == 0x2028 || code == 0x2029 || code == 0x202F || code == 0x205F || code == 0x3000 || code == 0xFEFF
  }

  predicate Blank(s: string) {
    forall c <- s :: IsWhite(c)
  }
}
