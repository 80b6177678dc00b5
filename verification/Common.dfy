/** Failure-carrying results shared by every module of the model. */
module Common {
  datatype Option<+T> = None | Some(value: T)

  /** The outcome of a call that can return an error in the source. */
  datatype Result<+T, +E> = Ok(value: T) | Err(error: E) {
    predicate IsFailure() {
      Err?
    }

    function PropagateFailure<U>(): (r: Result<U, E>)
      requires Err?
    {
      Err(error)
    }

    function Extract(): T
      requires Ok?
    {
      value
    }
  }

  type Byte = b: nat | b < 256

  type Bytes = seq<Byte>

  const TWO_63: int := 0x8000_0000_0000_0000
  const TWO_64: int := 0x1_0000_0000_0000_0000

  /** The int64 a Go program holds after computing the mathematical integer x. */
  function Wrap64(x: int): (r: int)
    ensures -TWO_63 <= r < TWO_63
    ensures -TWO_63 <= x < TWO_63 ==> r == x
    ensures (r - x) % TWO_64 == 0
  {
    (x + TWO_63) % TWO_64 - TWO_63
  }
}
