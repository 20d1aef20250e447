/** Optional values, fallible results, machine integers and sequences, for every module. */
module Wrappers {
  datatype Option<+T> = None | Some(value: T)

  /** A Go `(value, error)` pair: exactly one of the two is meaningful. */
  datatype Result<+T, +E> = Ok(value: T) | Err(error: E) {
    predicate IsFailure() {
      Err?
    }

    function PropagateFailure<U>(): Result<U, E>
      requires Err?
    {
      Err(error)
    }

    function Extract(): T
      requires Ok?
    {
      value
    }
  }

  /** Conversion to Go's uint8: the value wraps around at 256. */
  function Uint8(x: int): (b: int)
    ensures 0 <= b < 256
    ensures 0 <= x < 256 ==> b == x
  {
    x % 256
  }

  /** Counting in a uint8 is counting and wrapping at the end. */
  lemma Uint8Step(x: int)
    ensures Uint8(Uint8(x) + 1) == Uint8(x + 1)
  {
  }

  const MAX_INT: int := 0x7FFF_FFFF_FFFF_FFFF

  const WIDTH: int := 0x1_0000_0000_0000_0000

  /** Reduction to a 64-bit signed integer. */
  function Int64(x: int): (r: int)
    ensures -MAX_INT - 1 <= r <= MAX_INT
    ensures -MAX_INT - 1 <= x <= MAX_INT ==> r == x
  {
    (x + MAX_INT + 1) % WIDTH - MAX_INT - 1
  }

  /** Reduction to uint64. */
  function Uint64(x: int): int {
    x % WIDTH
  }

  lemma Uint64Add(x: int, y: int)
    ensures Uint64(Uint64(x) + y) == Uint64(x + y)
  {
  }

  lemma AppendAssociative<T>(x: seq<T>, y: seq<T>, z: seq<T>)
    ensures (x + y) + z == x + (y + z)
  {
  }
}
