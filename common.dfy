/** Values shared by the whole model: optional values, error-carrying results
    and the fixed-width integer types of the source. */
module Common {

  /** A nullable value (`TimeSpan?` and the like). */
  datatype Option<+T> = None | Some(value: T)

  /** The outcome of an operation that throws in the source: `Err` carries the
      exception it would throw. */
  datatype Result<+T, +E> = Ok(value: T) | Err(error: E)

  /** C# `long`: guest addresses and stopwatch ticks. */
  newtype int64 = x: int | -0x8000_0000_0000_0000 <= x < 0x8000_0000_0000_0000

  /** C# `int`. */
  newtype int32 = x: int | -0x8000_0000 <= x < 0x8000_0000

  /** C# `byte`. */
  newtype byte = x: int | 0 <= x < 0x100

  /** Sum of a sequence of naturals. */
  function Sum(xs: seq<nat>): nat
  {
    if xs == [] then 0 else Sum(xs[..|xs| - 1]) + xs[|xs| - 1]
  }

  /** No element occurs twice. */
  predicate NoDuplicates<T(==)>(xs: seq<T>)
  {
    forall i, j :: 0 <= i < j < |xs| ==> xs[i] != xs[j]
  }
}
