/**
 * The parts of the Java runtime the modelled classes lean on: the exceptions
 * they throw or let escape, result wrappers standing for "returns normally or
 * throws", and System.arraycopy.
 *
 * Convention used throughout the model: an exception the source throws with an
 * explicit `throw` (or one a library call documents, such as a failed parse)
 * is an error value; an index the JVM bounds-checks (array indexing and
 * System.arraycopy) is a precondition.
 */
module Runtime {

  datatype Exception =
    | IllegalArgument
    | IllegalState
    | UnsupportedOperation
    | IndexOutOfBounds
    | NullPointer
    | NumberFormat
    | Arithmetic
    | BufferOverflow
    | IO

  datatype Option<+T> = None | Some(value: T)

  /** A call that either returns a value or throws. */
  datatype Result<+T> = Ok(value: T) | Err(error: Exception)
  {
    predicate IsFailure() { Err? }

    function PropagateFailure<U>(): Result<U>
      requires Err?
    {
      Err(error)
    }

    function Extract(): T
      requires Ok?
    {
      value
    }
  }

  /**
   * Float multiplication, modelled as the exact product of reals. Element
   * arithmetic in the specifications goes through this function.
   */
  function Mul(x: real, y: real): real
  {
    x * y
  }

  /** A call with no result value that either completes or throws. */
  datatype Outcome = Pass | Fail(error: Exception)

  /**
   * System.arraycopy: copies count cells of src starting at srcPos into dst
   * starting at dstPos, behaving as if through a temporary copy, so that
   * src and dst may be the same array.
   */
  method ArrayCopy<T>(src: array<T>, srcPos: nat, dst: array<T>, dstPos: nat, count: nat)
    requires srcPos + count <= src.Length && dstPos + count <= dst.Length
    modifies dst
    ensures dst[..] == old(dst[..dstPos]) + old(src[srcPos..srcPos + count]) + old(dst[dstPos + count..])
  {
    var tmp := src[srcPos..srcPos + count];
    var i := 0;
    while i < count
      invariant 0 <= i <= count
      invariant dst[..dstPos] == old(dst[..dstPos])
      invariant dst[dstPos..dstPos + i] == tmp[..i]
      invariant dst[dstPos + count..] == old(dst[dstPos + count..])
      invariant forall k :: dstPos + i <= k < dstPos + count ==> dst[k] == old(dst[k])
    {
      dst[dstPos + i] := tmp[i];
      i := i + 1;
    }
    assert dst[..] == dst[..dstPos] + dst[dstPos..dstPos + count] + dst[dstPos + count..];
  }
}
