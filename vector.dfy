/**
 * pl.tomaszkax86.math.Vector: a vector of floats held in a final array that
 * its methods update in place, and static helpers over float arrays.
 *
 * Floats are modelled as reals; sqrt is a parameter standing for the host's
 * `(float) Math.sqrt`, and normalisation's `1.0f / (float) Math.sqrt(sum)` is
 * one parameter as well. A count or index that the source only uses inside
 * a loop is an int, so a loop that runs zero times accepts any value; an
 * index the JVM checks outside a loop, and an array length, is a nat.
 */
module Vectors {
  import opened Runtime

  // ---------------------------------------------------------------------
  // Specification functions on sequences
  // ---------------------------------------------------------------------

  /** Arrays.copyOfRange(s, from, from + count): past the end of s it pads with 0. */
  function CopyOfRange(s: seq<real>, from: nat, count: nat): (r: seq<real>)
    requires from <= |s|
    ensures |r| == count
    ensures forall i :: 0 <= i < count ==> r[i] == if from + i < |s| then s[from + i] else 0.0
  {
    if count == 0 then []
    else CopyOfRange(s, from, count - 1) + [if from + count - 1 < |s| then s[from + count - 1] else 0.0]
  }

  /** dst with count cells starting at dstPos replaced by src[srcPos..srcPos + count]. */
  function Splice(dst: seq<real>, dstPos: nat, src: seq<real>, srcPos: nat, count: nat): (r: seq<real>)
    requires dstPos + count <= |dst| && srcPos + count <= |src|
    ensures |r| == |dst|
    ensures forall i :: 0 <= i < |dst| ==>
      r[i] == if dstPos <= i < dstPos + count then src[srcPos + i - dstPos] else dst[i]
  {
    dst[..dstPos] + src[srcPos..srcPos + count] + dst[dstPos + count..]
  }

  /** The dot product, summed in index order: the last product is added last. */
  function Dot(a: seq<real>, b: seq<real>): real
    requires |a| == |b|
  {
    if |a| == 0 then 0.0
    else Dot(a[..|a| - 1], b[..|b| - 1]) + Mul(a[|a| - 1], b[|b| - 1])
  }

  /** The sum of squares, in index order. */
  function SumSquares(a: seq<real>): real
  {
    if |a| == 0 then 0.0
    else SumSquares(a[..|a| - 1]) + Mul(a[|a| - 1], a[|a| - 1])
  }

  /** Every element multiplied by k. */
  function ScaleAll(a: seq<real>, k: real): (r: seq<real>)
    ensures |r| == |a|
    ensures forall i :: 0 <= i < |a| ==> r[i] == Mul(a[i], k)
  {
    if |a| == 0 then [] else ScaleAll(a[..|a| - 1], k) + [Mul(a[|a| - 1], k)]
  }

  /** The standard cross product of the first three components. */
  function Cross(a: seq<real>, b: seq<real>): (r: seq<real>)
    requires |a| >= 3 && |b| >= 3
    ensures |r| == 3
  {
    [Mul(a[1], b[2]) - Mul(a[2], b[1]),
     Mul(a[2], b[0]) - Mul(a[0], b[2]),
     Mul(a[0], b[1]) - Mul(a[1], b[0])]
  }

  // ---------------------------------------------------------------------
  // Properties of the specification functions
  // ---------------------------------------------------------------------

  /** The dot product does not depend on the order of its operands. */
  lemma {:induction false} DotSymmetric(a: seq<real>, b: seq<real>)
    requires |a| == |b|
    ensures Dot(a, b) == Dot(b, a)
  {
    if |a| > 0 {
      DotSymmetric(a[..|a| - 1], b[..|b| - 1]);
    }
  }

  /** A vector dotted with itself is its sum of squares. */
  lemma {:induction false} DotSelf(a: seq<real>)
    ensures Dot(a, a) == SumSquares(a)
  {
    if |a| > 0 {
      DotSelf(a[..|a| - 1]);
    }
  }

  /** The dot product of two three-element sequences, written out. */
  lemma Dot3(a: seq<real>, b: seq<real>)
    requires |a| == 3 && |b| == 3
    ensures Dot(a, b) == Mul(a[0], b[0]) + Mul(a[1], b[1]) + Mul(a[2], b[2])
  {
    assert a[..2][..1] == a[..1] && b[..2][..1] == b[..1];
    assert Dot(a[..1], b[..1]) == Mul(a[0], b[0]);
    assert Dot(a[..2], b[..2]) == Dot(a[..1], b[..1]) + Mul(a[1], b[1]);
  }

  /** x . (x x y) == 0 and y . (x x y) == 0, on scalars. */
  lemma TripleProductVanishes(x0: real, x1: real, x2: real, y0: real, y1: real, y2: real)
    ensures Mul(x0, Mul(x1, y2) - Mul(x2, y1)) + Mul(x1, Mul(x2, y0) - Mul(x0, y2))
      + Mul(x2, Mul(x0, y1) - Mul(x1, y0)) == 0.0
    ensures Mul(y0, Mul(x1, y2) - Mul(x2, y1)) + Mul(y1, Mul(x2, y0) - Mul(x0, y2))
      + Mul(y2, Mul(x0, y1) - Mul(x1, y0)) == 0.0
  {
  }

  /** a x b is orthogonal to both a and b. */
  lemma CrossOrthogonal(a: seq<real>, b: seq<real>)
    requires |a| == 3 && |b| == 3
    ensures Dot(a, Cross(a, b)) == 0.0
    ensures Dot(b, Cross(a, b)) == 0.0
  {
    DotCross(a, a, b);
    DotCross(b, a, b);
    TripleProductVanishes(a[0], a[1], a[2], b[0], b[1], b[2]);
  }

  /** a x a is the zero vector, and swapping the operands negates the cross product. */
  lemma CrossSelf(a: seq<real>, b: seq<real>)
    requires |a| >= 3 && |b| >= 3
    ensures Cross(a, a) == [0.0, 0.0, 0.0]
    ensures forall i :: 0 <= i < 3 ==> Cross(b, a)[i] == -Cross(a, b)[i]
  {
  }

  /** The dot product of p with a x b, written out. */
  lemma DotCross(p: seq<real>, a: seq<real>, b: seq<real>)
    requires |p| == 3 && |a| == 3 && |b| == 3
    ensures Dot(p, Cross(a, b)) == Mul(p[0], Mul(a[1], b[2]) - Mul(a[2], b[1]))
      + Mul(p[1], Mul(a[2], b[0]) - Mul(a[0], b[2])) + Mul(p[2], Mul(a[0], b[1]) - Mul(a[1], b[0]))
  {
    Dot3(p, Cross(a, b));
  }

  // ---------------------------------------------------------------------
  // Static methods over float arrays
  // ---------------------------------------------------------------------

  /**
   * dot(float[], float[]): IllegalArgumentException when the lengths differ,
   * otherwise the running sum of products.
   */
  method DotArrays(first: array<real>, second: array<real>) returns (r: Result<real>)
    ensures first.Length != second.Length <==> r == Err(IllegalArgument)
    ensures first.Length == second.Length ==> r == Ok(Dot(first[..], second[..]))
  {
    var result := 0.0;
    var count := first.Length;
    if count != second.Length {
      return Err(IllegalArgument);
    }
    var i := 0;
    while i < count
      invariant 0 <= i <= count
      invariant result == Dot(first[..i], second[..i])
    {
      assert first[..i + 1][..i] == first[..i] && second[..i + 1][..i] == second[..i];
      result := result + Mul(first[i], second[i]);
      i := i + 1;
    }
    assert first[..count] == first[..] && second[..count] == second[..];
    return Ok(result);
  }

  /**
   * cross(float[], float[], float[]): writes result[0..2] and nothing else.
   * The three cells are computed one after another, so when result is one
   * of the operands later cells see earlier ones; the cross product is
   * stated for the case where result is a separate array.
   */
  method CrossArrays(first: array<real>, second: array<real>, result: array<real>)
    requires first.Length >= 3 && second.Length >= 3 && result.Length >= 3
    modifies result
    ensures result[3..] == old(result[3..])
    ensures result != first && result != second ==>
      result[..3] == Cross(old(first[..]), old(second[..]))
  {
    ghost var product := Cross(first[..], second[..]);
    result[0] := Mul(first[1], second[2]) - Mul(first[2], second[1]);
    result[1] := Mul(first[2], second[0]) - Mul(first[0], second[2]);
    result[2] := Mul(first[0], second[1]) - Mul(first[1], second[0]);
    if result != first && result != second {
      assert result[0] == product[0] && result[1] == product[1] && result[2] == product[2];
      assert result[..3] == product;
    }
  }

  /**
   * The loop `sum += values[i] * values[i]` over [first, first + count). It
   * indexes only inside the loop, so with count <= 0 any first is accepted.
   */
  method SumOfSquares(values: array<real>, first: int, count: int) returns (sum: real)
    requires count <= 0 || (0 <= first && first + count <= values.Length)
    ensures count <= 0 ==> sum == 0.0
    ensures 0 < count ==> sum == SumSquares(values[first..first + count])
  {
    sum := 0.0;
    var last := first + count;
    var i := first;
    while i < last
      invariant count <= 0 ==> i == first && sum == 0.0
      invariant 0 < count ==> first <= i <= last && sum == SumSquares(values[first..i])
    {
      assert values[first..i + 1][..i - first] == values[first..i];
      sum := sum + Mul(values[i], values[i]);
      i := i + 1;
    }
  }

  /**
   * normalize(values, first, count): scales the window [first, first + count)
   * by rsqrt of its sum of squares and leaves every other cell alone; with
   * count <= 0 both loops are empty and nothing changes.
   */
  method NormalizeWindow(values: array<real>, first: int, count: int, rsqrt: real -> real)
    requires count <= 0 || (0 <= first && first + count <= values.Length)
    modifies values
    ensures count <= 0 ==> values[..] == old(values[..])
    ensures 0 < count ==>
      values[..] == old(values[..first])
      + ScaleAll(old(values[first..first + count]), rsqrt(SumSquares(old(values[first..first + count]))))
      + old(values[first + count..])
  {
    var sum := SumOfSquares(values, first, count);
    ScaleWindow(values, first, count, rsqrt(sum));
  }

  /** The second loop of normalize: `values[i] *= scale` over the window. */
  method ScaleWindow(values: array<real>, first: int, count: int, scale: real)
    requires count <= 0 || (0 <= first && first + count <= values.Length)
    modifies values
    ensures count <= 0 ==> values[..] == old(values[..])
    ensures 0 < count ==>
      values[..] == old(values[..first])
      + ScaleAll(old(values[first..first + count]), scale) + old(values[first + count..])
  {
    var last := first + count;
    ghost var prefix, window, suffix := values[..], [], [];
    if 0 < count {
      prefix, window, suffix := values[..first], values[first..last], values[last..];
      assert values[..] == prefix + ScaleAll(window[..0], scale) + window[0..] + suffix;
    }
    var i := first;
    while i < last
      invariant count <= 0 ==> i == first && values[..] == old(values[..])
      invariant 0 < count ==> (first <= i <= last && |prefix| == first &&
        values[..] == prefix + ScaleAll(window[..i - first], scale) + window[i - first..] + suffix)
    {
      assert 0 < count;
      ScaleOneMore(prefix, window, suffix, i - first, scale);
      values[i] := Mul(values[i], scale);
      i := i + 1;
    }
    if 0 < count {
      assert window[..count] == window && window[count..] == [];
    }
  }

  /** One iteration of ScaleWindow, on the sequence the array holds. */
  lemma ScaleOneMore(prefix: seq<real>, window: seq<real>, suffix: seq<real>, j: nat, k: real)
    requires j < |window|
    ensures var s := prefix + ScaleAll(window[..j], k) + window[j..] + suffix;
      |prefix| + j < |s| &&
      s[|prefix| + j] == window[j] &&
      s[|prefix| + j := Mul(s[|prefix| + j], k)] == prefix + ScaleAll(window[..j + 1], k) + window[j + 1..] + suffix
  {
    var s := prefix + ScaleAll(window[..j], k) + window[j..] + suffix;
    ScaleAllSnoc(window, j, k);
    assert window[j..] == [window[j]] + window[j + 1..];
    assert s[|prefix| + j := Mul(window[j], k)]
      == prefix + (ScaleAll(window[..j], k) + [Mul(window[j], k)]) + window[j + 1..] + suffix;
  }

  /** Extending the scaled prefix of w by one element. */
  lemma ScaleAllSnoc(w: seq<real>, j: nat, k: real)
    requires j < |w|
    ensures ScaleAll(w[..j + 1], k) == ScaleAll(w[..j], k) + [Mul(w[j], k)]
  {
    assert w[..j + 1][..j] == w[..j] && w[..j + 1][j] == w[j];
  }

  /** normalize(values, count): the window starting at 0; nothing changes when count <= 0. */
  method NormalizePrefix(values: array<real>, count: int, rsqrt: real -> real)
    requires count <= values.Length
    modifies values
    ensures count <= 0 ==> values[..] == old(values[..])
    ensures 0 < count ==>
      values[..] == ScaleAll(old(values[..count]), rsqrt(SumSquares(old(values[..count]))))
      + old(values[count..])
  {
    ghost var v := values[..];
    if 0 < count {
      assert v[..0] == [] && v[0..count] == v[..count];
    }
    NormalizeWindow(values, 0, count, rsqrt);
  }

  /** normalize(values): the whole array. */
  method NormalizeArray(values: array<real>, rsqrt: real -> real)
    modifies values
    ensures values[..] == ScaleAll(old(values[..]), rsqrt(SumSquares(old(values[..]))))
  {
    ghost var v := values[..];
    assert v[..0] == [] && v[0..|v|] == v && v[|v|..] == [];
    NormalizeWindow(values, 0, values.Length, rsqrt);
    assert values[..] == [] + ScaleAll(v, rsqrt(SumSquares(v))) + [];
  }

  /**
   * length(values, first, count): sqrt of the window's sum of squares; reads
   * nothing outside it, and with count <= 0 it is sqrt(0).
   */
  method LengthWindow(values: array<real>, first: int, count: int, sqrt: real -> real) returns (r: real)
    requires count <= 0 || (0 <= first && first + count <= values.Length)
    ensures count <= 0 ==> r == sqrt(0.0)
    ensures 0 < count ==> r == sqrt(SumSquares(values[first..first + count]))
  {
    var sum := SumOfSquares(values, first, count);
    r := sqrt(sum);
  }

  /** length(values, count). */
  method LengthPrefix(values: array<real>, count: int, sqrt: real -> real) returns (r: real)
    requires count <= values.Length
    ensures count <= 0 ==> r == sqrt(0.0)
    ensures 0 < count ==> r == sqrt(SumSquares(values[..count]))
  {
    if 0 < count {
      assert values[0..count] == values[..count];
    }
    r := LengthWindow(values, 0, count, sqrt);
  }

  /** length(values). */
  method LengthArray(values: array<real>, sqrt: real -> real) returns (r: real)
    ensures r == sqrt(SumSquares(values[..]))
  {
    assert values[0..values.Length] == values[..];
    r := LengthWindow(values, 0, values.Length, sqrt);
  }

  // ---------------------------------------------------------------------
  // The Vector object
  // ---------------------------------------------------------------------

  class Vector {
    /** The final `values` array: never replaced, only written cell by cell. */
    const values: array<real>

    /** Vector(int length): all zeros. */
    constructor OfLength(length: nat)
      ensures fresh(values)
      ensures values[..] == seq(length, _ => 0.0)
    {
      values := new real[length](_ => 0.0);
    }

    /** Vector(float...): a copy (values.clone()), so later writes to src are not seen. */
    constructor OfArray(src: array<real>)
      ensures fresh(values)
      ensures values[..] == src[..]
    {
      var s := src[..];
      values := new real[|s|](i requires 0 <= i < |s| => s[i]);
    }

    /**
     * Vector(float[], offset, count): Arrays.copyOfRange(values, offset,
     * offset + count). copyOfRange throws IllegalArgumentException for a
     * reversed range (count < 0), and otherwise
     * ArrayIndexOutOfBoundsException unless 0 <= offset <= values.length.
     */
    static method OfRange(src: array<real>, offset: int, count: int) returns (r: Result<Vector>)
      ensures r.Err? <==> count < 0 || offset < 0 || src.Length < offset
      ensures r.Err? ==> r.error == if count < 0 then IllegalArgument else IndexOutOfBounds
      ensures r.Ok? ==> fresh(r.value) && fresh(r.value.values)
      ensures r.Ok? ==> r.value.values[..] == CopyOfRange(src[..], offset, count)
    {
      if count < 0 {
        return Err(IllegalArgument);
      }
      if offset < 0 || src.Length < offset {
        return Err(IndexOutOfBounds);
      }
      var s := CopyOfRange(src[..], offset, count);
      var copy := new real[count](i requires 0 <= i < count => s[i]);
      var v := new Vector.OfArray(copy);
      return Ok(v);
    }

    /** Vector(Vector other): a copy of other's values. */
    constructor Copy(other: Vector)
      ensures fresh(values)
      ensures values[..] == other.values[..]
    {
      var s := other.values[..];
      values := new real[|s|](i requires 0 <= i < |s| => s[i]);
    }

    /** Vector(Vector other, count): copyOfRange(other.values, 0, count). */
    static method CopyPrefix(other: Vector, count: int) returns (r: Result<Vector>)
      ensures r.Err? <==> count < 0
      ensures r.Err? ==> r.error == IllegalArgument
      ensures r.Ok? ==> fresh(r.value) && fresh(r.value.values)
      ensures r.Ok? ==> r.value.values[..] == CopyOfRange(other.values[..], 0, count)
    {
      r := OfRange(other.values, 0, count);
    }

    /** Vector(Vector other, first, count): copyOfRange(other.values, first, first + count). */
    static method CopyRange(other: Vector, first: int, count: int) returns (r: Result<Vector>)
      ensures r.Err? <==> count < 0 || first < 0 || other.values.Length < first
      ensures r.Err? ==> r.error == if count < 0 then IllegalArgument else IndexOutOfBounds
      ensures r.Ok? ==> fresh(r.value) && fresh(r.value.values)
      ensures r.Ok? ==> r.value.values[..] == CopyOfRange(other.values[..], first, count)
    {
      r := OfRange(other.values, first, count);
    }

    /** size(): the length, which no operation changes. */
    function Size(): (n: nat)
      ensures n == |values[..]|
    {
      values.Length
    }

    /** get(index): the element at index of the vector's contents. */
    function Get(index: nat): (v: real)
      requires index < values.Length
      reads values
      ensures v == values[..][index]
    {
      values[index]
    }

    /** set(index, value): that cell only. */
    method Set(index: nat, value: real)
      requires index < values.Length
      modifies values
      ensures values[..] == old(values[..])[index := value]
      ensures Get(index) == value
    {
      values[index] := value;
    }

    /** get(float[] dst): the first dst.length cells into dst. */
    method GetInto(dst: array<real>)
      requires dst.Length <= values.Length
      modifies dst
      ensures dst[..] == old(values[..dst.Length])
    {
      ArrayCopy(values, 0, dst, 0, dst.Length);
    }

    /** get(first, dst, offset, count): this[first..first + count] into dst[offset..]. */
    method GetRange(first: nat, dst: array<real>, offset: nat, count: nat)
      requires first + count <= values.Length && offset + count <= dst.Length
      modifies dst
      ensures dst[..] == Splice(old(dst[..]), offset, old(values[..]), first, count)
    {
      ArrayCopy(values, first, dst, offset, count);
    }

    /** set(float[] src): src into the first src.length cells. */
    method SetFrom(src: array<real>)
      requires src.Length <= values.Length
      modifies values
      ensures values[..] == old(src[..]) + old(values[src.Length..])
    {
      ArrayCopy(src, 0, values, 0, src.Length);
    }

    /**
     * set(first, src, offset, count) as written: src[first..first + count]
     * into this[offset..], that is `first` indexes the source array and
     * `offset` this vector, the other way round from the doc comment.
     */
    method SetRange(first: nat, src: array<real>, offset: nat, count: nat)
      requires first + count <= src.Length && offset + count <= values.Length
      modifies values
      ensures values[..] == Splice(old(values[..]), offset, old(src[..]), first, count)
    {
      ArrayCopy(src, first, values, offset, count);
    }

    /** set(first, src, offset, count) as documented: src[offset..] into this[first..]. */
    method SetRangeAsDocumented(first: nat, src: array<real>, offset: nat, count: nat)
      requires offset + count <= src.Length && first + count <= values.Length
      modifies values
      ensures values[..] == Splice(old(values[..]), first, old(src[..]), offset, count)
    {
      ArrayCopy(src, offset, values, first, count);
    }

    /** normalize(). */
    method Normalize(rsqrt: real -> real)
      modifies values
      ensures values[..] == ScaleAll(old(values[..]), rsqrt(SumSquares(old(values[..]))))
    {
      NormalizeArray(values, rsqrt);
    }

    /** length(). */
    method Length(sqrt: real -> real) returns (r: real)
      ensures r == sqrt(SumSquares(values[..]))
    {
      r := LengthArray(values, sqrt);
    }
  }

  // ---------------------------------------------------------------------
  // Static methods over Vector objects
  // ---------------------------------------------------------------------

  /** dot(Vector, Vector). */
  method DotVectors(first: Vector, second: Vector) returns (r: Result<real>)
    ensures first.Size() != second.Size() <==> r == Err(IllegalArgument)
    ensures first.Size() == second.Size() ==> r == Ok(Dot(first.values[..], second.values[..]))
  {
    r := DotArrays(first.values, second.values);
  }

  /**
   * cross(first, second, result): with a null result a fresh length-3 vector
   * is allocated; otherwise result receives the product and is returned.
   */
  method CrossVectors(first: Vector, second: Vector, result: Vector?) returns (r: Vector)
    requires first.Size() >= 3 && second.Size() >= 3
    requires result != null ==> result.Size() >= 3
    modifies if result == null then {} else {result.values}
    ensures result == null ==> fresh(r) && fresh(r.values) && r.Size() == 3
    ensures result != null ==> r == result && r.values[3..] == old(r.values[3..])
    ensures r.values != first.values && r.values != second.values ==>
      r.values[..3] == Cross(old(first.values[..]), old(second.values[..]))
  {
    if result == null {
      r := new Vector.OfLength(3);
    } else {
      r := result;
    }
    CrossArrays(first.values, second.values, r.values);
  }

  /**
   * copy(from, firstFrom, to, firstTo, count) as written: the loop writes
   * to[firstFrom + i], so firstTo is never used. Because source and
   * destination index agree, the result is the same when from and to share
   * their array.
   */
  method CopyVectors(from: Vector, firstFrom: int, to: Vector, firstTo: int, count: int)
    requires count <= 0 || (0 <= firstFrom && firstFrom + count <= from.Size() && firstFrom + count <= to.Size())
    modifies to.values
    ensures count <= 0 ==> to.values[..] == old(to.values[..])
    ensures 0 < count ==>
      to.values[..] == Splice(old(to.values[..]), firstFrom, old(from.values[..]), firstFrom, count)
  {
    var i := 0;
    while i < count
      invariant 0 <= i && (i <= count || i == 0)
      invariant forall k :: 0 <= k < to.values.Length && !(firstFrom <= k < firstFrom + i) ==>
        to.values[k] == old(to.values[k])
      invariant forall k :: firstFrom <= k < firstFrom + i ==> to.values[k] == old(from.values[k])
      invariant forall k :: 0 <= k < from.values.Length && !(firstFrom <= k < firstFrom + i) ==>
        from.values[k] == old(from.values[k])
    {
      to.values[firstFrom + i] := from.values[firstFrom + i];
      i := i + 1;
    }
  }

  /** copy(from, firstFrom, to, firstTo, count) with firstTo used as documented. */
  method CopyVectorsIntended(from: Vector, firstFrom: nat, to: Vector, firstTo: nat, count: nat)
    requires firstFrom + count <= from.Size() && firstTo + count <= to.Size()
    modifies to.values
    ensures to.values[..] == Splice(old(to.values[..]), firstTo, old(from.values[..]), firstFrom, count)
  {
    ArrayCopy(from.values, firstFrom, to.values, firstTo, count);
  }

  /** copy(from, to): the first to.size() cells. */
  method CopyAll(from: Vector, to: Vector)
    requires to.Size() <= from.Size()
    modifies to.values
    ensures to.values[..] == old(from.values[..to.values.Length])
  {
    CopyVectors(from, 0, to, 0, to.Size());
  }

  /**
   * The copy as written differs from the documented one whenever firstTo
   * differs from firstFrom: copying one cell of [1, 2] from index 0 to index
   * 1 of [0, 0] leaves [1, 0] instead of [0, 1].
   */
  lemma CopyIgnoresFirstTo()
    ensures Splice([0.0, 0.0], 0, [1.0, 2.0], 0, 1) == [1.0, 0.0]
    ensures Splice([0.0, 0.0], 1, [1.0, 2.0], 0, 1) == [0.0, 1.0]
  {
  }

  /**
   * set(first, src, offset, count) as written differs from its doc whenever
   * first != offset: with first = 1, offset = 0, count = 1, src = [1, 2] and
   * this = [0, 0] it writes 2 into cell 0 instead of 1 into cell 1.
   */
  lemma SetRangeSwapsArguments()
    ensures Splice([0.0, 0.0], 0, [1.0, 2.0], 1, 1) == [2.0, 0.0]
    ensures Splice([0.0, 0.0], 1, [1.0, 2.0], 0, 1) == [0.0, 1.0]
  {
  }
}
