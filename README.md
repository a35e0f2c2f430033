# My-Java-Utils: the math and model packages in Dafny

This project models the core of the `pl.tomaszkax86` utility library and proves
properties of that model:

- **Fixed**: Q16.16 fixed-point numbers stored in a Java `int`, covering
  conversion from and to whole numbers, `+ - * /` and the five-step Newton
  square root. Every result wraps to 32 bits exactly as Java's `int`, `long`
  and `short` casts do (`FixedPoint.Wrap16/32/64`). Java's long division,
  which truncates toward zero, is `FixedPoint.TruncDiv`, and `>>` is floor
  division.
- **Half**: the 16-bit half-float. The decoder `HalfFloat.ToFloat` follows
  `toFloat`. The encoder `HalfFloat.ToHalf` follows `toHalf(float)`, taking
  the float as its sign, its unbiased exponent and its 24-bit significand. A
  decoded finite value is kept exactly, as the sign, integer significand and
  power of two that the code hands to `Math.scalb`.
- **Vector**: a class holding a `float[]` (`array<real>`). It has the
  constructors, the getters and setters, and the static `dot`, `cross`,
  `normalize`, `length` and `copy` over arrays and windows of arrays, each
  proved against a function on sequences (`Dot`, `Cross`, `SumSquares`,
  `ScaleAll`, `Splice`).
- **Matrix**: a class holding a `float[][]` (`array2<real>`) and its two
  lazily created scratch matrices. Every operation is proved against a
  function on `seq<seq<real>>` in module `Grids`. Those functions are
  identity, product, sum, transpose, the row and column operations, the
  column-major layout used by `load`/`store`, the translation, scaling,
  orthographic, rotation and camera-view builders, and the 3 x 3 determinant
  and inverse. Algebraic laws are proved about them: identity is neutral,
  transposing twice is the identity, translations and scalings compose,
  store-then-load restores the matrix, and the corrected inverse is a right
  inverse.
- **model package**:
  - The value classes `VertexCoord`, `TextureCoord`, `Normal`, `Material` and
    `Vertex`, and the mutable `VertexBuilder`.
  - `VertexGroup`, whose vertices all share one material.
  - `Model`, which sorts vertices into groups by material, in first-seen
    order.
  - The Wavefront OBJ loader, `OBJModelLoader`, with its material-library
    reader. The loader is specified line by line as a pure fold, `ObjLoader.Run`.
    The imperative `ObjLoader.Load` builds a `Model` and is proved to hold
    exactly `Meshes.Build` of the vertices the fold emits. Vertices are emitted
    by fan triangulation of each face. `Build` is proved to put every vertex in
    the single group of its material, in order.

Conventions used throughout:

- An exception the source throws explicitly, or one a library call is
  documented to throw, is an error value: `Result`/`Outcome` in module
  `Runtime`. This covers `IllegalArgumentException` from `checkCompatibility`,
  `NumberFormatException` from a parser, `IndexOutOfBoundsException` from
  `ArrayList.get`, a `NullPointerException` from a null material or
  coordinate, and `ArithmeticException` from an integer division by zero.
- An index the JVM bounds-checks in the caller's own arrays is a
  precondition. This covers array subscripts and `System.arraycopy`, which is
  `Runtime.ArrayCopy`.
- A count or index that the source uses only inside a loop is an `int`, so a
  loop that runs zero times accepts any value. This covers the row and column
  arguments of `getColumn`, `setColumn`, `addRow` and `addColumn`, and the
  `first` and `count` arguments of Vector's `normalize`, `length` and `copy`.
  The sum `first + count` is taken without 32-bit wrap-around.
- In the loader every index comes from the file. An out-of-range token or
  attribute index is therefore an error value there, not a precondition.
- Java compares materials with `==`, by reference. Each `new Material(...)` in
  the loader takes a fresh id from a counter (`Loader.nextId`,
  `Library.nextId`), and two `Material` values are the same object exactly
  when they are equal. `ObjLoader.MaterialLinesFresh` and
  `ObjLoader.StepFresh` prove the ids stay fresh.
- Floating-point values are `real`. Products of reals are written
  `Runtime.Mul(x, y)`, which is `x * y`. Rounding, infinities and NaN of
  `float` arithmetic are not modelled.
- `Math.sqrt`, `Math.sin` and `Math.cos` become function parameters, as do
  `Float.parseFloat` and `Integer.parseInt`. Reading a file becomes a map
  from file name to its lines, and a missing name is an `IOException`.

The documentation and the code disagree in a few places, and the model
follows the code:

- `Model.size()` is documented as the number of vertices but returns the
  number of groups. `Meshes.Model.Size` returns `|Contents|` and proves that
  this is at most the number of vertices.
- `Fixed.ZERO` and `Fixed.MIN_VALUE` are both the raw value 1, not 0.
  `Fixed.MAX_VALUE` is a 33-digit binary literal whose int value is -1, not
  the largest positive fixed value. `FixedPoint.ConstantValues` states these
  values as written.
- `Vector.set(first, values, offset, count)` and
  `Vector.copy(from, firstFrom, to, firstTo, count)` do not use their
  arguments as documented, and `Half.toFloat` and `Matrix.inverse3` compute
  something other than what they evidently mean. These are the rows under
  "## Findings".

## Model

| member | source | states |
|---|---|---|
| FixedPoint.TruncDiv | src/pl/tomaszkax86/math/Fixed.java:261-264 | Java long division: the quotient truncates toward zero, with a remainder smaller than the divisor and of the dividend's sign; it agrees with Euclidean division on non-negative operands |
| FixedPoint.ToFixedShort | src/pl/tomaszkax86/math/Fixed.java:117-120 | a short shifted into Q16.16 is value * 2^16, and toInt gives the short back |
| FixedPoint.ToFixedInt | src/pl/tomaszkax86/math/Fixed.java:127-130 | an int shifted left 16 keeps only its low 16 bits, so the result is Wrap16(value) * 2^16 |
| FixedPoint.ToFixedLong | src/pl/tomaszkax86/math/Fixed.java:137-140 | a long shifted and cast to int is Wrap16(value) * 2^16; it agrees with the int overload on int-sized values |
| FixedPoint.ToInt | src/pl/tomaszkax86/math/Fixed.java:177-180 | the integer part is the floor: n * 2^16 <= fixed < (n + 1) * 2^16, and it fits in a short |
| FixedPoint.ToShort | src/pl/tomaszkax86/math/Fixed.java:167-170 | the short conversion loses nothing: it equals toInt |
| FixedPoint.ToLong | src/pl/tomaszkax86/math/Fixed.java:187-190 | the long conversion equals toInt |
| FixedPoint.ShiftLeftIsShortTimesOne | src/pl/tomaszkax86/math/Fixed.java:127-130 | wrapping value * 2^16 to 32 bits equals Wrap16(value) * 2^16 for every integer |
| FixedPoint.Wrap64ThenWrap32 | src/pl/tomaszkax86/math/Fixed.java:137-140 | wrapping to 64 bits and then to 32 equals wrapping to 32 directly |
| FixedPoint.Add | src/pl/tomaszkax86/math/Fixed.java:228-231 | the sum is x + y modulo 2^32, and exactly x + y when that fits in an int |
| FixedPoint.Multiply | src/pl/tomaszkax86/math/Fixed.java:250-253 | the result is the 64-bit product shifted right by 16 (rounding down) modulo 2^32; when that fits in an int, r * 2^16 <= x * y < (r + 1) * 2^16 |
| FixedPoint.Subtract | src/pl/tomaszkax86/math/Fixed.java:239-242 | the difference is x - y modulo 2^32, and exactly x - y when that fits |
| FixedPoint.Divide | src/pl/tomaszkax86/math/Fixed.java:261-264 | divide fails with ArithmeticException exactly when the divisor is 0; otherwise the result is the long quotient of x * 2^16 by y modulo 2^32, and when that quotient fits in an int its magnitude is rounded down (toward zero) and it is negative exactly when x and y differ in sign |
| FixedPoint.TruncDivRoundsDown | src/pl/tomaszkax86/math/Fixed.java:263 | Java's long division rounds the magnitude of the quotient down, \|q\| * \|b\| <= \|a\| < (\|q\| + 1) * \|b\|, and a non-zero quotient is negative exactly when the operands' signs differ |
| FixedPoint.RemainderBracket | src/pl/tomaszkax86/math/Fixed.java:263 | any quotient whose remainder is smaller than the divisor and signed like the dividend has that magnitude and sign |
| FixedPoint.SubtractUndoesAdd | src/pl/tomaszkax86/math/Fixed.java:228-242 | subtracting y after adding y gives x back, for all ints, wrap-around included |
| FixedPoint.AddUndoesSubtract | src/pl/tomaszkax86/math/Fixed.java:228-242 | adding y after subtracting y gives x back, for all ints |
| FixedPoint.MultiplyByOne | src/pl/tomaszkax86/math/Fixed.java:250-253 | ONE is a two-sided unit of multiply |
| FixedPoint.MultiplyWholeNumbers | src/pl/tomaszkax86/math/Fixed.java:250-253 | the product of two whole numbers in fixed point is the fixed point of their product when it fits |
| FixedPoint.AddWholeNumbers | src/pl/tomaszkax86/math/Fixed.java:228-231 | adding whole numbers in fixed point is the fixed point of their sum when it fits |
| FixedPoint.DivideByOne | src/pl/tomaszkax86/math/Fixed.java:261-264 | dividing by ONE gives the dividend back |
| FixedPoint.DivideBySelf | src/pl/tomaszkax86/math/Fixed.java:261-264 | a non-zero value divided by itself is ONE |
| FixedPoint.DivideWholeNumbers | src/pl/tomaszkax86/math/Fixed.java:261-264 | an exact quotient of whole numbers is the fixed point of their quotient |
| FixedPoint.DivideTwoByTwo | src/pl/tomaszkax86/math/Fixed.java:261-264 | 2 / 2 in fixed point succeeds and has integer part 1 |
| FixedPoint.ToIntAfterToFixed | src/pl/tomaszkax86/math/Fixed.java:127-180 | toInt(toFixed(n)) is Wrap16(n), and n itself when n fits in a short |
| FixedPoint.ConstantValues | src/pl/tomaszkax86/math/Fixed.java:298-313 | the constants as written: ONE = 65536, ZERO = MIN_VALUE = 1, MAX_VALUE = -1, with integer parts 1, 0 and -1 |
| FixedPoint.NewtonStep | src/pl/tomaszkax86/math/Fixed.java:278 | one Newton step on long values keeps the estimate within 2^47 in magnitude, so the long arithmetic cannot overflow |
| FixedPoint.Newton | src/pl/tomaszkax86/math/Fixed.java:276-279 | the five-step iteration stays within that bound whenever it does not divide by zero |
| FixedPoint.Sqrt | src/pl/tomaszkax86/math/Fixed.java:271-282 | the loop computes exactly the iteration SqrtSpec describes, including the division by zero when the seed is 0 |
| FixedPoint.SqrtAtLeastRoot | src/pl/tomaszkax86/math/Fixed.java:271-282 | for every fixed value >= 2 the square root returns normally, positive and at least the integer square root of fixed * 2^16 |
| FixedPoint.SqrtFaultsOnSmallInputs | src/pl/tomaszkax86/math/Fixed.java:273-279 | for raw values 0 and 1 the seed fixed >> 1 is 0 and sqrt throws ArithmeticException |
| FixedPoint.SqrtExamples | src/pl/tomaszkax86/math/Fixed.java:271-282 | sqrt(1.0) = 1.0 and sqrt(4.0) = 2.0 exactly |
| HalfFloat.FieldsDetermine | src/pl/tomaszkax86/math/Half.java:172-174 | the sign, exponent and significand fields together give back the 16-bit pattern |
| HalfFloat.ToFloat | src/pl/tomaszkax86/math/Half.java:170-212 | NaN exactly for exponent field 31 with a non-zero significand; otherwise the sign is bit 15; a finite non-zero result has significand 1 to 0x83FF and exponent -25 to 5, and from exponent field 1 up its leading bit is SIGN_MASK (bit 15) |
| HalfFloat.ToFloatCases | src/pl/tomaszkax86/math/Half.java:172-211 | the decoder gives NaN exactly for exponent 31 with a non-zero significand, an infinity exactly for exponent 31 and significand 0, a signed zero exactly for exponent 0 and significand 0; the sign follows the sign bit |
| HalfFloat.SpecialPatterns | src/pl/tomaszkax86/math/Half.java:177-203 | NaN and 0xFFFF decode to NaN, the infinity constants to the infinities of their sign, ZERO and SIGN_MASK to +0 and -0 |
| HalfFloat.ToHalf | src/pl/tomaszkax86/math/Half.java:249-276 | the sign bit is set exactly when Math.signum(value) >= 0 fails; NaN gives the NaN bits and an exponent above 15 the infinity bits beside the sign bit; an exponent below -14 gives a zero |
| HalfFloat.EncodeNaN | src/pl/tomaszkax86/math/Half.java:251-257 | a NaN float is encoded as 0xFFFF (signum of NaN is not >= 0, so the sign bit is set), which decodes to NaN |
| HalfFloat.EncodeOverflow | src/pl/tomaszkax86/math/Half.java:262-265 | an exponent above 15 clamps to the infinity of the value's sign |
| HalfFloat.EncodeUnderflow | src/pl/tomaszkax86/math/Half.java:267-270 | an exponent below -14 clamps to a zero, negative exactly for negative non-zero input |
| HalfFloat.EncodeNormal | src/pl/tomaszkax86/math/Half.java:272-275 | in range, the sign bit matches, the exponent field is exponent + 15 (1 to 30) and the significand field is the top 10 fraction bits |
| HalfFloat.EncodeNeverSubnormal | src/pl/tomaszkax86/math/Half.java:249-276 | the encoder never produces a subnormal pattern |
| HalfFloat.EncodeOne | src/pl/tomaszkax86/math/Half.java:272-275 | the float 1.0 encodes to the constant ONE |
| HalfFloat.EncodeThenDecodeNormal | src/pl/tomaszkax86/math/Half.java:205-211 | decoding an encoded normal value as written ORs SIGN_MASK (bit 15) in as the leading bit |
| HalfFloat.DecodeOneIsThirtyTwo | src/pl/tomaszkax86/math/Half.java:205-211 | as written, ONE decodes to 32.0, although 1.0 encodes to ONE |
| HalfFloat.DecodeMinValueIsHalved | src/pl/tomaszkax86/math/Half.java:191-203 | as written, MIN_VALUE decodes to 2^-25, half the smallest subnormal 2^-24 |
| HalfFloat.ToFloatIntended | src/pl/tomaszkax86/math/Half.java:170-212 | the corrected decoder: NaN exactly for exponent field 31 with a non-zero significand, the sign from bit 15, and a finite non-zero result either normalised (significand 2^10 to 2^11 - 1) or subnormal with exponent -24 |
| HalfFloat.IntendedRoundTrip | src/pl/tomaszkax86/math/Half.java:205-276 | with the corrected decoder every normal pattern decodes to a valid float that encodes back to the same pattern |
| HalfFloat.IntendedTruncates | src/pl/tomaszkax86/math/Half.java:272-275 | encoding then decoding with the corrected decoder keeps the sign and exponent and truncates the significand to 11 bits |
| HalfFloat.IntendedExactWhenRepresentable | src/pl/tomaszkax86/math/Half.java:272-275 | a float whose low 13 significand bits are zero survives encode-then-decode exactly |
| HalfFloat.Pow2Shift | src/pl/tomaszkax86/math/Half.java:201-210 | Math.scalb by e + k is 2^k times scalb by e |
| HalfFloat.IntendedSubnormalsMeetNormals | src/pl/tomaszkax86/math/Half.java:191-211 | with the corrected decoder the largest subnormal plus MIN_VALUE is MIN_NORMAL, which is 2^-14 |
| HalfFloat.Equals | src/pl/tomaszkax86/math/Half.java:131-143 | a Half equal to this one decodes to the same float |
| HalfFloat.EqualsComparesPatterns | src/pl/tomaszkax86/math/Half.java:131-143 | equals holds exactly for another Half with the same bits: it is symmetric, false for other objects, and tells apart patterns that decode alike (two NaNs, +0 and -0) |
| Vectors.CopyOfRange | src/pl/tomaszkax86/math/Vector.java:65-68 | Arrays.copyOfRange: count elements starting at from, zero past the end of the source |
| Vectors.DotSymmetric | src/pl/tomaszkax86/math/Vector.java:231-245 | the dot product is symmetric |
| Vectors.DotSelf | src/pl/tomaszkax86/math/Vector.java:231-245 | a vector dotted with itself is its sum of squares, which length takes the root of |
| Vectors.CrossOrthogonal | src/pl/tomaszkax86/math/Vector.java:284-289 | the cross product is orthogonal to both operands |
| Vectors.CrossSelf | src/pl/tomaszkax86/math/Vector.java:284-289 | a x a is the zero vector, and b x a is -(a x b) |
| Vectors.DotArrays | src/pl/tomaszkax86/math/Vector.java:231-245 | arrays of different length throw IllegalArgumentException and otherwise the loop computes Dot |
| Vectors.CrossArrays | src/pl/tomaszkax86/math/Vector.java:284-289 | the first three result cells become the cross product of the operands (when result aliases neither) and the rest are unchanged |
| Vectors.SumOfSquares | src/pl/tomaszkax86/math/Vector.java:362-373 | the loop sums the squares of the window, and with count <= 0 it indexes nothing and gives 0 whatever first is |
| Vectors.NormalizeWindow | src/pl/tomaszkax86/math/Vector.java:316-332 | the window is scaled by rsqrt(its sum of squares), where rsqrt stands for `1.0f / (float) Math.sqrt`, and the cells outside it are unchanged; with count <= 0 nothing changes whatever first is |
| Vectors.ScaleWindow | src/pl/tomaszkax86/math/Vector.java:326-331 | the loop multiplies every window cell by the factor and nothing else, and changes nothing when count <= 0 |
| Vectors.NormalizePrefix | src/pl/tomaszkax86/math/Vector.java:305-308 | normalize(values, count) normalizes the first count cells, and a count <= 0 changes nothing |
| Vectors.NormalizeArray | src/pl/tomaszkax86/math/Vector.java:295-298 | normalize(values) normalizes the whole array |
| Vectors.LengthWindow | src/pl/tomaszkax86/math/Vector.java:362-373 | the length of a window is the root of its sum of squares, and sqrt(0) when count <= 0 whatever first is |
| Vectors.LengthPrefix | src/pl/tomaszkax86/math/Vector.java:350-353 | length(values, count) is the length of the first count cells, and sqrt(0) when count <= 0 |
| Vectors.LengthArray | src/pl/tomaszkax86/math/Vector.java:339-342 | length(values) is the length of the whole array |
| Vectors.Vector.Size | src/pl/tomaszkax86/math/Vector.java:104-107 | the number of elements of the vector's contents |
| Vectors.Vector.Get | src/pl/tomaszkax86/math/Vector.java:114-117 | the element at index of the vector's contents |
| Vectors.Vector.OfLength | src/pl/tomaszkax86/math/Vector.java:45-48 | a new vector of the given length, all zeros |
| Vectors.Vector.OfArray | src/pl/tomaszkax86/math/Vector.java:54-57 | a new vector with a fresh copy of the values |
| Vectors.Vector.OfRange | src/pl/tomaszkax86/math/Vector.java:65-68 | IllegalArgumentException when count < 0, otherwise ArrayIndexOutOfBoundsException unless 0 <= offset <= values.length, otherwise a fresh vector holding copyOfRange(values, offset, offset + count) |
| Vectors.Vector.Copy | src/pl/tomaszkax86/math/Vector.java:74-77 | a copy with its own array and the same contents |
| Vectors.Vector.CopyPrefix | src/pl/tomaszkax86/math/Vector.java:84-87 | IllegalArgumentException when count < 0, otherwise a fresh vector of the first count values, zero-padded |
| Vectors.Vector.CopyRange | src/pl/tomaszkax86/math/Vector.java:95-98 | IllegalArgumentException when count < 0, otherwise ArrayIndexOutOfBoundsException unless 0 <= first <= size, otherwise a fresh vector of count values from first, zero-padded |
| Vectors.Vector.Set | src/pl/tomaszkax86/math/Vector.java:124-127 | exactly one cell changes, to the new value |
| Vectors.Vector.GetInto | src/pl/tomaszkax86/math/Vector.java:133-136 | the destination receives the vector's first dst.length values |
| Vectors.Vector.GetRange | src/pl/tomaszkax86/math/Vector.java:145-148 | count values from first are copied into the destination at offset, and nothing else changes |
| Vectors.Vector.SetFrom | src/pl/tomaszkax86/math/Vector.java:154-157 | the vector's prefix is replaced by the array and the rest is kept |
| Vectors.Vector.SetRange | src/pl/tomaszkax86/math/Vector.java:166-169 | as written: source cells from first are copied to vector cells from offset |
| Vectors.Vector.SetRangeAsDocumented | src/pl/tomaszkax86/math/Vector.java:150-169 | corrected: source cells from offset are copied to vector cells from first, as documented |
| Vectors.Vector.Normalize | src/pl/tomaszkax86/math/Vector.java:174-177 | the vector's values become their normalization |
| Vectors.Vector.Length | src/pl/tomaszkax86/math/Vector.java:183-186 | the vector's Euclidean length |
| Vectors.DotVectors | src/pl/tomaszkax86/math/Vector.java:220-223 | the dot product of the two vectors' values, or IllegalArgumentException when their sizes differ |
| Vectors.CrossVectors | src/pl/tomaszkax86/math/Vector.java:253-276 | with a null result a fresh 3-vector is returned, otherwise the given one; either way its first three values are the cross product |
| Vectors.CopyVectors | src/pl/tomaszkax86/math/Vector.java:394-401 | as written: count values are copied from firstFrom into the destination at firstFrom, ignoring firstTo; with count <= 0 nothing changes whatever the indices |
| Vectors.CopyVectorsIntended | src/pl/tomaszkax86/math/Vector.java:386-401 | corrected: count values from firstFrom land in the destination at firstTo |
| Vectors.CopyAll | src/pl/tomaszkax86/math/Vector.java:381-384 | the destination receives the first to.size() values of the source |
| Vectors.CopyIgnoresFirstTo | src/pl/tomaszkax86/math/Vector.java:394-401 | a concrete copy, with firstFrom = 0 and firstTo = 1, where the as-written and the corrected copy differ |
| Vectors.SetRangeSwapsArguments | src/pl/tomaszkax86/math/Vector.java:166-169 | a concrete set, with first = 1 and offset = 0, where the as-written and the documented behaviour differ |
| Grids.IdentityNeutral | src/pl/tomaszkax86/math/Matrix.java:582-594 | the identity is a left and right unit of the product |
| Grids.PlusLaws | src/pl/tomaszkax86/math/Matrix.java:865-883 | the sum is commutative and has the zero matrix as unit |
| Grids.TransposeTwice | src/pl/tomaszkax86/math/Matrix.java:973-991 | transposing twice gives the matrix back |
| Grids.TransposeIdentity | src/pl/tomaszkax86/math/Matrix.java:973-991 | the transpose of a (rectangular) identity is the identity of the swapped shape |
| Grids.AddRowsUndo | src/pl/tomaszkax86/math/Matrix.java:137-143 | adding k times another row and then -k times it restores the matrix |
| Grids.AddColumnsTransposed | src/pl/tomaszkax86/math/Matrix.java:137-151 | a column operation is the row operation on the transpose |
| Grids.WithColumnOf | src/pl/tomaszkax86/math/Matrix.java:121-135 | writing back a column just read changes nothing |
| Grids.ColumnOfWithColumn | src/pl/tomaszkax86/math/Matrix.java:121-135 | reading a column just written gives the written values |
| Grids.ColumnMajor | src/pl/tomaszkax86/math/Matrix.java:560-576 | store writes columns * rows values |
| Grids.ColumnMajorIndex | src/pl/tomaszkax86/math/Matrix.java:560-576 | cell (r, c) lands at position c * rows + r of the column-major sequence |
| Grids.ColumnMajorPrefix | src/pl/tomaszkax86/math/Matrix.java:560-576 | the first c * rows stored values are those of the first c columns |
| Grids.StoreThenLoad | src/pl/tomaszkax86/math/Matrix.java:516-576 | loading what store wrote restores the matrix, whatever follows in the buffer |
| Grids.LoadNothing | src/pl/tomaszkax86/math/Matrix.java:516-530 | loading from an empty buffer leaves the matrix as it was |
| Grids.TranslationsCompose | src/pl/tomaszkax86/math/Matrix.java:603-611 | the product of two 4 x 4 translations is the translation by the summed offsets |
| Grids.ScalingsCompose | src/pl/tomaszkax86/math/Matrix.java:620-627 | the product of two 4 x 4 scalings is the scaling by the products of the factors |
| Grids.Ortho2DUnitBox | src/pl/tomaszkax86/math/Matrix.java:684-688 | ortho2D over the box [-1, 1] x [-1, 1] is the scaling (1, 1, -1) |
| Grids.CameraViewOrder | src/pl/tomaszkax86/math/Matrix.java:782-800 | the camera view is roll, then pitch, then yaw, then the move by (-x, -y, -z), multiplied in that order |
| Grids.CameraViewAffine | src/pl/tomaszkax86/math/Matrix.java:782-800 | the 4 x 4 camera view keeps the bottom row (0, 0, 0, 1) |
| Grids.InverseIsInverse | src/pl/tomaszkax86/math/Matrix.java:1010-1048 | the corrected inverse3 is a right inverse of every 3 x 3 matrix with non-zero determinant |
| Grids.InverseAsWrittenIsTransposed | src/pl/tomaszkax86/math/Matrix.java:1010-1048 | as written, inverse3 yields the transpose of the inverse, which multiplies the transposed matrix to the identity |
| Grids.InverseAsWrittenCounterexample | src/pl/tomaszkax86/math/Matrix.java:1010-1048 | for a shear of determinant 1, the matrix times the as-written result has 0 in cell (0, 0), so it is not the identity |
| Matrices.Matrix.constructor | src/pl/tomaszkax86/math/Matrix.java:64-69 | a new rows x columns matrix of zeros with no scratch matrices |
| Matrices.Matrix.Square | src/pl/tomaszkax86/math/Matrix.java:54-57 | a new size x size matrix of zeros |
| Matrices.Matrix.Get | src/pl/tomaszkax86/math/Matrix.java:95-98 | the value of the cell |
| Matrices.Matrix.Set | src/pl/tomaszkax86/math/Matrix.java:106-109 | exactly one cell changes, to the value |
| Matrices.Matrix.GetRow | src/pl/tomaszkax86/math/Matrix.java:111-114 | the row is copied to the array prefix and the rest of the array is kept |
| Matrices.Matrix.SetRow | src/pl/tomaszkax86/math/Matrix.java:116-119 | the row is replaced by the array prefix, nothing else changes |
| Matrices.Matrix.GetColumn | src/pl/tomaszkax86/math/Matrix.java:121-127 | the column is copied to the array prefix; with no rows any column is accepted and nothing changes |
| Matrices.Matrix.SetColumn | src/pl/tomaszkax86/math/Matrix.java:129-135 | the column is replaced by the array prefix; with no rows any column is accepted and nothing changes |
| Matrices.Matrix.AddRow | src/pl/tomaszkax86/math/Matrix.java:137-143 | row += multiplier * other row, as AddRows states; with no columns any row indices are accepted and nothing changes |
| Matrices.Matrix.AddColumn | src/pl/tomaszkax86/math/Matrix.java:145-151 | column += multiplier * other column; with no rows any column indices are accepted and nothing changes |
| Matrices.Matrix.LoadIdentity | src/pl/tomaszkax86/math/Matrix.java:582-594 | the matrix becomes the (rectangular) identity |
| Matrices.Matrix.LoadTranslation | src/pl/tomaszkax86/math/Matrix.java:603-611 | the matrix becomes the translation by (dx, dy, dz) |
| Matrices.Matrix.LoadScale | src/pl/tomaszkax86/math/Matrix.java:620-627 | the matrix becomes the scaling by (sx, sy, sz) |
| Matrices.Matrix.LoadOrtho | src/pl/tomaszkax86/math/Matrix.java:662-674 | the matrix becomes the orthographic projection of the box |
| Matrices.Matrix.LoadDiagonalAndOffset | src/pl/tomaszkax86/math/Matrix.java:662-674 | identity, then the three diagonal and the three last-column cells the builders set |
| Matrices.Matrix.LoadOrtho2D | src/pl/tomaszkax86/math/Matrix.java:684-688 | ortho2D is ortho with near = -1 and far = 1 |
| Matrices.Matrix.LoadRotationX | src/pl/tomaszkax86/math/Matrix.java:807-819 | the rotation about x with the given cosine and sine |
| Matrices.Matrix.LoadRotationY | src/pl/tomaszkax86/math/Matrix.java:826-838 | the rotation about y |
| Matrices.Matrix.LoadRotationZ | src/pl/tomaszkax86/math/Matrix.java:845-857 | the rotation about z |
| Matrices.Matrix.Multiply | src/pl/tomaszkax86/math/Matrix.java:891-915 | IllegalArgumentException unless the shapes chain; otherwise the product is written into the upper-left block of result and the rest of result is kept; an empty product (no rows or no columns) accepts a result of any size, and with no columns result is unchanged |
| Matrices.Matrix.Add | src/pl/tomaszkax86/math/Matrix.java:865-883 | IllegalArgumentException unless all three shapes agree; otherwise result is the cell-wise sum |
| Matrices.Matrix.Copy | src/pl/tomaszkax86/math/Matrix.java:922-933 | IllegalArgumentException unless the shapes agree; otherwise dest holds src's cells |
| Matrices.Matrix.Swap | src/pl/tomaszkax86/math/Matrix.java:959-966 | IllegalArgumentException unless the shapes agree; otherwise the two matrices exchange their arrays |
| Matrices.Matrix.TransposeInto | src/pl/tomaszkax86/math/Matrix.java:973-991 | IllegalArgumentException unless dest has the swapped shape; otherwise dest is the transpose |
| Matrices.Matrix.InverseInto | src/pl/tomaszkax86/math/Matrix.java:998-1048 | IllegalArgumentException for different shapes; UnsupportedOperationException unless src has 3 rows (the column count is not tested); IllegalArgumentException when the determinant rounds to 0; otherwise the left 3 x 3 block of dest is the as-written inverse3 of src's left 3 x 3 block and the other cells keep their values |
| Matrices.Matrix.RequestResult | src/pl/tomaszkax86/math/Matrix.java:484-487 | the result scratch matrix exists afterwards, is kept when it already existed, and the cells do not change |
| Matrices.Matrix.RequestTransform | src/pl/tomaszkax86/math/Matrix.java:476-479 | the same for the transformation scratch matrix |
| Matrices.Matrix.Transform | src/pl/tomaszkax86/math/Matrix.java:182-190 | IllegalArgumentException exactly when the transform's row count differs from columns, with no change; otherwise the first t.columns columns become this * t, the remaining columns come from the old result scratch, and the scratch now holds the old cells; a receiver with no rows accepts a t wider than itself |
| Matrices.Matrix.TransformSquare | src/pl/tomaszkax86/math/Matrix.java:182-190 | a compatible transform always succeeds and leaves the product, even when the transform is this matrix or its scratch matrix; the result scratch then holds the old cells |
| Matrices.Matrix.Translate | src/pl/tomaszkax86/math/Matrix.java:199-207 | this becomes this * translation on a square matrix and the result scratch holds the old cells; otherwise IllegalArgumentException, with neither this nor the scratch changed |
| Matrices.Matrix.Scale | src/pl/tomaszkax86/math/Matrix.java:216-224 | this becomes this * scaling on a square matrix and the result scratch holds the old cells; otherwise IllegalArgumentException, with neither this nor the scratch changed |
| Matrices.Matrix.Transpose | src/pl/tomaszkax86/math/Matrix.java:463-471 | a square matrix becomes its transpose and the result scratch holds the old cells; otherwise IllegalArgumentException, with neither this nor the scratch changed |
| Matrices.Matrix.Inverse | src/pl/tomaszkax86/math/Matrix.java:446-457 | IllegalStateException unless square, UnsupportedOperationException unless 3 x 3, IllegalArgumentException for a near-zero determinant; otherwise the as-written inverse3, with the result scratch holding the old cells; on every failure neither this nor the scratch changes |
| Matrices.Matrix.LoadCameraView | src/pl/tomaszkax86/math/Matrix.java:782-800 | the matrix becomes CameraView of the angles' cosines and sines; with other than 4 columns it is left at the identity and IllegalArgumentException is raised |
| Matrices.Matrix.CameraSteps | src/pl/tomaszkax86/math/Matrix.java:788-799 | the four builder-and-transform steps leave CameraView |
| Matrices.Matrix.CameraViewSteps | src/pl/tomaszkax86/math/Matrix.java:788-799 | the identity times roll, pitch, yaw and move, in that order, is CameraView |
| Matrices.Matrix.LoadAndTransform | src/pl/tomaszkax86/math/Matrix.java:788-799 | loading a builder into the scratch matrix and transforming by it multiplies by the builder's matrix |
| Matrices.Matrix.Store | src/pl/tomaszkax86/math/Matrix.java:560-576 | BufferOverflowException when the buffer has fewer than rows * columns cells; otherwise the buffer holds the column-major cells and is flipped |
| Matrices.Matrix.StoreColumn | src/pl/tomaszkax86/math/Matrix.java:564-572 | one column of the store loop appends that column's cells |
| Matrices.Matrix.Load | src/pl/tomaszkax86/math/Matrix.java:516-530 | IndexOutOfBoundsException when the buffer's limit is below rows * columns, with the cells read so far kept; otherwise the cells are read in column-major order |
| Matrices.FloatBuffer.Clear | src/pl/tomaszkax86/math/Matrix.java:565 | clear: position 0 and limit the capacity, cells unchanged |
| Matrices.FloatBuffer.Put | src/pl/tomaszkax86/math/Matrix.java:571 | put: BufferOverflowException and no change when position has reached limit, otherwise the cell at position is written and position advances |
| Matrices.FloatBuffer.Flip | src/pl/tomaszkax86/math/Matrix.java:575 | flip: limit becomes the old position and position 0 |
| Matrices.FloatBuffer.Get | src/pl/tomaszkax86/math/Matrix.java:526 | absolute get: IndexOutOfBoundsException exactly when the index is not below limit, otherwise the cell at the index |
| Matrices.Matrix.LoadColumn | src/pl/tomaszkax86/math/Matrix.java:520-528 | one column of the load loop reads the next rows values or stops at the limit |
| Matrices.Matrix.LoadedCells | src/pl/tomaszkax86/math/Matrix.java:516-530 | the cells read by the loop are those Loaded describes |
| MeshTypes.VertexOf | src/pl/tomaszkax86/model/Vertex.java:76-109 | NullPointerException exactly for a null position; otherwise the position and material are taken, a null texture gives (0, 0) and a null normal (0, 1, 0) |
| MeshTypes.VertexOfParts | src/pl/tomaszkax86/model/Vertex.java:52-109 | the four-argument constructor applied to a vertex's own parts gives the nine-argument vertex |
| MeshTypes.VertexOfDefaults | src/pl/tomaszkax86/model/Vertex.java:76-109 | null texture and normal mean exactly the default texture and normal |
| MeshTypes.VertexBuilder.constructor | src/pl/tomaszkax86/model/VertexBuilder.java:34-42 | a new builder holds zeros and no material |
| MeshTypes.VertexBuilder.ToVertex | src/pl/tomaszkax86/model/VertexBuilder.java:332-335 | the vertex has the builder's fields, and equals the four-argument constructor applied to its parts |
| MeshTypes.VertexBuilder.SetX | src/pl/tomaszkax86/model/VertexBuilder.java:58-63 | only x changes, and the builder is returned |
| MeshTypes.VertexBuilder.SetY | src/pl/tomaszkax86/model/VertexBuilder.java:79-84 | only y changes |
| MeshTypes.VertexBuilder.SetZ | src/pl/tomaszkax86/model/VertexBuilder.java:100-105 | only z changes |
| MeshTypes.VertexBuilder.SetNX | src/pl/tomaszkax86/model/VertexBuilder.java:121-126 | only nx changes |
| MeshTypes.VertexBuilder.SetNY | src/pl/tomaszkax86/model/VertexBuilder.java:142-147 | only ny changes |
| MeshTypes.VertexBuilder.SetNZ | src/pl/tomaszkax86/model/VertexBuilder.java:163-168 | only nz changes |
| MeshTypes.VertexBuilder.SetU | src/pl/tomaszkax86/model/VertexBuilder.java:184-189 | only u changes |
| MeshTypes.VertexBuilder.SetV | src/pl/tomaszkax86/model/VertexBuilder.java:205-210 | only v changes |
| MeshTypes.VertexBuilder.SetMaterial | src/pl/tomaszkax86/model/VertexBuilder.java:226-231 | only the material changes |
| MeshTypes.VertexBuilder.SetVertexCoordXY | src/pl/tomaszkax86/model/VertexBuilder.java:239-244 | the position becomes (x, y, 0) |
| MeshTypes.VertexBuilder.SetVertexCoord | src/pl/tomaszkax86/model/VertexBuilder.java:253-260 | the position becomes (x, y, z), nothing else changes |
| MeshTypes.VertexBuilder.SetVertexCoordOf | src/pl/tomaszkax86/model/VertexBuilder.java:267-272 | the built vertex's position is the given coordinate |
| MeshTypes.VertexBuilder.SetTextureCoord | src/pl/tomaszkax86/model/VertexBuilder.java:280-286 | the texture coordinate becomes (u, v) |
| MeshTypes.VertexBuilder.SetTextureCoordOf | src/pl/tomaszkax86/model/VertexBuilder.java:293-298 | the built vertex's texture coordinate is the given one |
| MeshTypes.VertexBuilder.SetNormal | src/pl/tomaszkax86/model/VertexBuilder.java:307-314 | the normal becomes (nx, ny, nz) |
| MeshTypes.VertexBuilder.SetNormalOf | src/pl/tomaszkax86/model/VertexBuilder.java:321-326 | the built vertex's normal is the given one |
| Meshes.FindGroup | src/pl/tomaszkax86/model/Model.java:68-76 | the search finds the first group with the vertex's material, or reports that there is none |
| Meshes.AddKeepsInvariant | src/pl/tomaszkax86/model/Model.java:66-82 | add keeps the group materials distinct and each group holding only its material |
| Meshes.AddTo | src/pl/tomaszkax86/model/Model.java:66-82 | add creates a group exactly when no group has the vertex's material, and every existing group keeps its material |
| Meshes.AddAll | src/pl/tomaszkax86/model/Model.java:66-82 | adding k vertices creates at most k groups and removes none |
| Meshes.Build | src/pl/tomaszkax86/model/Model.java:66-82 | a model of n added vertices has at most n groups |
| Meshes.AddExtends | src/pl/tomaszkax86/model/Model.java:66-82 | add appends to at most one group or adds one group at the end, only extends existing groups, and leaves the vertex at the end of its material's group |
| Meshes.AddCountsOne | src/pl/tomaszkax86/model/Model.java:66-82 | add increases the number of vertices by exactly one |
| Meshes.AddAllConcat | src/pl/tomaszkax86/model/Model.java:66-82 | adding two runs of vertices one after the other is adding their concatenation |
| Meshes.BuildKeepsInvariant | src/pl/tomaszkax86/model/Model.java:66-82 | a model built from any vertices has distinct, homogeneous groups |
| Meshes.BuildCounts | src/pl/tomaszkax86/model/Model.java:66-82 | the groups together hold every added vertex |
| Meshes.BuildCovers | src/pl/tomaszkax86/model/Model.java:66-82 | every added vertex's material has a group |
| Meshes.BuildGroupsByMaterial | src/pl/tomaszkax86/model/Model.java:66-82 | each group holds exactly the added vertices of its material, in insertion order |
| Meshes.GroupsAtMostVertices | src/pl/tomaszkax86/model/Model.java:41-48 | with no empty groups there are at most as many groups as vertices |
| Meshes.VertexGroup.constructor | src/pl/tomaszkax86/model/VertexGroup.java:37-47 | a new empty group of the material |
| Meshes.VertexGroup.Size | src/pl/tomaszkax86/model/VertexGroup.java:53-56 | the number of vertices |
| Meshes.VertexGroup.Get | src/pl/tomaszkax86/model/VertexGroup.java:63-66 | the vertex at the index, IndexOutOfBoundsException otherwise |
| Meshes.VertexGroup.Add | src/pl/tomaszkax86/model/VertexGroup.java:81-87 | IllegalArgumentException and no change for a vertex of another material; otherwise the vertex is appended |
| Meshes.Model.ValidContents | src/pl/tomaszkax86/model/Model.java:66-82 | a valid model's groups have distinct materials and hold only their material |
| Meshes.Model.constructor | src/pl/tomaszkax86/model/Model.java:38 | a new model has no groups |
| Meshes.Model.Size | src/pl/tomaszkax86/model/Model.java:45-48 | the number of groups, which is at most the number of vertices |
| Meshes.Model.Get | src/pl/tomaszkax86/model/Model.java:55-58 | the group at the index, IndexOutOfBoundsException otherwise |
| Meshes.Model.Add | src/pl/tomaszkax86/model/Model.java:66-82 | the model's contents become AddTo of the old contents |
| Meshes.Model.AddAt | src/pl/tomaszkax86/model/Model.java:71-74 | the vertex is appended to the found group and nothing else changes |
| Meshes.Model.AddGroup | src/pl/tomaszkax86/model/Model.java:78-81 | a new group holding only the vertex is appended |
| ObjLoader.Fields | src/pl/tomaszkax86/model/OBJModelLoader.java:81 | splitting at every separator gives at least one piece |
| ObjLoader.TrimEmpty | src/pl/tomaszkax86/model/OBJModelLoader.java:81 | String.split drops trailing empty pieces only: the result is a prefix, not ending in "", and only "" is dropped |
| ObjLoader.FieldsJoin | src/pl/tomaszkax86/model/OBJModelLoader.java:81 | joining the pieces with the separator gives the line back, and no piece contains the separator |
| ObjLoader.SplitPieces | src/pl/tomaszkax86/model/OBJModelLoader.java:81 | split's pieces hold no separator, are a prefix of the pieces with trailing empties dropped, and a line without a separator is its own single piece |
| ObjLoader.Split | src/pl/tomaszkax86/model/OBJModelLoader.java:81 | a string without the separator is its own single piece; otherwise the pieces between separators with only empty pieces dropped at the end, the last piece kept being non-empty |
| ObjLoader.SplitFullToken | src/pl/tomaszkax86/model/OBJModelLoader.java:119 | "1/2/3" splits into "1", "2", "3" |
| ObjLoader.SplitEmptyMiddle | src/pl/tomaszkax86/model/OBJModelLoader.java:119 | "1//3" keeps the empty middle piece |
| ObjLoader.SplitTrailingSeparator | src/pl/tomaszkax86/model/OBJModelLoader.java:119 | "1/2/" drops the trailing empty piece |
| ObjLoader.SplitWithoutSeparator | src/pl/tomaszkax86/model/OBJModelLoader.java:81-83 | a line without a separator is one piece, and the empty line gives [""] |
| ObjLoader.SplitOnlySeparator | src/pl/tomaszkax86/model/OBJModelLoader.java:81-83 | " " splits into no pieces, so parts[0] is out of range |
| ObjLoader.Token | src/pl/tomaszkax86/model/OBJModelLoader.java:86-88 | parts[i], or an index error past the end |
| ObjLoader.Element | src/pl/tomaszkax86/model/OBJModelLoader.java:125-127 | ArrayList.get: the element, or IndexOutOfBoundsException for a negative or too large index |
| ObjLoader.FoldNext | src/pl/tomaszkax86/model/OBJModelLoader.java:76-143 | one more line reads the state left by the lines before it |
| ObjLoader.FoldStops | src/pl/tomaszkax86/model/OBJModelLoader.java:76-143 | once a line throws, the rest of the input is not read and the error is the result |
| ObjLoader.FaceVertices | src/pl/tomaszkax86/model/OBJModelLoader.java:114-129 | a face of k tokens gives exactly k vertices, all with the current material |
| ObjLoader.VertexFold | src/pl/tomaszkax86/model/OBJModelLoader.java:117-129 | the attribute loop builds one vertex per token, each with the current material |
| ObjLoader.AttributeLines | src/pl/tomaszkax86/model/OBJModelLoader.java:85-103 | a v, vt or vn line that succeeds appends exactly one coordinate, texture coordinate or normal to its list and changes nothing else |
| ObjLoader.UseMaterialLine | src/pl/tomaszkax86/model/OBJModelLoader.java:109-111 | usemtl sets the current material to the map's entry for the name, or null when there is none |
| ObjLoader.OtherLines | src/pl/tomaszkax86/model/OBJModelLoader.java:83-142 | a line with any other keyword changes nothing |
| ObjLoader.BlankAndCommentLines | src/pl/tomaszkax86/model/OBJModelLoader.java:81-83 | an empty line and a comment line change nothing |
| ObjLoader.FieldsHead | src/pl/tomaszkax86/model/OBJModelLoader.java:81 | a line not starting with the separator has a first piece starting with its first character |
| ObjLoader.FaceTokenResolves | src/pl/tomaszkax86/model/OBJModelLoader.java:119-128 | a token v/t/n with in-range 1-based indices yields the vertex of coordinate v-1, texture t-1 and normal n-1 with the current material |
| ObjLoader.FaceTokenFails | src/pl/tomaszkax86/model/OBJModelLoader.java:119-128 | a token with fewer than three parts, or an index outside its list, makes the face throw |
| ObjLoader.FaceVertex | src/pl/tomaszkax86/model/OBJModelLoader.java:119-128 | a token of fewer than three pieces throws; a resolved vertex has the current material and its position, texture and normal from the lists read so far |
| ObjLoader.MissingComponents | src/pl/tomaszkax86/model/OBJModelLoader.java:119-123 | the common forms "1//3" and "1" are rejected when the parser rejects "" |
| ObjLoader.FanTriangles | src/pl/tomaszkax86/model/OBJModelLoader.java:131-139 | a polygon of k >= 3 vertices gives k - 2 triangles (v0, v(i+1), v(i+2)); fewer than 3 give none |
| ObjLoader.FanFromFace | src/pl/tomaszkax86/model/OBJModelLoader.java:131-139 | every emitted vertex is one of the face's vertices |
| ObjLoader.Fan | src/pl/tomaszkax86/model/OBJModelLoader.java:131-139 | a polygon of k >= 3 vertices gives 3(k - 2) vertices, fewer give none: always whole triangles |
| ObjLoader.FaceLine | src/pl/tomaszkax86/model/OBJModelLoader.java:113-141 | a face line that succeeds adds 3(k-2) vertices, the fan of its k vertices, all with the current material, and nothing else changes |
| ObjLoader.NewMaterialLine | src/pl/tomaszkax86/model/OBJModelLoader.java:164-167 | newmtl makes a fresh material with no texture, current and stored under its name |
| ObjLoader.TextureLine | src/pl/tomaszkax86/model/OBJModelLoader.java:169-172 | map_Kd without a current material throws NullPointerException; otherwise a fresh material with the current name and the given texture replaces it |
| ObjLoader.MaterialLineFresh | src/pl/tomaszkax86/model/OBJModelLoader.java:164-172 | one library line keeps every stored material's id below the counter and never lowers the counter |
| ObjLoader.MaterialLinesFresh | src/pl/tomaszkax86/model/OBJModelLoader.java:155-174 | so does the whole library file |
| ObjLoader.MaterialLine | src/pl/tomaszkax86/model/OBJModelLoader.java:160-173 | a line of only spaces (no pieces) throws ArrayIndexOutOfBoundsException; a line that goes through keeps every material name and raises the id counter by at most one |
| ObjLoader.StepFresh | src/pl/tomaszkax86/model/OBJModelLoader.java:83-142 | every model line keeps the material ids below the counter, so a new material is never == an old one |
| ObjLoader.Step | src/pl/tomaszkax86/model/OBJModelLoader.java:81-142 | a line with no pieces throws; a line that goes through only appends to the position, texture and normal lists and to the emitted vertices, by whole triangles |
| ObjLoader.Dispatch | src/pl/tomaszkax86/model/OBJModelLoader.java:83-142 | the switch on the first piece: the same as Step, given the pieces |
| ObjLoader.ReadFace | src/pl/tomaszkax86/model/OBJModelLoader.java:113-141 | a face line that goes through changes only the emitted vertices, appending whole triangles |
| ObjLoader.StepsAddTriangles | src/pl/tomaszkax86/model/OBJModelLoader.java:76-143 | a run of lines that goes through only extends the emitted vertices, by whole triangles |
| ObjLoader.Run | src/pl/tomaszkax86/model/OBJModelLoader.java:76-143 | a load that goes through has emitted whole triangles: a multiple of three vertices |
| ObjLoader.RunNext | src/pl/tomaszkax86/model/OBJModelLoader.java:76-143 | the loader's state after i + 1 lines is one step from the state after i |
| ObjLoader.RunStops | src/pl/tomaszkax86/model/OBJModelLoader.java:76-143 | a failing line ends the whole load with its error |
| ObjLoader.MaterialLinesStop | src/pl/tomaszkax86/model/OBJModelLoader.java:155-174 | a failing library line ends the library read with its error |
| ObjLoader.FaceVerticesStop | src/pl/tomaszkax86/model/OBJModelLoader.java:117-129 | the first failing token ends the face with its error |
| ObjLoader.LoadMaterials | src/pl/tomaszkax86/model/OBJModelLoader.java:149-180 | the read loop computes LibraryOf: the map after all newmtl and map_Kd lines, or IO for a missing file |
| ObjLoader.ParseFace | src/pl/tomaszkax86/model/OBJModelLoader.java:114-129 | the attribute loop computes FaceVertices |
| ObjLoader.Triangulate | src/pl/tomaszkax86/model/OBJModelLoader.java:131-139 | the model receives the fan of the face's vertices, in order |
| ObjLoader.AddTriangle | src/pl/tomaszkax86/model/OBJModelLoader.java:136-138 | the three adds of one triangle |
| ObjLoader.FanStep | src/pl/tomaszkax86/model/OBJModelLoader.java:134-139 | one more loop round appends the triangle (v0, v(i+1), v(i+2)) |
| ObjLoader.AddAllThree | src/pl/tomaszkax86/model/Model.java:66-82 | adding three more vertices is three adds |
| ObjLoader.LoadLine | src/pl/tomaszkax86/model/OBJModelLoader.java:81-142 | one line of the read loop computes Step, and the model remains Build of the emitted vertices |
| ObjLoader.LoadLibrary | src/pl/tomaszkax86/model/OBJModelLoader.java:105-107 | mtllib reads the named library into the map and emits no vertex |
| ObjLoader.LoadFace | src/pl/tomaszkax86/model/OBJModelLoader.java:113-141 | a face line computes ReadFace and adds its emitted vertices to the model |
| ObjLoader.Load | src/pl/tomaszkax86/model/OBJModelLoader.java:62-147 | load returns normally exactly when Run does, with Run's error otherwise; on success the model is fresh and holds exactly Build of the vertices Run emits |

## Left out

- Fixed float and double conversions (`toFixed(float)`, `toFixed(double)`, `toFloat`, `toDouble`) and the `Fixed` object wrapper (`Number` methods, `toString`, `asFixed`): they are floating-point rounding, which the model does not represent.
- Half arithmetic, the `int`, `long` and `double` overloads of `toHalf`, `toDouble`, and the `Half` object wrapper other than `equals`: the overloads only convert to `float` first, and the rest is floating-point arithmetic.
- HalfFloat.ToHalf: takes the float as sign, exponent and 24-bit significand; subnormal float inputs, and the rounding inside `Math.scalb` and the `(int)` cast, are assumed exact.
- Matrix `perspective`, `loadPerspective`, `lookAt` and `loadLookAt`: they need tangent, square root and division of floats. Line 735 of `loadLookAt` computes the z of the up vector with `forwardY * sideZ` where the cross product needs `forwardY * sideX`; this is not modelled.
- Matrix `load`/`store` through a `ByteBuffer`, `clone`, `subCopy`, `toString` and serialization: byte layout and object copying are outside the model. `FloatBuffer` is modelled only as far as `store` and `load` use it (`Matrices.FloatBuffer`); its constructor `Allocate` stands in for `java.nio.FloatBuffer.allocate` and models no line of this repository.
- Matrix `getRows` and `getColumns` are the fields `rows` and `columns`.
- Matrices.Matrix.Multiply: requires that result is neither operand; with aliasing the source overwrites cells it still reads, and the model does not describe that result.
- Matrices.Matrix.TransposeInto: requires distinct source and destination arrays, for the same reason.
- Matrices.Matrix.LoadOrtho: requires non-zero extents; in floats the source divides by zero and produces infinities.
- Matrices.Matrix.LoadOrtho2D: requires non-zero extents, for the same reason.
- Matrices.Matrix.Inverse: the determinant test compares a real with the constant `INVERSE_EPSILON` (1e-6); the float rounding of the determinant is not modelled.
- Matrices.Matrix.LoadRotationX: takes the cosine and sine of the angle instead of the angle (the same for Y and Z); `LoadCameraView` receives `cos` and `sin` as functions.
- Vectors.CrossArrays: states the result only when result aliases neither operand; with aliasing the source reads overwritten cells.
- Vectors.NormalizeWindow: states the scaled values, not that their length is 1, which does not hold for floats and was not proved for reals.
- Vector `toString` is not modelled, and `Vector` equality is not part of the source.
- Reading lines from a `Reader` or stream and closing it: the model takes the file as a sequence of lines and the material libraries as a map from file name to lines. An `IOException` while reading the model file is not modelled; a missing library file is `IO`, which is what the wrapping `RuntimeException` stands for.
- `Float.parseFloat` and `Integer.parseInt` are parameters of the loader. Their result is taken as is, so which strings they reject is not modelled.
- In `parseInt(...) - 1` the `int` subtraction could wrap only for `Integer.MIN_VALUE`, which is out of range as an index both before and after wrapping; the model subtracts without wrapping.
- A null argument to the `VertexBuilder` methods taking a `VertexCoord`, `TextureCoord` or `Normal` (a `NullPointerException` in the source) cannot be written: those arguments are values.
- The `Iterable` implementations of `Model` and `VertexGroup`: iteration order is the order of `Contents` and of `vertices`.
- The two-argument `VertexCoord` constructor (z = 0) and every getter of the value classes: datatype fields stand for them.
- `ModelLoader.java` is an interface, and `getName`, `getDescription` and `getExtension` of the loader return constant strings; neither is part of this model.

## Findings

| source | as written | input that shows it | evidently intended | confidence | as-written member | corrected member |
|---|---|---|---|---|---|---|
| src/pl/tomaszkax86/math/Half.java:207-210 | the leading bit of a normal value is added with `significand \|= SIGN_MASK`, which is bit 15 | ONE (0x3C00) decodes to 32.0, although 1.0 encodes to ONE | OR in bit 10 (0x400), so that decoding inverts encoding | not executed | HalfFloat.DecodeOneIsThirtyTwo | HalfFloat.IntendedRoundTrip |
| src/pl/tomaszkax86/math/Half.java:191-201 | a subnormal is scaled by 2^(exponent - 10) with exponent = -15 | MIN_VALUE (0x0001) decodes to 2^-25 | subnormals use exponent -14, giving 2^-24 | not executed | HalfFloat.DecodeMinValueIsHalved | HalfFloat.IntendedSubnormalsMeetNormals |
| src/pl/tomaszkax86/math/Matrix.java:1029-1047 | cofactor (i, j) is stored at dest (i, j), giving the transpose of the inverse | the shear [[1, 1, 0], [0, 1, 0], [0, 0, 1]]: the matrix times the result has 0 in cell (0, 0) | store cofactor (i, j) at dest (j, i), the adjugate | not executed | Grids.InverseAsWrittenCounterexample | Grids.InverseIsInverse |
| src/pl/tomaszkax86/math/Vector.java:399 | copy writes `to.values[firstFrom + i]`, ignoring firstTo | from = [1, 2], to = [0, 0], firstFrom = 0, firstTo = 1, count = 1 gives [1, 0] | write `to.values[firstTo + i]`, giving [0, 1] | not executed | Vectors.CopyIgnoresFirstTo | Vectors.CopyVectorsIntended |
| src/pl/tomaszkax86/math/Vector.java:166-169 | `set(first, values, offset, count)` reads the array from first and writes the vector from offset | values = [1, 2], vector [0, 0], first = 1, offset = 0, count = 1 gives [2, 0] | read the array from offset and write the vector from first, giving [0, 1] | not executed | Vectors.SetRangeSwapsArguments | Vectors.Vector.SetRangeAsDocumented |
