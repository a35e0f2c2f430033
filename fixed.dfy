/**
 * Q16.16 fixed-point arithmetic on a 32-bit two's-complement int, as in
 * pl.tomaszkax86.math.Fixed: 16 integer bits, 16 fraction bits.
 *
 * Java ints and longs are modelled as bounded subsets of int, and every place
 * the source relies on two's-complement wrap-around is written out with
 * Wrap16/Wrap32/Wrap64. Java's `>>` is floor division by a power of two (which
 * is Dafny's `/` for a positive divisor); Java's long `/` truncates toward zero
 * and is TruncDiv here.
 */
module FixedPoint {
  import opened Runtime

  const TWO_POW_15: int := 0x8000
  const TWO_POW_16: int := 0x1_0000
  const TWO_POW_31: int := 0x8000_0000
  const TWO_POW_32: int := 0x1_0000_0000
  const TWO_POW_47: int := 0x8000_0000_0000
  const TWO_POW_63: int := 0x8000_0000_0000_0000
  const TWO_POW_64: int := 0x1_0000_0000_0000_0000

  type Int16 = x: int | -0x8000 <= x < 0x8000
  type Int32 = x: int | -0x8000_0000 <= x < 0x8000_0000
  type Int64 = x: int | -0x8000_0000_0000_0000 <= x < 0x8000_0000_0000_0000

  // ---------------------------------------------------------------------
  // Two's-complement helpers
  // ---------------------------------------------------------------------

  /** A narrowing cast to short: the unique 16-bit value congruent to x. */
  function Wrap16(x: int): (r: Int16)
    ensures (r - x) % TWO_POW_16 == 0
    ensures -TWO_POW_15 <= x < TWO_POW_15 ==> r == x
  {
    (x + TWO_POW_15) % TWO_POW_16 - TWO_POW_15
  }

  /** A narrowing cast to int (or int arithmetic that overflows). */
  function Wrap32(x: int): (r: Int32)
    ensures (r - x) % TWO_POW_32 == 0
    ensures -TWO_POW_31 <= x < TWO_POW_31 ==> r == x
  {
    (x + TWO_POW_31) % TWO_POW_32 - TWO_POW_31
  }

  /** A narrowing cast to long (or long arithmetic that overflows). */
  function Wrap64(x: int): (r: Int64)
    ensures (r - x) % TWO_POW_64 == 0
    ensures -TWO_POW_63 <= x < TWO_POW_63 ==> r == x
  {
    (x + TWO_POW_63) % TWO_POW_64 - TWO_POW_63
  }

  /** Two 32-bit values congruent modulo 2^32 are equal. */
  lemma Wrap32Unique(x: int, r: int)
    requires -TWO_POW_31 <= r < TWO_POW_31
    requires (r - x) % TWO_POW_32 == 0
    ensures Wrap32(x) == r
  {
    var w := Wrap32(x);
    var d := w - r;
    assert d == (w - x) - (r - x);
    assert d % TWO_POW_32 == 0 by {
      var k1 := (w - x) / TWO_POW_32;
      var k2 := (r - x) / TWO_POW_32;
      assert d == TWO_POW_32 * (k1 - k2);
    }
    assert -TWO_POW_32 < d < TWO_POW_32;
  }

  /** Java's `a / b` on longs: the quotient truncated toward zero. */
  function TruncDiv(a: int, b: int): (q: int)
    requires b != 0
    ensures 0 <= a ==> 0 <= a - q * b < Abs(b)
    ensures a < 0 ==> -Abs(b) < a - q * b <= 0
    ensures 0 <= a && 0 < b ==> q == a / b
  {
    if a >= 0 then
      (if b > 0 then a / b else -(a / -b))
    else
      (if b > 0 then -((-a) / b) else (-a) / (-b))
  }

  function Abs(x: int): int { if x < 0 then -x else x }

  /**
   * Truncating division rounds the magnitude of the quotient down, and a
   * non-zero quotient is negative exactly when the operands' signs differ.
   */
  lemma TruncDivRoundsDown(a: int, b: int)
    requires b != 0
    ensures Abs(TruncDiv(a, b)) * Abs(b) <= Abs(a) < (Abs(TruncDiv(a, b)) + 1) * Abs(b)
    ensures TruncDiv(a, b) == 0 || (TruncDiv(a, b) < 0 <==> (a < 0) != (b < 0))
  {
    RemainderBracket(a, b, TruncDiv(a, b));
  }

  /** Any quotient whose remainder is below |b| and signed like a has those two properties. */
  lemma RemainderBracket(a: int, b: int, q: int)
    requires b != 0
    requires 0 <= a ==> 0 <= a - q * b < Abs(b)
    requires a < 0 ==> -Abs(b) < a - q * b <= 0
    ensures Abs(q) * Abs(b) <= Abs(a) < (Abs(q) + 1) * Abs(b)
    ensures q == 0 || (q < 0 <==> (a < 0) != (b < 0))
  {
    var p := Abs(q) * Abs(b);
    assert (Abs(q) + 1) * Abs(b) == p + Abs(b);
    AbsMul(q, b);
    if q != 0 {
      MulMagnitude(q, b);
    }
    if 0 <= a {
      assert q * b >= 0;
      assert q * b == p;
    } else {
      assert q * b <= 0;
      assert q * b == -p;
    }
    if q != 0 {
      MulSign(q, b);
    }
  }

  /** |a * b| == |a| * |b|. */
  lemma AbsMul(a: int, b: int)
    ensures Abs(a * b) == Abs(a) * Abs(b)
  {
    var x, y := Abs(a), Abs(b);
    if a < 0 { assert a * b == -(x * b); } else { assert a * b == x * b; }
    if b < 0 { assert x * b == -(x * y); } else { assert x * b == x * y; }
  }

  /** A product of non-zero integers is negative exactly when their signs differ. */
  lemma MulSign(a: int, b: int)
    requires a != 0 && b != 0
    ensures a * b < 0 <==> (a < 0) != (b < 0)
  {
    AbsMul(a, b);
    var x, y := Abs(a), Abs(b);
    LeMul(1, x, y);
    if a < 0 { assert a * b == -(x * b); } else { assert a * b == x * b; }
    if b < 0 { assert x * b == -(x * y); } else { assert x * b == x * y; }
  }

  // ---------------------------------------------------------------------
  // Constants (Fixed.java, lines 288-317)
  // ---------------------------------------------------------------------

  const BYTES: int := 4
  const SIZE: int := 32
  const BIT_SHIFT: int := 16

  /** Documented as the fixed-point zero, but the literal is 0b...0001. */
  const ZERO: Int32 := 1
  const ONE: Int32 := 0x1_0000
  /**
   * The literal (a 0 followed by 32 one-bits) is the int bit pattern
   * 0xFFFF_FFFF, so MAX_VALUE is -1 rather than the largest Q16.16 value.
   */
  const MAX_VALUE: Int32 := Wrap32(0xFFFF_FFFF)
  const MIN_VALUE: Int32 := 1

  // ---------------------------------------------------------------------
  // Conversions
  // ---------------------------------------------------------------------

  /** toFixed(short): the short is widened to int and shifted left by 16. */
  function ToFixedShort(value: Int16): (f: Int32)
    ensures f == value * TWO_POW_16
    ensures ToInt(f) == value
  {
    Wrap32(value * TWO_POW_16)
  }

  /** toFixed(int): `value << 16` on an int, wrapping modulo 2^32. */
  function ToFixedInt(value: Int32): (f: Int32)
    ensures f == Wrap16(value) * TWO_POW_16
  {
    ShiftLeftIsShortTimesOne(value);
    Wrap32(value * TWO_POW_16)
  }

  /** toFixed(long): `(int)(value << 16)`, a 64-bit shift then a cast to int. */
  function ToFixedLong(value: Int64): (f: Int32)
    ensures f == Wrap16(value) * TWO_POW_16
    ensures -TWO_POW_31 <= value < TWO_POW_31 ==> f == ToFixedInt(value)
  {
    var shifted := Wrap64(value * TWO_POW_16);
    Wrap64ThenWrap32(value * TWO_POW_16);
    ShiftLeftIsShortTimesOne(value);
    Wrap32(shifted)
  }

  /** toInt: `fixed >> 16`, which rounds toward negative infinity. */
  function ToInt(fixed: Int32): (n: Int32)
    ensures n * TWO_POW_16 <= fixed < n * TWO_POW_16 + TWO_POW_16
    ensures -TWO_POW_15 <= n < TWO_POW_15
  {
    fixed / TWO_POW_16
  }

  /** toShort: `(short)(fixed >> 16)`; the cast never changes the value. */
  function ToShort(fixed: Int32): (n: Int16)
    ensures n == ToInt(fixed)
  {
    Wrap16(fixed / TWO_POW_16)
  }

  /** toLong: `fixed >> 16` widened to long. */
  function ToLong(fixed: Int32): (n: Int64)
    ensures n == ToInt(fixed)
  {
    fixed / TWO_POW_16
  }

  /** (value * 2^16) mod 2^32 only keeps the low 16 bits of value. */
  lemma ShiftLeftIsShortTimesOne(value: int)
    ensures Wrap32(value * TWO_POW_16) == Wrap16(value) * TWO_POW_16
  {
    var w := Wrap16(value);
    var k := (w - value) / TWO_POW_16;
    assert w - value == TWO_POW_16 * k;
    assert w * TWO_POW_16 - value * TWO_POW_16 == TWO_POW_32 * k;
    assert (w * TWO_POW_16 - value * TWO_POW_16) % TWO_POW_32 == 0;
    Wrap32Unique(value * TWO_POW_16, w * TWO_POW_16);
  }

  /** Truncating to 64 bits and then to 32 bits is truncating to 32 bits. */
  lemma Wrap64ThenWrap32(x: int)
    ensures Wrap32(Wrap64(x)) == Wrap32(x)
  {
    var w, r := Wrap64(x), Wrap32(x);
    var k := (w - x) / TWO_POW_64;
    var j := (r - x) / TWO_POW_32;
    assert w - x == TWO_POW_64 * k;
    assert r - x == TWO_POW_32 * j;
    var m := j - TWO_POW_32 * k;
    assert r - w == TWO_POW_32 * m;
    assert (r - w) % TWO_POW_32 == 0 by {
      assert (TWO_POW_32 * m) % TWO_POW_32 == 0;
    }
    Wrap32Unique(w, r);
  }

  // ---------------------------------------------------------------------
  // Arithmetic
  // ---------------------------------------------------------------------

  /** add: plain int addition, wrapping on overflow. */
  function Add(x: Int32, y: Int32): (r: Int32)
    ensures (r - (x + y)) % TWO_POW_32 == 0
    ensures -TWO_POW_31 <= x + y < TWO_POW_31 ==> r == x + y
  {
    Wrap32(x + y)
  }

  /** subtract: plain int subtraction, wrapping on overflow. */
  function Subtract(x: Int32, y: Int32): (r: Int32)
    ensures (r - (x - y)) % TWO_POW_32 == 0
    ensures -TWO_POW_31 <= x - y < TWO_POW_31 ==> r == x - y
  {
    Wrap32(x - y)
  }

  /**
   * multiply: `(int)(((long) x * (long) y) >> 16)`. The 64-bit product of two
   * ints never overflows, so only the final cast wraps.
   */
  function Multiply(x: Int32, y: Int32): (r: Int32)
    ensures (r - (x * y) / TWO_POW_16) % TWO_POW_32 == 0
    ensures -TWO_POW_31 <= (x * y) / TWO_POW_16 < TWO_POW_31 ==>
      r * TWO_POW_16 <= x * y < (r + 1) * TWO_POW_16
  {
    Wrap32((x * y) / TWO_POW_16)
  }

  /**
   * divide: `(int)(((long) x << 16) / (long) y)`. The shifted dividend fits in
   * 48 bits; a zero divisor raises ArithmeticException.
   */
  function Divide(x: Int32, y: Int32): (r: Result<Int32>)
    ensures r.Err? <==> y == 0
    ensures r.Err? ==> r.error == Arithmetic
    ensures r.Ok? && Abs(x * TWO_POW_16) < TWO_POW_31 * Abs(y) ==>
      Abs(r.value) * Abs(y) <= Abs(x * TWO_POW_16) < (Abs(r.value) + 1) * Abs(y)
    ensures r.Ok? && Abs(x * TWO_POW_16) < TWO_POW_31 * Abs(y) ==>
      r.value == 0 || (r.value < 0 <==> (x < 0) != (y < 0))
    ensures r.Ok? ==> (r.value - TruncDiv(x * TWO_POW_16, y)) % TWO_POW_32 == 0
  {
    if y == 0 then Err(Arithmetic)
    else
      var q := TruncDiv(x * TWO_POW_16, y);
      TruncDivRoundsDown(x * TWO_POW_16, y);
      QuotientFits(q, Abs(x * TWO_POW_16), Abs(y));
      Ok(Wrap32(q))
  }

  /** A quotient whose bracket lies below 2^31 * |b| fits in an int. */
  lemma QuotientFits(q: int, a: nat, b: nat)
    requires b > 0 && Abs(q) * b <= a
    ensures a < TWO_POW_31 * b ==> -TWO_POW_31 < q < TWO_POW_31
  {
    if Abs(q) >= TWO_POW_31 {
      assert Abs(q) * b >= TWO_POW_31 * b;
    }
  }

  /** Subtracting what was added restores the original value, overflow or not. */
  lemma SubtractUndoesAdd(x: Int32, y: Int32)
    ensures Subtract(Add(x, y), y) == x
  {
    var s := Add(x, y);
    var k := (s - (x + y)) / TWO_POW_32;
    assert s - (x + y) == TWO_POW_32 * k;
    assert (x - (s - y)) % TWO_POW_32 == 0 by {
      assert x - (s - y) == TWO_POW_32 * (-k);
    }
    Wrap32Unique(s - y, x);
  }

  /** Adding what was subtracted restores the original value, overflow or not. */
  lemma AddUndoesSubtract(x: Int32, y: Int32)
    ensures Add(Subtract(x, y), y) == x
  {
    var s := Subtract(x, y);
    var k := (s - (x - y)) / TWO_POW_32;
    assert s - (x - y) == TWO_POW_32 * k;
    assert (x - (s + y)) % TWO_POW_32 == 0 by {
      assert x - (s + y) == TWO_POW_32 * (-k);
    }
    Wrap32Unique(s + y, x);
  }

  /** multiply is floor(x*y / 2^16) cast to int, and ONE is its unit. */
  lemma MultiplyByOne(x: Int32)
    ensures Multiply(x, ONE) == x && Multiply(ONE, x) == x
    ensures Multiply(x, ONE) == Wrap32((x * ONE) / TWO_POW_16)
  {
    assert x * ONE == x * TWO_POW_16;
    assert (x * TWO_POW_16) / TWO_POW_16 == x;
  }

  /** Multiplying two whole numbers gives the fixed-point form of their product. */
  lemma MultiplyWholeNumbers(a: Int16, b: Int16)
    requires -TWO_POW_15 <= a * b < TWO_POW_15
    ensures Multiply(ToFixedShort(a), ToFixedShort(b)) == ToFixedShort(a * b)
  {
    var p := a * b;
    assert ToFixedShort(a) * ToFixedShort(b) == p * TWO_POW_16 * TWO_POW_16;
    assert (p * TWO_POW_16 * TWO_POW_16) / TWO_POW_16 == p * TWO_POW_16;
  }

  /** Adding two whole numbers gives the fixed-point form of their sum. */
  lemma AddWholeNumbers(a: Int16, b: Int16)
    requires -TWO_POW_15 <= a + b < TWO_POW_15
    ensures Add(ToFixedShort(a), ToFixedShort(b)) == ToFixedShort(a + b)
  {
  }

  /** Dividing by ONE is the identity. */
  lemma DivideByOne(x: Int32)
    ensures Divide(x, ONE) == Ok(x)
  {
    assert TruncDiv(x * TWO_POW_16, TWO_POW_16) == x;
  }

  /** Any nonzero value divided by itself is ONE. */
  lemma DivideBySelf(x: Int32)
    requires x != 0
    ensures Divide(x, x) == Ok(ONE)
  {
    var q := TruncDiv(x * TWO_POW_16, x);
    var d := x * TWO_POW_16 - q * x;
    assert d == (TWO_POW_16 - q) * x;
    if q != TWO_POW_16 {
      MulMagnitude(TWO_POW_16 - q, x);
      assert false;
    }
  }

  /** |a * b| >= |b| when a is a nonzero integer. */
  lemma MulMagnitude(a: int, b: int)
    requires a != 0
    ensures Abs(a * b) >= Abs(b)
  {
    var x := Abs(a);
    var y := Abs(b);
    assert Abs(a * b) == x * y by {
      if a < 0 { assert a * b == -(x * b); }
      else { assert a * b == x * b; }
      if b < 0 { assert x * b == -(x * y); }
      else { assert x * b == x * y; }
    }
    LeMul(1, x, y);
  }

  /** Whole numbers whose quotient is exact divide to the quotient's fixed form. */
  lemma DivideWholeNumbers(a: Int16, b: Int16)
    requires b != 0 && a % b == 0
    requires -TWO_POW_15 <= a / b < TWO_POW_15
    ensures Divide(ToFixedShort(a), ToFixedShort(b)) == Ok(ToFixedShort(a / b))
  {
    var c := a / b;
    assert a == b * c;
    var num := ToFixedShort(a) * TWO_POW_16;
    var den := ToFixedShort(b);
    assert num == (c * TWO_POW_16) * den;
    var q := TruncDiv(num, den);
    var d := num - q * den;
    assert d == (c * TWO_POW_16 - q) * den;
    if q != c * TWO_POW_16 {
      MulMagnitude(c * TWO_POW_16 - q, den);
      assert false;
    }
  }

  /** The example from the source's documentation: 2 / 2 is 1. */
  lemma DivideTwoByTwo()
    ensures Divide(ToFixedShort(2), ToFixedShort(2)).Ok?
    ensures ToInt(Divide(ToFixedShort(2), ToFixedShort(2)).value) == 1
  {
    DivideWholeNumbers(2, 2);
  }

  /** toFixed then toInt is the identity on shorts; wider ints lose their high bits. */
  lemma ToIntAfterToFixed(n: Int32)
    ensures ToInt(ToFixedInt(n)) == Wrap16(n)
    ensures -TWO_POW_15 <= n < TWO_POW_15 ==> ToInt(ToFixedInt(n)) == n
  {
    assert (Wrap16(n) * TWO_POW_16) / TWO_POW_16 == Wrap16(n);
  }

  /** The constants as the literals define them. */
  lemma ConstantValues()
    ensures ONE == 65536 && ZERO == 1 && MIN_VALUE == ZERO && MAX_VALUE == -1
    ensures ToInt(ONE) == 1 && ToInt(ZERO) == 0 && ToInt(MAX_VALUE) == -1
  {
  }

  // ---------------------------------------------------------------------
  // Square root
  // ---------------------------------------------------------------------

  /**
   * One Newton step on a long: `(result + fix / result) >> 1`. Starting from
   * magnitudes of at most 2^47, the sum stays within 2^48, so the long
   * arithmetic never wraps and unbounded integers model it exactly.
   */
  function NewtonStep(n: int, r: int): (s: int)
    requires r != 0
    ensures -TWO_POW_47 <= n <= TWO_POW_47 && -TWO_POW_47 <= r <= TWO_POW_47 ==>
      -TWO_POW_47 <= s <= TWO_POW_47
  {
    var q := TruncDiv(n, r);
    TruncDivMagnitude(n, r);
    (r + q) / 2
  }

  lemma TruncDivMagnitude(a: int, b: int)
    requires b != 0
    ensures Abs(TruncDiv(a, b)) <= Abs(a)
  {
    var q := TruncDiv(a, b);
    if q != 0 {
      MulMagnitude(q, b);
      MulMagnitude(b, q);
    }
  }

  /** Runs `steps` Newton steps; None when a step would divide by zero. */
  function Newton(n: int, r: int, steps: nat): (o: Option<int>)
    decreases steps
    ensures -TWO_POW_47 <= n <= TWO_POW_47 && -TWO_POW_47 <= r <= TWO_POW_47 && o.Some? ==>
      -TWO_POW_47 <= o.value <= TWO_POW_47
  {
    if steps == 0 then Some(r)
    else if r == 0 then None
    else Newton(n, NewtonStep(n, r), steps - 1)
  }

  /** What sqrt computes: five steps on fixed << 16 seeded with fixed >> 1. */
  function SqrtSpec(fixed: Int32): Result<Int32>
  {
    match Newton(fixed * TWO_POW_16, fixed / 2, 5)
    case None => Err(Arithmetic)
    case Some(r) => Ok(Wrap32(r))
  }

  /** sqrt: the loop of the source, five steps on a long accumulator. */
  method Sqrt(fixed: Int32) returns (r: Result<Int32>)
    ensures r == SqrtSpec(fixed)
  {
    var fix: int := fixed * TWO_POW_16;
    var result: int := fixed / 2;
    var i := 0;
    while i < 5
      invariant 0 <= i <= 5
      invariant Newton(fix, result, 5 - i) == Newton(fix, fixed / 2, 5)
    {
      if result == 0 {
        return Err(Arithmetic);
      }
      result := (result + TruncDiv(fix, result)) / 2;
      i := i + 1;
    }
    r := Ok(Wrap32(result));
  }

  /** The integer square root of n. */
  ghost function Isqrt(n: nat): (s: nat)
    ensures s * s <= n < (s + 1) * (s + 1)
  {
    if n == 0 then 0
    else
      var t := Isqrt(n - 1);
      if (t + 1) * (t + 1) <= n then t + 1 else t
  }

  /** A Newton step never undershoots any integer square root (AM-GM). */
  lemma StepAtLeastRoot(n: nat, r: int, s: nat)
    requires r > 0 && s * s <= n
    ensures NewtonStep(n, r) >= s
  {
    var q := n / r;
    assert NewtonStep(n, r) == (r + q) / 2;
    if r + q < 2 * s {
      DivBounds(n, r);
      LeMul(q + 1, 2 * s - r, r);
      assert n < (2 * s - r) * r;
      SquareGap(s, r);
      assert false;
    }
  }

  /** (2s - r) * r never exceeds s * s, since their difference is (s - r)^2. */
  lemma SquareGap(s: int, r: int)
    ensures (2 * s - r) * r <= s * s
  {
    var d := s - r;
    assert (2 * s - r) * r == s * s - d * d;
    if d < 0 { LeMul(d, 0, -d); } else { LeMul(0, d, d); }
  }

  /** Euclidean division by a positive divisor, spelt out. */
  lemma DivBounds(n: nat, r: int)
    requires r > 0
    ensures (n / r) * r <= n < (n / r) * r + r
  {
  }

  lemma LeMul(a: int, b: int, c: int)
    requires a <= b && c >= 0
    ensures a * c <= b * c
  {
    assert b * c - a * c == (b - a) * c;
  }

  /** At or above the root's square a step does not climb. */
  lemma StepNotAbove(n: nat, r: int)
    requires r > 0 && r * r >= n
    ensures NewtonStep(n, r) <= r
  {
    var q := n / r;
    DivBounds(n, r);
    if q > r {
      LeMul(r + 1, q, r);
      assert false;
    }
  }

  /** From the floor root itself a step reaches at most the root plus one. */
  lemma StepFromRoot(n: nat, s: int)
    requires s >= 1 && s * s <= n < (s + 1) * (s + 1)
    ensures NewtonStep(n, s) <= s + 1
  {
    var q := n / s;
    DivBounds(n, s);
    assert (s + 1) * (s + 1) == s * s + 2 * s + 1;
    if q > s + 2 {
      LeMul(s + 3, q, s);
      assert false;
    }
  }

  /** Above the floor root a Newton step does not climb past max(r, root + 1). */
  lemma StepBounded(n: nat, r: int, s: nat)
    requires s >= 1 && s * s <= n < (s + 1) * (s + 1) && r >= s
    ensures NewtonStep(n, r) <= if r > s + 1 then r else s + 1
  {
    if r * r >= n {
      StepNotAbove(n, r);
    } else {
      if r > s {
        LeMul(s + 1, r, s + 1);
        LeMul(s + 1, r, r);
        assert false;
      }
      StepFromRoot(n, r);
    }
  }

  /** Iterates stay between the floor root s and an upper bound hi. */
  lemma {:induction false} NewtonWithin(n: nat, r: int, steps: nat, s: nat, hi: int)
    requires s >= 1 && s * s <= n < (s + 1) * (s + 1)
    requires s <= r <= hi && s + 1 <= hi
    decreases steps
    ensures Newton(n, r, steps).Some?
    ensures s <= Newton(n, r, steps).value <= hi
  {
    if steps > 0 {
      var next := NewtonStep(n, r);
      StepAtLeastRoot(n, r, s);
      StepBounded(n, r, s);
      assert s <= next <= hi;
      NewtonWithin(n, next, steps - 1, s, hi);
      assert Newton(n, r, steps) == Newton(n, next, steps - 1);
    }
  }

  /**
   * For every input of at least 2 (the smallest positive fixed-point values
   * excluded) no step divides by zero, and the result is positive and never
   * below the integer square root of fixed << 16.
   */
  lemma SqrtAtLeastRoot(fixed: Int32)
    requires fixed >= 2
    ensures SqrtSpec(fixed).Ok?
    ensures Isqrt(fixed * TWO_POW_16) <= SqrtSpec(fixed).value
    ensures 0 < SqrtSpec(fixed).value
  {
    var n := fixed * TWO_POW_16;
    var r0 := fixed / 2;
    var s := Isqrt(n);
    if s >= 0x100_0000 {
      LeMul(0x100_0000, s, s);
      LeMul(0x100_0000, s, 0x100_0000);
      assert false;
    }
    var q := n / r0;
    DivBounds(n, r0);
    if q > 3 * TWO_POW_16 {
      LeMul(3 * TWO_POW_16 + 1, q, r0);
      assert false;
    }
    var r1 := NewtonStep(n, r0);
    StepAtLeastRoot(n, r0, s);
    NewtonWithin(n, r1, 4, s, 0x4000_0000);
    assert Newton(n, r0, 5) == Newton(n, r1, 4);
  }

  /** Inputs 0 and 1 seed the iteration with 0, which divides by zero. */
  lemma SqrtFaultsOnSmallInputs(fixed: Int32)
    requires fixed == 0 || fixed == 1
    ensures SqrtSpec(fixed) == Err(Arithmetic)
  {
  }

  /** The square roots of 1 and 4. */
  lemma SqrtExamples()
    ensures SqrtSpec(ONE) == Ok(ONE)
    ensures SqrtSpec(4 * ONE) == Ok(2 * ONE)
  {
    var n := ONE * TWO_POW_16;
    assert NewtonStep(n, 32768) == 81920;
    assert NewtonStep(n, 81920) == 67174;
    assert NewtonStep(n, 67174) == 65555;
    assert NewtonStep(n, 65555) == 65536;
    assert NewtonStep(n, 65536) == 65536;
    assert Newton(n, 65536, 0) == Some(65536);
    assert Newton(n, 65536, 1) == Some(65536);
    assert Newton(n, 65555, 2) == Some(65536);
    assert Newton(n, 67174, 3) == Some(65536);
    assert Newton(n, 81920, 4) == Some(65536);
    assert Newton(n, 32768, 5) == Some(65536);
    var m := 4 * ONE * TWO_POW_16;
    assert NewtonStep(m, 131072) == 131072;
    assert Newton(m, 131072, 0) == Some(131072);
    assert Newton(m, 131072, 1) == Some(131072);
    assert Newton(m, 131072, 2) == Some(131072);
    assert Newton(m, 131072, 3) == Some(131072);
    assert Newton(m, 131072, 4) == Some(131072);
    assert Newton(m, 131072, 5) == Some(131072);
  }
}
