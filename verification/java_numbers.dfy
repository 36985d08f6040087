/**
 * The parts of java.lang.Number that the custom Aviator functions use.
 *
 * Aviator hands a function argument to Java code as a boxed Number: a Long
 * (or BigInteger) for integral values, a BigDecimal for decimal literals (the
 * demo parses every floating literal as a decimal), and a Double for double
 * variables. The functions then read it back with doubleValue() or intValue().
 */
module JavaNumbers {

  datatype Number =
    | Integral(i: int)  // java.lang.Long or java.math.BigInteger
    | Decimal(d: real)  // java.math.BigDecimal
    | Double(x: real)   // java.lang.Double, read as the exact real it denotes

  const TwoTo31: int := 0x8000_0000
  const TwoTo32: int := 0x1_0000_0000
  const IntMin: int := -TwoTo31
  const IntMax: int := TwoTo31 - 1

  /** Fits in a Java `int`. */
  predicate IsInt32(v: int) {
    IntMin <= v <= IntMax
  }

  function Abs(v: int): (r: int)
    ensures r >= 0 && (r == v || r == -v)
  {
    if v < 0 then -v else v
  }

  /** Rounding toward zero, as every narrowing conversion of Java does. */
  function Trunc(x: real): (r: int)
    ensures 0.0 <= x ==> 0 <= r && r as real <= x < r as real + 1.0
    ensures x < 0.0 ==> r <= 0 && r as real - 1.0 < x <= r as real
  {
    if x >= 0.0 then x.Floor else -((-x).Floor)
  }

  /** The low 32 bits read as two's complement: Long.intValue() and BigInteger.intValue(). */
  function Wrap32(v: int): (r: int)
    ensures IsInt32(r)
    ensures IsInt32(v) ==> r == v
    ensures (r - v) % TwoTo32 == 0
  {
    (v + TwoTo31) % TwoTo32 - TwoTo31
  }

  /** The `(int)` cast of a double that has already been rounded toward zero: values outside the
      int range saturate at its ends. */
  function Saturate32(v: int): (r: int)
    ensures IsInt32(r)
    ensures IsInt32(v) ==> r == v
    ensures v > IntMax ==> r == IntMax
    ensures v < IntMin ==> r == IntMin
  {
    if v < IntMin then IntMin else if v > IntMax then IntMax else v
  }

  /** Number.doubleValue(); the rounding to the nearest double is not modelled. */
  function DoubleValue(n: Number): real {
    match n
    case Integral(i) => i as real
    case Decimal(d) => d
    case Double(x) => x
  }

  /** Number.intValue(): integral and decimal values keep their low 32 bits, doubles saturate. */
  function IntValue(n: Number): (r: int)
    ensures IsInt32(r)
    ensures n.Integral? && IsInt32(n.i) ==> r == n.i
    ensures !n.Integral? && IsInt32(Trunc(DoubleValue(n))) ==> r == Trunc(DoubleValue(n))
  {
    match n
    case Integral(i) => Wrap32(i)
    case Decimal(d) => Wrap32(Trunc(d))
    case Double(x) => Saturate32(Trunc(x))
  }

  /** Java's integer `/`: the quotient is rounded toward zero. */
  function JavaDiv(a: int, b: int): int
    requires b != 0
  {
    if (a >= 0) == (b > 0) then Abs(a) / Abs(b) else -(Abs(a) / Abs(b))
  }

  /** Java's integer `%`: the remainder takes the sign of the dividend. */
  function JavaRem(a: int, b: int): (r: int)
    requires b != 0
    ensures a >= 0 ==> 0 <= r < Abs(b)
    ensures a < 0 ==> -Abs(b) < r <= 0
  {
    if a >= 0 then Abs(a) % Abs(b) else -(Abs(a) % Abs(b))
  }

  /** Java's quotient and remainder recombine to the dividend, as the language requires. */
  lemma JavaDivRem(a: int, b: int)
    requires b != 0
    ensures a == JavaDiv(a, b) * b + JavaRem(a, b)
  {
    var x, y := Abs(a), Abs(b);
    assert x == (x / y) * y + x % y;
    if a >= 0 && b > 0 {
    } else if a >= 0 {
      assert JavaDiv(a, b) * b == (x / y) * y;
    } else if b > 0 {
      assert JavaDiv(a, b) * b == -((x / y) * y);
    } else {
      assert JavaDiv(a, b) * b == -((x / y) * y);
    }
  }

  /** Java's `% 2 == 0` agrees with mathematical evenness, for either sign. */
  lemma JavaRemTwoIsParity(v: int)
    ensures JavaRem(v, 2) == 0 <==> v % 2 == 0
  {
    JavaDivRem(v, 2);
  }

  /** Keeping the low 32 bits does not change parity. */
  lemma {:induction false} Wrap32KeepsParity(v: int)
    ensures Wrap32(v) % 2 == v % 2
  {
    var r := Wrap32(v);
    var k := (r - v) / TwoTo32;
    assert r - v == k * TwoTo32;
    assert r == v + 2 * (k * TwoTo31);
  }
}
