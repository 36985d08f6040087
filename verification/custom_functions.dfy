/**
 * The custom functions CustomAviatorFunctions registers with the engine
 * (all but `formatNow`, `toPercent` and `round`, which depend on the clock or
 * on floating-point formatting). Numeric results are AviatorDoubles, so the
 * numeric functions return `Double(..)` whatever their argument's type.
 */
module CustomFunctions {
  import opened JavaNumbers
  import MathFunctions

  /** `square(n)`. */
  function Square(n: Number): (r: Number)
    ensures r.Double? && r.x >= 0.0
  {
    var v := DoubleValue(n);
    Double(v * v)
  }

  /** `cube(n)`. */
  function Cube(n: Number): (r: Number)
    ensures r.Double?
    ensures DoubleValue(n) >= 0.0 ==> r.x >= 0.0
    ensures DoubleValue(n) <= 0.0 ==> r.x <= 0.0
  {
    var v := DoubleValue(n);
    Double(v * v * v)
  }

  /** The cube is the square times the argument. */
  lemma CubeIsSquareTimesValue(n: Number)
    ensures Cube(n).x == Square(n).x * DoubleValue(n)
  {
  }

  /** Opposite arguments have equal squares and opposite cubes. */
  lemma SquareEvenCubeOdd(a: Number, b: Number)
    requires DoubleValue(a) == -DoubleValue(b)
    ensures Square(a) == Square(b)
    ensures Cube(a).x == -Cube(b).x
  {
  }

  /** `isEven(n)`: `n.intValue() % 2 == 0` with Java's remainder. For every kind of argument
      this is the parity of the int that intValue() yields: an integral value keeps its parity
      through the 32-bit wrap, a decimal is truncated toward zero (and then wrapped, which again
      keeps parity), and a double is truncated and saturated to the int range. */
  function IsEven(n: Number): (even: bool)
    ensures n.Integral? ==> (even <==> n.i % 2 == 0)
    ensures n.Decimal? ==> (even <==> Trunc(n.d) % 2 == 0)
    ensures n.Double? ==> (even <==> Saturate32(Trunc(n.x)) % 2 == 0)
  {
    match n
    case Integral(v) =>
      JavaRemTwoIsParity(Wrap32(v));
      Wrap32KeepsParity(v);
      JavaRem(IntValue(n), 2) == 0
    case Decimal(d) =>
      JavaRemTwoIsParity(Wrap32(Trunc(d)));
      Wrap32KeepsParity(Trunc(d));
      JavaRem(IntValue(n), 2) == 0
    case Double(x) =>
      JavaRemTwoIsParity(Saturate32(Trunc(x)));
      JavaRem(IntValue(n), 2) == 0
  }

  /** A fractional argument is first truncated toward zero: 3.7 behaves as 3, and -4.5 as -4. */
  lemma IsEvenTruncates()
    ensures !IsEven(Decimal(3.7)) && !IsEven(Double(3.7))
    ensures IsEven(Decimal(-4.5)) && !IsEven(Integral(-3))
  {
    JavaRemTwoIsParity(-4);
    JavaRemTwoIsParity(-3);
  }

  /** A double beyond the int range saturates at Integer.MAX_VALUE, which is odd, while a
      decimal of the same value keeps its low 32 bits. */
  lemma IsEvenSaturates()
    ensures !IsEven(Double(3000000000.0))
    ensures IsEven(Decimal(3000000000.0))
  {
    assert Trunc(3000000000.0) == 3000000000;
    JavaRemTwoIsParity(Wrap32(3000000000));
  }

  /** `reverse(s)`: the characters of s in the opposite order. */
  function Reverse(s: string): (r: string)
    ensures |r| == |s|
    ensures forall i :: 0 <= i < |s| ==> r[i] == s[|s| - 1 - i]
  {
    if |s| == 0 then [] else Reverse(s[1..]) + [s[0]]
  }

  /** Reversing twice gives back the original string. */
  lemma {:induction false} ReverseInvolution(s: string)
    ensures Reverse(Reverse(s)) == s
  {
    var r := Reverse(Reverse(s));
    assert |r| == |s|;
    forall i | 0 <= i < |s|
      ensures r[i] == s[i]
    {
      assert r[i] == Reverse(s)[|s| - 1 - i];
    }
  }

  /** Reversal distributes over concatenation with the parts swapped. */
  lemma ReverseConcat(s: string, t: string)
    ensures Reverse(s + t) == Reverse(t) + Reverse(s)
  {
    var l, r := Reverse(s + t), Reverse(t) + Reverse(s);
    assert |l| == |r|;
    forall i | 0 <= i < |l|
      ensures l[i] == r[i]
    {
      if i < |t| {
        assert r[i] == Reverse(t)[i];
      } else {
        assert r[i] == Reverse(s)[i - |t|];
      }
    }
  }

  predicate IsLowerAscii(c: char) {
    'a' <= c <= 'z'
  }

  /** String.toUpperCase() restricted to one character, for the ASCII letters. */
  function UpperCase(c: char): (u: char)
    ensures !IsLowerAscii(u)
    ensures !IsLowerAscii(c) ==> u == c
    ensures IsLowerAscii(c) ==> 'A' <= u <= 'Z' && u as int - 'A' as int == c as int - 'a' as int
  {
    if IsLowerAscii(c) then (c as int - 32) as char else c
  }

  /** `capitalize(s)`: the empty string stays empty; otherwise only the first character is
      upper-cased. */
  function Capitalize(s: string): (r: string)
    ensures |r| == |s|
    ensures |s| > 0 ==> r[0] == UpperCase(s[0]) && r[1..] == s[1..]
  {
    if |s| == 0 then "" else [UpperCase(s[0])] + s[1..]
  }

  /** Capitalizing twice is the same as capitalizing once. */
  lemma CapitalizeIdempotent(s: string)
    ensures Capitalize(Capitalize(s)) == Capitalize(s)
  {
  }

  /** A string that does not start with a lower-case letter is returned unchanged. */
  lemma CapitalizeFixesCapitalized(s: string)
    requires |s| == 0 || !IsLowerAscii(s[0])
    ensures Capitalize(s) == s
  {
  }

  /** `inRange(v, lo, hi)`: compares the double values, both ends inclusive. Equivalently, the
      range is non-empty and clamping v into it with `math.max(lo, math.min(hi, v))` leaves v
      where it is. */
  function InRange(v: Number, lo: Number, hi: Number): (inside: bool)
    ensures inside ==> DoubleValue(lo) <= DoubleValue(hi)
    ensures inside <==> DoubleValue(lo) <= DoubleValue(hi)
                        && MathFunctions.MathMax(lo, MathFunctions.MathMin(hi, v)).x == DoubleValue(v)
  {
    DoubleValue(v) >= DoubleValue(lo) && DoubleValue(v) <= DoubleValue(hi)
  }

  /** An inverted range contains nothing. */
  lemma InRangeInvertedIsEmpty(v: Number, lo: Number, hi: Number)
    requires DoubleValue(lo) > DoubleValue(hi)
    ensures !InRange(v, lo, hi)
  {
  }

  /** Both ends belong to a non-empty range. */
  lemma InRangeInclusive(lo: Number, hi: Number)
    requires DoubleValue(lo) <= DoubleValue(hi)
    ensures InRange(lo, lo, hi) && InRange(hi, lo, hi)
  {
  }

  /** A value is in range exactly when clamping it with `math.max(lo, math.min(hi, v))` leaves
      it where it is. */
  lemma InRangeIffClampFixes(v: Number, lo: Number, hi: Number)
    requires DoubleValue(lo) <= DoubleValue(hi)
    ensures InRange(v, lo, hi) <==> MathFunctions.MathMax(lo, MathFunctions.MathMin(hi, v)).x == DoubleValue(v)
  {
  }

  /** `applyDiscount(price, rate)`: price * (1 - rate), as a double. */
  function ApplyDiscount(price: Number, rate: Number): (r: Number)
    ensures r.Double?
    ensures DoubleValue(rate) == 0.0 ==> r.x == DoubleValue(price)
  {
    Double(Discounted(DoubleValue(price), DoubleValue(rate)))
  }

  /** `price * (1 - rate)` on the double values. */
  function Discounted(price: real, rate: real): real {
    price * (1.0 - rate)
  }

  /** A rate in [0, 1] on a non-negative price yields a price between 0 and the original. */
  lemma ApplyDiscountBounds(price: Number, rate: Number)
    requires DoubleValue(price) >= 0.0
    requires 0.0 <= DoubleValue(rate) <= 1.0
    ensures 0.0 <= ApplyDiscount(price, rate).x <= DoubleValue(price)
  {
    DiscountedWithinBounds(DoubleValue(price), DoubleValue(rate));
  }

  /** A larger rate never gives a higher price. */
  lemma ApplyDiscountAntitone(price: Number, rate: Number, rate': Number)
    requires DoubleValue(price) >= 0.0
    requires DoubleValue(rate) <= DoubleValue(rate')
    ensures ApplyDiscount(price, rate').x <= ApplyDiscount(price, rate).x
  {
    DiscountedAntitone(DoubleValue(price), DoubleValue(rate), DoubleValue(rate'));
  }

  /** The real arithmetic behind ApplyDiscountBounds. */
  lemma DiscountedWithinBounds(p: real, d: real)
    requires p >= 0.0 && 0.0 <= d <= 1.0
    ensures 0.0 <= Discounted(p, d) <= p
  {
    assert p * d >= 0.0 * d;
    assert p * (1.0 - d) >= 0.0 * (1.0 - d);
    assert p * (1.0 - d) == p - p * d;
  }

  /** The real arithmetic behind ApplyDiscountAntitone. */
  lemma DiscountedAntitone(p: real, d: real, d': real)
    requires p >= 0.0 && d <= d'
    ensures Discounted(p, d') <= Discounted(p, d)
  {
    assert p * (1.0 - d) - p * (1.0 - d') == p * (d' - d);
    assert p * (d' - d) >= 0.0 * (d' - d);
  }
}
