/**
 * The math functions the demo's AviatorService registers at start-up:
 * `math.min`, `min` and `math.max`. Each reads both arguments with
 * doubleValue(), applies Math.min or Math.max, and returns an AviatorDouble.
 */
module MathFunctions {
  import opened JavaNumbers

  /** Math.min on two doubles (NaN and the signed zeros are not modelled). */
  function DoubleMin(x: real, y: real): (r: real)
    ensures r <= x && r <= y
    ensures r == x || r == y
  {
    if x <= y then x else y
  }

  /** Math.max on two doubles (NaN and the signed zeros are not modelled). */
  function DoubleMax(x: real, y: real): (r: real)
    ensures r >= x && r >= y
    ensures r == x || r == y
  {
    if x >= y then x else y
  }

  /** `math.min(a, b)`: the smaller argument, always as a double. */
  function MathMin(a: Number, b: Number): (r: Number)
    ensures r.Double?
    ensures r.x <= DoubleValue(a) && r.x <= DoubleValue(b)
    ensures r.x == DoubleValue(a) || r.x == DoubleValue(b)
  {
    Double(DoubleMin(DoubleValue(a), DoubleValue(b)))
  }

  /** `min(a, b)`: registered separately under the bare name, with a body of its own. Its
      contract is stated case by case: whichever argument is not larger comes back, as a double. */
  function Min(a: Number, b: Number): (r: Number)
    ensures r.Double?
    ensures DoubleValue(a) <= DoubleValue(b) ==> r.x == DoubleValue(a)
    ensures DoubleValue(b) <= DoubleValue(a) ==> r.x == DoubleValue(b)
  {
    Double(DoubleMin(DoubleValue(a), DoubleValue(b)))
  }

  /** `math.max(a, b)`: the larger argument, always as a double. */
  function MathMax(a: Number, b: Number): (r: Number)
    ensures r.Double?
    ensures r.x >= DoubleValue(a) && r.x >= DoubleValue(b)
    ensures r.x == DoubleValue(a) || r.x == DoubleValue(b)
  {
    Double(DoubleMax(DoubleValue(a), DoubleValue(b)))
  }

  /** The separately written bare and namespaced minimum agree on every input. */
  lemma MinAliasesAgree(a: Number, b: Number)
    ensures Min(a, b) == MathMin(a, b)
  {
  }

  /** Integer arguments do not give an integer result: the minimum of two longs is a double. */
  lemma MinOfIntegralsIsDouble(i: int, j: int)
    ensures MathMin(Integral(i), Integral(j)) == Double(if i <= j then i as real else j as real)
  {
  }

  /** Minimum and maximum split a pair: together they add up to the two arguments. */
  lemma MinMaxPartition(a: Number, b: Number)
    ensures MathMin(a, b).x + MathMax(a, b).x == DoubleValue(a) + DoubleValue(b)
    ensures MathMin(a, b).x <= MathMax(a, b).x
  {
  }

  /** `math.max(lo, math.min(hi, v))` clamps v into [lo, hi] whenever lo <= hi. */
  lemma ClampBounds(lo: Number, hi: Number, v: Number)
    requires DoubleValue(lo) <= DoubleValue(hi)
    ensures DoubleValue(lo) <= MathMax(lo, MathMin(hi, v)).x <= DoubleValue(hi)
    ensures DoubleValue(lo) <= DoubleValue(v) <= DoubleValue(hi) ==> MathMax(lo, MathMin(hi, v)).x == DoubleValue(v)
  {
  }
}
