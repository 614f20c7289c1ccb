/** JavaScript numbers as exact reals extended with NaN and the two
    infinities, enough to follow a z-score computation through a division
    by a zero standard deviation. Rounding and signed zero are not modelled. */
module JsNumber {

  datatype Number = Finite(v: real) | NaN | Infinity(negative: bool)

  /** `a - b`. */
  function Sub(a: Number, b: Number): (r: Number)
    ensures a.NaN? || b.NaN? ==> r.NaN?
    ensures a.Finite? && b.Finite? ==> r == Finite(a.v - b.v)
  {
    match (a, b)
    case (NaN, _) => NaN
    case (_, NaN) => NaN
    case (Finite(x), Finite(y)) => Finite(x - y)
    case (Infinity(n), Finite(_)) => Infinity(n)
    case (Finite(_), Infinity(n)) => Infinity(!n)
    case (Infinity(n), Infinity(m)) => if n == m then NaN else Infinity(n)
  }

  /** `a / b`. A zero divisor gives NaN for a zero dividend and an infinity
      (signed like the dividend) otherwise. */
  function Div(a: Number, b: Number): (r: Number)
    ensures a.NaN? || b.NaN? ==> r.NaN?
    ensures a.Finite? && b.Finite? && b.v != 0.0 ==> r == Finite(a.v / b.v)
    ensures a == Finite(0.0) && b == Finite(0.0) ==> r.NaN?
  {
    match (a, b)
    case (NaN, _) => NaN
    case (_, NaN) => NaN
    case (Finite(x), Finite(y)) =>
      if y != 0.0 then Finite(x / y)
      else if x == 0.0 then NaN
      else Infinity(x < 0.0)
    case (Finite(_), Infinity(_)) => Finite(0.0)
    case (Infinity(n), Finite(y)) => Infinity(if y < 0.0 then !n else n)
    case (Infinity(_), Infinity(_)) => NaN
  }

  /** The standard score `(x - mean) / std`. */
  function ZScore(x: Number, mean: Number, std: Number): Number {
    Div(Sub(x, mean), std)
  }

  /** With a finite, non-zero deviation the z-score is finite and inverts
      back to the value: x = mean + z * std. */
  lemma ZScoreInverts(x: real, mean: real, std: real)
    requires std != 0.0
    ensures ZScore(Finite(x), Finite(mean), Finite(std)).Finite?
    ensures x == mean + ZScore(Finite(x), Finite(mean), Finite(std)).v * std
  {
    var z := (x - mean) / std;
    assert z * std == x - mean;
  }

  /** A value equal to the mean has z-score 0 when the deviation is non-zero,
      and NaN when the deviation is zero. */
  lemma ZScoreAtMean(m: real, std: real)
    ensures std != 0.0 ==> ZScore(Finite(m), Finite(m), Finite(std)) == Finite(0.0)
    ensures std == 0.0 ==> ZScore(Finite(m), Finite(m), Finite(std)).NaN?
  {
  }

  /** A zero deviation never yields a finite z-score. */
  lemma ZScoreOfZeroDeviation(x: Number, mean: Number)
    ensures !ZScore(x, mean, Finite(0.0)).Finite?
  {
  }

  /** The numeric library the enrichment calls: numjs `mean` and `std` over
      an array of numbers, and `parseFloat`. They are opaque here. */
  datatype NumericLib = NumericLib(
    mean: seq<real> -> Number,
    std: seq<real> -> Number,
    parseFloat: string -> real)

  /** Sum of a sequence of reals, added left to right. */
  function Sum(xs: seq<real>): real {
    if |xs| == 0 then 0.0 else Sum(xs[..|xs| - 1]) + xs[|xs| - 1]
  }

  lemma {:induction false} SumConcat(a: seq<real>, b: seq<real>)
    ensures Sum(a + b) == Sum(a) + Sum(b)
    decreases |b|
  {
    if |b| == 0 {
      assert a + b == a;
    } else {
      SumConcat(a, b[..|b| - 1]);
      assert (a + b)[..|a + b| - 1] == a + b[..|b| - 1];
    }
  }
}
