/** Vocabulary shared by the two filter programs: raw ADC readings, signals
    indexed by tick, and the direct-form sum of products. */
module Signals {

  /** A raw reading of the 16-bit converter, as `read_u16` returns it. */
  type U16 = r: int | 0 <= r <= 65535

  /** Sample `i` of the signal `xs`; before the first tick the signal is 0.0,
      which is how both filters start (every history slot zero). */
  function At(xs: seq<real>, i: int): real
  {
    if 0 <= i < |xs| then xs[i] else 0.0
  }

  /** `x` to the `n`-th power. */
  function Pow(x: real, n: nat): real
  {
    if n == 0 then 1.0 else x * Pow(x, n - 1)
  }

  /** The direct-form sum of products c[0]*x[0] + c[1]*x[1] + ... over the
      first |c| slots of `x`. */
  function Dot(c: seq<real>, x: seq<real>): real
    requires |c| <= |x|
  {
    if c == [] then 0.0 else c[0] * x[0] + Dot(c[1..], x[1..])
  }

  /** A power of a ratio strictly between 0 and 1 stays in (0, 1], and is
      strictly below 1 once the exponent is positive. */
  lemma {:induction false} PowShrinks(x: real, n: nat)
    requires 0.0 < x < 1.0
    ensures 0.0 < Pow(x, n) <= 1.0
    ensures n > 0 ==> Pow(x, n) < 1.0
  {
    if n > 0 {
      PowShrinks(x, n - 1);
      var p := Pow(x, n - 1);
      assert x * p <= x * 1.0;
      assert 0.0 < x * p;
    }
  }
}
