/** The first-order high-pass node: H(z) = (1 - z^-1) / (1 - 0.8 z^-1),
    evaluated by a 2-deep `filtro` routine, and the 25 ms sampling loop that
    drives it.

    Unlike the low-pass routine, this one does the sign at evaluation time:
      Y(k) = b0*U(k) + b1*U(k-1) - a1*Y(k-1)
    with a1 stored as it appears in the transfer function (-0.8). */
module HighPassFilter {
  import opened Signals

  // Shipped coefficients: b0, b1 in `Cte_UKs`, a0, a1 in `Cte_YKs`.
  const b0: real := 1.0
  const b1: real := -1.0
  const a0: real := 1.0
  const a1: real := -0.8

  /** Converts ADC counts to volts against the 3.3 V reference. */
  const ADC_V: real := 3.3 / 65535.0

  /** The contents of `Cte_UKs` (num = b0, b1) and `Cte_YKs` (den = a0, a1). */
  datatype Coefficients = Coefficients(num: seq<real>, den: seq<real>)
  {
    predicate WellFormed() { |num| == 2 && |den| == 2 }
  }

  const Shipped: Coefficients := Coefficients([b0, b1], [a0, a1])

  /** The contents of `UKs` (U(k), U(k-1)) and `YKs` (Y(k), Y(k-1)). */
  datatype History = History(u: seq<real>, y: seq<real>)
  {
    predicate WellFormed() { |u| == 2 && |y| == 2 }
  }

  /** Both histories as the program creates them: every slot 0.0. */
  const AtRest: History := History([0.0, 0.0], [0.0, 0.0])

  /** The value `filtro` stores into Y(k). */
  function Output(c: Coefficients, h: History): real
    requires c.WellFormed() && h.WellFormed()
  {
    c.num[0] * h.u[0] + c.num[1] * h.u[1] - c.den[1] * h.y[1]
  }

  /** The histories after one call of `filtro`: Y(k) is stored, then slot 0
      of each history is copied into slot 1. */
  function Step(c: Coefficients, h: History): (h': History)
    requires c.WellFormed() && h.WellFormed()
    ensures h'.WellFormed()
  {
    var out := Output(c, h);
    History([h.u[0], h.u[0]], [out, out])
  }

  /** The loop's acquisition: the new input overwrites U(k), nothing else. */
  function Acquire(h: History, x: real): (h': History)
    requires h.WellFormed()
    ensures h'.WellFormed()
  {
    h.(u := h.u[0 := x])
  }

  /** `filtro(Cte_UKs, UKs, Cte_YKs, YKs)`: the FPU routine, instruction by
      instruction. s0 and s1 are reloaded for every product; the shifts read
      U(k) and the freshly stored Y(k) back from memory before copying them. */
  method Filtro(cteUKs: array<real>, uks: array<real>, cteYKs: array<real>, yks: array<real>)
    requires cteUKs.Length == 2 && cteYKs.Length == 2 && uks.Length == 2 && yks.Length == 2
    requires uks != yks
    requires cteUKs != uks && cteUKs != yks && cteYKs != uks && cteYKs != yks
    modifies uks, yks
    ensures yks[0] == Output(Coefficients(cteUKs[..], cteYKs[..]), History(old(uks[..]), old(yks[..])))
    ensures uks[0] == old(uks[0]) && uks[1] == old(uks[0])
    ensures yks[1] == yks[0]
    ensures History(uks[..], yks[..]) == Step(Coefficients(cteUKs[..], cteYKs[..]), History(old(uks[..]), old(yks[..])))
    ensures cteUKs[..] == old(cteUKs[..]) && cteYKs[..] == old(cteYKs[..])
  {
    ghost var c := Coefficients(cteUKs[..], cteYKs[..]);
    ghost var h := History(uks[..], yks[..]);
    // s4 = b0 * U(k)
    var s0 := cteUKs[0];
    var s1 := uks[0];
    var s4 := s0 * s1;
    // s4 = s4 + b1 * U(k-1)
    s0 := cteUKs[1];
    s1 := uks[1];
    var s5 := s0 * s1;
    s4 := s4 + s5;
    // s4 = s4 - a1 * Y(k-1)
    s0 := cteYKs[1];
    s1 := yks[1];
    s5 := s0 * s1;
    s4 := s4 - s5;
    assert s4 == Output(c, h);
    // Y(k) = s4
    yks[0] := s4;
    // U(k-1) = U(k), through s0
    s0 := uks[0];
    uks[1] := s0;
    // Y(k-1) = Y(k), through s0
    s0 := yks[0];
    yks[1] := s0;
  }

  /** Y(k) of the difference equation driven from rest by the input signal `xs`. */
  function Response(c: Coefficients, xs: seq<real>, k: int): real
    requires c.WellFormed() && k < |xs|
    decreases k
  {
    if k < 0 then 0.0
    else c.num[0] * xs[k] + c.num[1] * At(xs, k - 1) - c.den[1] * Response(c, xs, k - 1)
  }

  /** The buffers hold exactly what tick `k` of signal `xs` needs. */
  predicate Tracks(c: Coefficients, h: History, xs: seq<real>, k: nat)
    requires c.WellFormed() && h.WellFormed() && k < |xs|
  {
    h.u[0] == xs[k] && h.u[1] == At(xs, k - 1) && h.y[1] == Response(c, xs, k - 1)
  }

  /** One call of `filtro` computes the difference equation, and after the
      next acquisition the buffers track the following tick: U(k-1) holds the
      input just consumed and Y(k-1) the output just produced. */
  lemma StepFollowsDifferenceEquation(c: Coefficients, h: History, xs: seq<real>, k: nat)
    requires c.WellFormed() && h.WellFormed() && k < |xs|
    requires Tracks(c, h, xs, k)
    ensures Output(c, h) == Response(c, xs, k)
    ensures Step(c, h).u[1] == xs[k] && Step(c, h).y[1] == Response(c, xs, k)
    ensures k + 1 < |xs| ==> Tracks(c, Acquire(Step(c, h), xs[k + 1]), xs, k + 1)
  {
  }

  /** The buffers as the program creates them, with the first input in U(k),
      track tick 0. */
  lemma AtRestTracksFirstTick(c: Coefficients, xs: seq<real>)
    requires c.WellFormed() && 0 < |xs|
    ensures Tracks(c, Acquire(AtRest, xs[0]), xs, 0)
  {
  }

  /** Only offset 4 of `Cte_YKs` and of `YKs` is loaded: neither a0 nor the
      stale Y(k) influences the output. */
  lemma OutputIgnoresA0AndStaleOutput(c: Coefficients, h: History, a0: real, v: real)
    requires c.WellFormed() && h.WellFormed()
    ensures Output(c.(den := c.den[0 := a0]), h.(y := h.y[0 := v])) == Output(c, h)
  {
  }

  /** Against the direct form: numerator against U(k), U(k-1), minus the
      denominator without its leading a0 against Y(k-1). */
  lemma {:induction false} OutputIsDirectForm(c: Coefficients, h: History)
    requires c.WellFormed() && h.WellFormed()
    ensures Output(c, h) == Dot(c.num, h.u) - Dot(c.den[1..], h.y[1..])
  {
    assert Dot(c.num[1..], h.u[1..]) == c.num[1] * h.u[1];
    assert Dot(c.den[1..], h.y[1..]) == c.den[1] * h.y[1];
  }

  /** DC blocking with the shipped coefficients: when U(k) = U(k-1) the input
      terms cancel and the output is 0.8 * Y(k-1). */
  lemma EqualInputsCancel(h: History)
    requires h.WellFormed() && h.u[0] == h.u[1]
    ensures Output(Shipped, h) == 0.8 * h.y[1]
  {
  }

  /** The difference equation read off H(z) = (1 - z^-1) / (1 - 0.8 z^-1):
      Y(k) = U(k) - U(k-1) + 0.8 * Y(k-1), from rest. */
  function DesignResponse(xs: seq<real>, k: int): real
    requires k < |xs|
    decreases k
  {
    if k < 0 then 0.0 else xs[k] - At(xs, k - 1) + 0.8 * DesignResponse(xs, k - 1)
  }

  /** The shipped arrays, with a1 stored as -0.8 and subtracted by the
      routine, realise the transfer function's difference equation. */
  lemma {:induction false} ShippedRealisesDesign(xs: seq<real>, k: int)
    requires k < |xs|
    ensures Response(Shipped, xs, k) == DesignResponse(xs, k)
    decreases k
  {
    if k >= 0 {
      ShippedRealisesDesign(xs, k - 1);
    }
  }

  /** When an input repeats the previous one, the input terms cancel and the
      output is 0.8 times the previous output. */
  lemma CancelledTick(xs: seq<real>, k: nat)
    requires 0 < k < |xs| && xs[k] == xs[k - 1]
    ensures DesignResponse(xs, k) == 0.8 * DesignResponse(xs, k - 1)
  {
  }

  /** A run of equal inputs from tick m to tick k scales the output by
      0.8^(k-m). */
  lemma {:induction false} ConstantRunScales(xs: seq<real>, m: nat, k: nat)
    requires m <= k < |xs|
    requires forall j :: m <= j <= k ==> xs[j] == xs[m]
    ensures DesignResponse(xs, k) == Pow(0.8, k - m) * DesignResponse(xs, m)
    decreases k - m
  {
    if k > m {
      ConstantRunScales(xs, m, k - 1);
      CancelledTick(xs, k);
    }
  }

  /** A factor p in [0, 1) strictly shrinks every non-zero r. */
  lemma ShrinkingFactor(p: real, r: real)
    requires 0.0 <= p < 1.0 && r != 0.0
    ensures -r < p * r < r || r < p * r < -r
  {
    if r > 0.0 {
      assert p * r < 1.0 * r;
    } else {
      assert p * r > 1.0 * r;
    }
  }

  /** DC blocking: over a run of equal inputs the output is 0.8^(k-m) times
      the output at the start of the run, strictly smaller in size once k > m. */
  lemma BlocksDc(xs: seq<real>, m: nat, k: nat)
    requires m <= k < |xs|
    requires forall j :: m <= j <= k ==> xs[j] == xs[m]
    ensures DesignResponse(xs, k) == Pow(0.8, k - m) * DesignResponse(xs, m)
    ensures k > m && DesignResponse(xs, m) != 0.0 ==>
              -DesignResponse(xs, m) < DesignResponse(xs, k) < DesignResponse(xs, m)
              || DesignResponse(xs, m) < DesignResponse(xs, k) < -DesignResponse(xs, m)
  {
    ConstantRunScales(xs, m, k);
    PowShrinks(0.8, k - m);
    var r := DesignResponse(xs, m);
    if k > m && r != 0.0 {
      ShrinkingFactor(Pow(0.8, k - m), r);
    }
  }

  /** A constant input x applied from rest gives the outputs x, 0.8x, 0.64x, ...:
      the first tick passes the step through and every later tick decays it. */
  lemma ConstantInputFromRest(xs: seq<real>, k: nat)
    requires k < |xs|
    requires forall j :: 0 <= j <= k ==> xs[j] == xs[0]
    ensures DesignResponse(xs, k) == Pow(0.8, k) * xs[0]
  {
    ConstantRunScales(xs, 0, k);
  }

  /** The constant input 5.0 from rest: the first output passes it through
      (5.0) and the second is 0.8 of that (4.0). */
  lemma ConstantFiveScenario()
    ensures DesignResponse([5.0, 5.0], 0) == 5.0
    ensures DesignResponse([5.0, 5.0], 1) == 4.0
  {
  }

  /** The stored input for a reading: counts times ADC_V. */
  function Scale(r: U16): (v: real)
    ensures 0.0 <= v <= 3.3
    ensures r == 0 ==> v == 0.0
    ensures r == 65535 ==> v == 3.3
  {
    r as real * ADC_V
  }

  /** The inputs the loop feeds to `filtro`, tick by tick: the zero slot the
      program starts with, then each reading in the order it was taken. */
  function Inputs(readings: seq<U16>): seq<real>
  {
    [0.0] + seq(|readings|, i requires 0 <= i < |readings| => Scale(readings[i]))
  }

  /** The (U(k), Y(k)) pairs printed over |readings| ticks, stated by the
      difference equation: tick k prints input k of `Inputs` and its response. */
  function Trace(readings: seq<U16>): seq<(real, real)>
  {
    var xs := Inputs(readings);
    seq(|readings|, k requires 0 <= k < |readings| => (xs[k], Response(Shipped, xs, k)))
  }

  /** The first tick evaluates the zero-initialised slot and prints (0.0, 0.0). */
  lemma FirstTickPrintsZero(readings: seq<U16>)
    requires 0 < |readings|
    ensures Trace(readings)[0] == (0.0, 0.0)
  {
  }

  /** One-tick latency: the input printed at tick k+1 is the reading taken
      after tick k's print and delay. */
  lemma OneTickLatency(readings: seq<U16>, k: nat)
    requires k + 1 < |readings|
    ensures Trace(readings)[k + 1].0 == Scale(readings[k])
  {
  }

  /** Every printed input lies in [0, 3.3] volts. */
  lemma PrintedInputsInRange(readings: seq<U16>)
    ensures forall k :: 0 <= k < |readings| ==> 0.0 <= Trace(readings)[k].0 <= 3.3
  {
  }

  /** Full-scale readings as printed: after the (0.0, 0.0) of the first tick,
      3.3 V passes straight through once and then decays by 0.8 (2.64 V). */
  lemma PrintedFullScaleScenario()
    ensures Trace([65535, 65535, 65535])[1] == (3.3, 3.3)
    ensures Trace([65535, 65535, 65535])[2] == (3.3, 2.64)
  {
    var xs := Inputs([65535, 65535, 65535]);
    ShippedRealisesDesign(xs, 2);
  }

  /** One tick keeps the buffers on the difference equation and extends the
      printed trace by the pair the equation gives. */
  lemma TickAdvances(readings: seq<U16>, i: nat, h: History, printed: seq<(real, real)>)
    requires i < |readings| && h.WellFormed()
    requires Tracks(Shipped, h, Inputs(readings), i)
    requires printed == Trace(readings)[..i]
    ensures var after := Step(Shipped, h);
      Tracks(Shipped, Acquire(after, Inputs(readings)[i + 1]), Inputs(readings), i + 1)
      && printed + [(after.u[0], after.y[0])] == Trace(readings)[..i + 1]
  {
    StepFollowsDifferenceEquation(Shipped, h, Inputs(readings), i);
    assert Trace(readings)[..i + 1] == Trace(readings)[..i] + [Trace(readings)[i]];
  }

  /** One pass of the main loop: evaluate, print (the returned pair), sleep
      (not modelled), then acquire the next input into U(k). */
  method Tick(cteUKs: array<real>, uks: array<real>, cteYKs: array<real>, yks: array<real>, reading: U16)
    returns (printed: (real, real))
    requires cteUKs.Length == 2 && cteYKs.Length == 2 && uks.Length == 2 && yks.Length == 2
    requires uks != yks
    requires cteUKs != uks && cteUKs != yks && cteYKs != uks && cteYKs != yks
    modifies uks, yks
    ensures var after := Step(Coefficients(cteUKs[..], cteYKs[..]), History(old(uks[..]), old(yks[..])));
      printed == (after.u[0], after.y[0]) && History(uks[..], yks[..]) == Acquire(after, Scale(reading))
    ensures cteUKs[..] == old(cteUKs[..]) && cteYKs[..] == old(cteYKs[..])
  {
    Filtro(cteUKs, uks, cteYKs, yks);
    printed := (uks[0], yks[0]);
    uks[0] := Scale(reading);
  }

  /** The main loop over |readings| ticks. Each tick's printed pair is the
      pair the difference equation gives. */
  method SamplingLoop(readings: seq<U16>) returns (printed: seq<(real, real)>)
    ensures printed == Trace(readings)
  {
    var cteUKs := new real[] [b0, b1];
    var cteYKs := new real[] [a0, a1];
    var uks := new real[] [0.0, 0.0];
    var yks := new real[] [0.0, 0.0];
    ghost var xs := Inputs(readings);
    ghost var h := Acquire(AtRest, xs[0]);
    AtRestTracksFirstTick(Shipped, xs);
    printed := [];
    var i := 0;
    while i < |readings|
      invariant 0 <= i <= |readings|
      invariant cteUKs[..] == Shipped.num && cteYKs[..] == Shipped.den
      invariant h.WellFormed() && History(uks[..], yks[..]) == h
      invariant Tracks(Shipped, h, xs, i)
      invariant printed == Trace(readings)[..i]
    {
      var pair := Tick(cteUKs, uks, cteYKs, yks, readings[i]);
      TickAdvances(readings, i, h, printed);
      printed := printed + [pair];
      h := Acquire(Step(Shipped, h), xs[i + 1]);
      i := i + 1;
    }
    assert Trace(readings)[..i] == Trace(readings);
  }
}
