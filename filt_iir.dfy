/** The IIR low-pass node: a first-order Tustin design evaluated by a
    second-order-capable `filtro` routine, and the 25 ms sampling loop that
    drives it.

    The difference equation is
      Y(k) = A0*U(k) + A1*U(k-1) + A2*U(k-2) + B1*Y(k-1) + B2*Y(k-2)
    with B1, B2 stored already negated, so evaluation only adds. */
module LowPassIIR {
  import opened Signals

  // Shipped coefficients (tau = 0.5 s, Ts = 25 ms); A2 and B2 are unused by
  // this first-order design and are zero.
  const A0: real := 0.02439
  const A1: real := 0.02439
  const A2: real := 0.0
  const B1: real := 0.9512
  const B2: real := 0.0

  /** Converts ADC counts to the stored input. There is no reference voltage
      in this factor, so a full-scale reading becomes 1.0. */
  const FACTOR: real := 1.0 / 65535.0

  /** The contents of `Cte_UKs` (num = A0, A1, A2) and `Cte_YKs` (den = B1, B2). */
  datatype Coefficients = Coefficients(num: seq<real>, den: seq<real>)
  {
    predicate WellFormed() { |num| == 3 && |den| == 2 }
  }

  const Shipped: Coefficients := Coefficients([A0, A1, A2], [B1, B2])

  /** The contents of `UKs` (U(k), U(k-1), U(k-2)) and `YKs` (Y(k), Y(k-1), Y(k-2)). */
  datatype History = History(u: seq<real>, y: seq<real>)
  {
    predicate WellFormed() { |u| == 3 && |y| == 3 }
  }

  /** Both histories as the program creates them: every slot 0.0. */
  const AtRest: History := History([0.0, 0.0, 0.0], [0.0, 0.0, 0.0])

  /** The value `filtro` stores into Y(k): the sum of products of the
      coefficients with U(k), U(k-1), U(k-2), Y(k-1), Y(k-2). */
  function Output(c: Coefficients, h: History): real
    requires c.WellFormed() && h.WellFormed()
  {
    c.num[0] * h.u[0] + c.num[1] * h.u[1] + c.num[2] * h.u[2]
    + c.den[0] * h.y[1] + c.den[1] * h.y[2]
  }

  /** The histories after one call of `filtro`: Y(k) is stored, then both
      histories move one slot toward the older end; slot 0 keeps U(k) and Y(k). */
  function Step(c: Coefficients, h: History): (h': History)
    requires c.WellFormed() && h.WellFormed()
    ensures h'.WellFormed()
  {
    var out := Output(c, h);
    History([h.u[0], h.u[0], h.u[1]], [out, out, h.y[1]])
  }

  /** The loop's acquisition: the new input overwrites U(k), nothing else. */
  function Acquire(h: History, x: real): (h': History)
    requires h.WellFormed()
    ensures h'.WellFormed()
  {
    h.(u := h.u[0 := x])
  }

  /** `filtro(Cte_UKs, UKs, Cte_YKs, YKs)`: the FPU routine, register by
      register. All ten loads happen before any store; U(k-1) is kept in s6
      so that U(k-2) receives the old U(k-1) although U(k-1) is overwritten
      right after. */
  method Filtro(cteUKs: array<real>, uks: array<real>, cteYKs: array<real>, yks: array<real>)
    requires cteUKs.Length == 3 && cteYKs.Length == 2 && uks.Length == 3 && yks.Length == 3
    requires uks != yks
    requires cteUKs != uks && cteUKs != yks && cteYKs != uks && cteYKs != yks
    modifies uks, yks
    ensures yks[0] == Output(Coefficients(cteUKs[..], cteYKs[..]), History(old(uks[..]), old(yks[..])))
    ensures uks[0] == old(uks[0]) && uks[1] == old(uks[0]) && uks[2] == old(uks[1])
    ensures yks[1] == yks[0] && yks[2] == old(yks[1])
    ensures History(uks[..], yks[..]) == Step(Coefficients(cteUKs[..], cteYKs[..]), History(old(uks[..]), old(yks[..])))
    ensures cteUKs[..] == old(cteUKs[..]) && cteYKs[..] == old(cteYKs[..])
  {
    // vldr: coefficients, then the histories (Y(k) itself is never loaded)
    var s0, s1, s2 := cteUKs[0], cteUKs[1], cteUKs[2];
    var s3, s4 := cteYKs[0], cteYKs[1];
    var s5, s6, s7 := uks[0], uks[1], uks[2];
    var s8, s9 := yks[1], yks[2];
    // vmul
    s0, s1, s2, s3, s4 := s0 * s5, s1 * s6, s2 * s7, s3 * s8, s4 * s9;
    // vadd, in the routine's order
    s0 := s0 + s1;
    s0 := s0 + s2;
    s0 := s0 + s3;
    s0 := s0 + s4;
    assert s0 == Output(Coefficients(cteUKs[..], cteYKs[..]), History(uks[..], yks[..]));
    // vstr: Y(k), then the two shifts
    yks[0] := s0;
    uks[2] := s6;
    uks[1] := s5;
    yks[2] := s8;
    yks[1] := s0;
  }

  /** Y(k) of the difference equation driven from rest by the input signal
      `xs`: the reference the buffered implementation must agree with. */
  function Response(c: Coefficients, xs: seq<real>, k: int): real
    requires c.WellFormed() && k < |xs|
    decreases k
  {
    if k < 0 then 0.0
    else
      c.num[0] * xs[k] + c.num[1] * At(xs, k - 1) + c.num[2] * At(xs, k - 2)
      + c.den[0] * Response(c, xs, k - 1) + c.den[1] * Response(c, xs, k - 2)
  }

  /** The buffers hold exactly what tick `k` of signal `xs` needs. */
  predicate Tracks(c: Coefficients, h: History, xs: seq<real>, k: nat)
    requires c.WellFormed() && h.WellFormed() && k < |xs|
  {
    h.u[0] == xs[k] && h.u[1] == At(xs, k - 1) && h.u[2] == At(xs, k - 2)
    && h.y[1] == Response(c, xs, k - 1) && h.y[2] == Response(c, xs, k - 2)
  }

  /** One call of `filtro` computes the difference equation, and after the
      next acquisition the buffers track the following tick: U(k-1), U(k-2)
      hold the last two inputs consumed, Y(k-1), Y(k-2) the last two outputs. */
  lemma StepFollowsDifferenceEquation(c: Coefficients, h: History, xs: seq<real>, k: nat)
    requires c.WellFormed() && h.WellFormed() && k < |xs|
    requires Tracks(c, h, xs, k)
    ensures Output(c, h) == Response(c, xs, k)
    ensures Step(c, h).u[1] == xs[k] && Step(c, h).u[2] == At(xs, k - 1)
    ensures Step(c, h).y[1] == Response(c, xs, k) && Step(c, h).y[2] == Response(c, xs, k - 1)
    ensures k + 1 < |xs| ==> Tracks(c, Acquire(Step(c, h), xs[k + 1]), xs, k + 1)
  {
    assert Output(c, h) == Response(c, xs, k);
  }

  /** The buffers as the program creates them, with the first input in U(k),
      track tick 0. */
  lemma AtRestTracksFirstTick(c: Coefficients, xs: seq<real>)
    requires c.WellFormed() && 0 < |xs|
    ensures Tracks(c, Acquire(AtRest, xs[0]), xs, 0)
  {
  }

  /** From all-zero history with U(k) = x, one step outputs A0*x. */
  lemma FirstStepFromRest(c: Coefficients, x: real)
    requires c.WellFormed()
    ensures Output(c, Acquire(AtRest, x)) == c.num[0] * x
  {
  }

  /** Y(k) is never loaded: the output does not depend on the slot it overwrites. */
  lemma OutputIgnoresStaleOutput(c: Coefficients, h: History, v: real)
    requires c.WellFormed() && h.WellFormed()
    ensures Output(c, h.(y := h.y[0 := v])) == Output(c, h)
  {
  }

  /** The routine is the direct-form sum: numerator against U(k..k-2) plus the
      (pre-negated) denominator against Y(k-1..k-2), all terms added. */
  lemma {:induction false} OutputIsDirectForm(c: Coefficients, h: History)
    requires c.WellFormed() && h.WellFormed()
    ensures Output(c, h) == Dot(c.num, h.u) + Dot(c.den, h.y[1..])
  {
    assert Dot(c.num[2..], h.u[2..]) == c.num[2] * h.u[2];
    assert Dot(c.num[1..], h.u[1..]) == c.num[1] * h.u[1] + c.num[2] * h.u[2] by {
      assert c.num[1..][1..] == c.num[2..] && h.u[1..][1..] == h.u[2..];
    }
    assert Dot(c.den[1..], h.y[1..][1..]) == c.den[1] * h.y[2];
  }

  /** DC gain: with constant input x and past outputs already at G*x, where
      G = (A0 + A1 + A2) / (1 - B1 - B2), the step reproduces G*x. */
  lemma {:induction false} DcGainIsFixedPoint(c: Coefficients, x: real, y0: real)
    requires c.WellFormed() && c.den[0] + c.den[1] != 1.0
    ensures
      var g := (c.num[0] + c.num[1] + c.num[2]) / (1.0 - c.den[0] - c.den[1]);
      Output(c, History([x, x, x], [y0, g * x, g * x])) == g * x
  {
    var n := c.num[0] + c.num[1] + c.num[2];
    var d := c.den[0] + c.den[1];
    var g := n / (1.0 - d);
    assert g * (1.0 - d) == n;
    calc {
      Output(c, History([x, x, x], [y0, g * x, g * x]));
      n * x + d * (g * x);
      { assert n * x == g * (1.0 - d) * x; }
      g * (1.0 - d) * x + d * (g * x);
      g * x;
    }
  }

  /** The first-order equation of the Tustin design,
      Y(k) = 0.02439 U(k) + 0.02439 U(k-1) + 0.9512 Y(k-1), from rest. */
  function DesignResponse(xs: seq<real>, k: int): real
    requires k < |xs|
    decreases k
  {
    if k < 0 then 0.0 else 0.02439 * xs[k] + 0.02439 * At(xs, k - 1) + 0.9512 * DesignResponse(xs, k - 1)
  }

  /** With A2 = B2 = 0 the second-order routine computes exactly the
      first-order design equation: the U(k-2) and Y(k-2) slots contribute
      nothing. */
  lemma {:induction false} ShippedRealisesDesign(xs: seq<real>, k: int)
    requires k < |xs|
    ensures Response(Shipped, xs, k) == DesignResponse(xs, k)
    decreases k
  {
    if k >= 0 {
      ShippedRealisesDesign(xs, k - 1);
    }
  }

  /** The first two outputs of the shipped design for a unit step from rest. */
  lemma ShippedStepScenario()
    ensures DesignResponse([1.0, 1.0], 0) == 0.02439
    ensures DesignResponse([1.0, 1.0], 1) == 0.071979768
  {
  }

  /** The stored input for a reading: counts times FACTOR. */
  function Scale(r: U16): (v: real)
    ensures 0.0 <= v <= 1.0
    ensures r == 0 ==> v == 0.0
    ensures r == 65535 ==> v == 1.0
  {
    r as real * FACTOR
  }

  /** The inputs the loop feeds to `filtro`, tick by tick: the zero slot the
      program starts with, then each reading in the order it was taken. */
  function Inputs(readings: seq<U16>): seq<real>
  {
    [0.0] + seq(|readings|, i requires 0 <= i < |readings| => Scale(readings[i]))
  }

  /** The (U(k), Y(k)) pairs printed over |readings| ticks, stated by the
      difference equation: tick k prints input k of `Inputs` and its response. */
  function Trace(readings: seq<U16>): seq<(real, real)>
  {
    var xs := Inputs(readings);
    seq(|readings|, k requires 0 <= k < |readings| => (xs[k], Response(Shipped, xs, k)))
  }

  /** The first tick evaluates the zero-initialised slot and prints (0.0, 0.0). */
  lemma FirstTickPrintsZero(readings: seq<U16>)
    requires 0 < |readings|
    ensures Trace(readings)[0] == (0.0, 0.0)
  {
  }

  /** One-tick latency: the input printed at tick k+1 is the reading taken
      after tick k's print and delay. */
  lemma OneTickLatency(readings: seq<U16>, k: nat)
    requires k + 1 < |readings|
    ensures Trace(readings)[k + 1].0 == Scale(readings[k])
  {
  }

  /** Every printed input lies in [0, 1]. */
  lemma PrintedInputsInRange(readings: seq<U16>)
    ensures forall k :: 0 <= k < |readings| ==> 0.0 <= Trace(readings)[k].0 <= 1.0
  {
  }

  /** A full-scale step as printed: the first tick prints (0.0, 0.0), then the
      step appears as input 1.0 with outputs 0.02439 and 0.071979768. */
  lemma PrintedStepScenario()
    ensures Trace([65535, 65535, 7])[1] == (1.0, 0.02439)
    ensures Trace([65535, 65535, 7])[2] == (1.0, 0.071979768)
  {
    var xs := Inputs([65535, 65535, 7]);
    ShippedRealisesDesign(xs, 2);
  }

  /** One tick keeps the buffers on the difference equation and extends the
      printed trace by the pair the equation gives. */
  lemma TickAdvances(readings: seq<U16>, i: nat, h: History, printed: seq<(real, real)>)
    requires i < |readings| && h.WellFormed()
    requires Tracks(Shipped, h, Inputs(readings), i)
    requires printed == Trace(readings)[..i]
    ensures var after := Step(Shipped, h);
      Tracks(Shipped, Acquire(after, Inputs(readings)[i + 1]), Inputs(readings), i + 1)
      && printed + [(after.u[0], after.y[0])] == Trace(readings)[..i + 1]
  {
    StepFollowsDifferenceEquation(Shipped, h, Inputs(readings), i);
    assert Trace(readings)[..i + 1] == Trace(readings)[..i] + [Trace(readings)[i]];
  }

  /** One pass of the main loop: evaluate, print (the returned pair), sleep
      (not modelled), then acquire the next input into U(k). */
  method Tick(cteUKs: array<real>, uks: array<real>, cteYKs: array<real>, yks: array<real>, reading: U16)
    returns (printed: (real, real))
    requires cteUKs.Length == 3 && cteYKs.Length == 2 && uks.Length == 3 && yks.Length == 3
    requires uks != yks
    requires cteUKs != uks && cteUKs != yks && cteYKs != uks && cteYKs != yks
    modifies uks, yks
    ensures var after := Step(Coefficients(cteUKs[..], cteYKs[..]), History(old(uks[..]), old(yks[..])));
      printed == (after.u[0], after.y[0]) && History(uks[..], yks[..]) == Acquire(after, Scale(reading))
    ensures cteUKs[..] == old(cteUKs[..]) && cteYKs[..] == old(cteYKs[..])
  {
    Filtro(cteUKs, uks, cteYKs, yks);
    printed := (uks[0], yks[0]);
    uks[0] := Scale(reading);
  }

  /** The main loop over |readings| ticks. Each tick's printed pair is the
      pair the difference equation gives. */
  method SamplingLoop(readings: seq<U16>) returns (printed: seq<(real, real)>)
    ensures printed == Trace(readings)
  {
    var cteUKs := new real[] [A0, A1, A2];
    var cteYKs := new real[] [B1, B2];
    var uks := new real[] [0.0, 0.0, 0.0];
    var yks := new real[] [0.0, 0.0, 0.0];
    ghost var xs := Inputs(readings);
    ghost var h := Acquire(AtRest, xs[0]);
    AtRestTracksFirstTick(Shipped, xs);
    printed := [];
    var i := 0;
    while i < |readings|
      invariant 0 <= i <= |readings|
      invariant cteUKs[..] == Shipped.num && cteYKs[..] == Shipped.den
      invariant h.WellFormed() && History(uks[..], yks[..]) == h
      invariant Tracks(Shipped, h, xs, i)
      invariant printed == Trace(readings)[..i]
    {
      var pair := Tick(cteUKs, uks, cteYKs, yks, readings[i]);
      TickAdvances(readings, i, h, printed);
      printed := printed + [pair];
      h := Acquire(Step(Shipped, h), xs[i + 1]);
      i := i + 1;
    }
    assert Trace(readings)[..i] == Trace(readings);
  }
}
