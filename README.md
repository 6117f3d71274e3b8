# Real-time IIR filter node (Raspberry Pi Pico) — Dafny model

The repository runs a digital filter on a microcontroller. Each tick the main
loop does four things in order:

1. it calls an FPU assembly routine, `filtro`, which evaluates one step of a
   difference equation over a small history buffer;
2. it prints the current input/output pair;
3. it sleeps 25 ms;
4. it reads the ADC into the "current input" slot.

There are two programs.

- `FILT_IIR.py` is a first-order Tustin low-pass filter (tau = 0.5 s,
  Ts = 25 ms). It is evaluated by a routine that can handle second order, with
  histories U(k..k-2) and Y(k..k-2). Its denominator coefficients are stored
  already negated, so the routine only adds.
- `PRACTICE_02/FILT_HPF.py` is a first-order high-pass filter,
  H(z) = (1 - z^-1) / (1 - 0.8 z^-1), with two-slot histories. Here a1 is
  stored as it appears in the transfer function (-0.8), and the routine
  subtracts a1*Y(k-1).

Each program is one Dafny module (`LowPassIIR` in `filt_iir.dfy`,
`HighPassFilter` in `filt_hpf.dfy`). A small shared module, `Signals` in
`signals.dfy`, holds the 16-bit reading type, zero-extended signals, powers
and the direct-form dot product. Each module has three layers.

- **Buffer level.** `Filtro` is a method on the four `array<real>` buffers. It
  follows the routine's loads and stores in their original order. It is proved
  against the pure functions `Output` (the value stored into Y(k)) and `Step`
  (both histories after the call). `Acquire` is the loop's write of the new
  input.
- **Signal level.** `Response(c, xs, k)` is the difference equation, driven
  from rest by an input signal `xs`. `Tracks` says the buffers hold what tick k
  needs. `StepFollowsDifferenceEquation` shows that one call of the routine
  computes `Response` and keeps the buffers tracking the signal.
  `DesignResponse` is the transfer function's equation, with its literal
  coefficients. `ShippedRealisesDesign` shows that the stored coefficient
  arrays compute exactly that equation. The filter's behaviour is proved
  about it:
  - the low-pass filter has a DC fixed point and unit-step values;
  - the high-pass filter blocks DC. Over a constant run its output shrinks by
    0.8 per tick.
- **Loop level.** `SamplingLoop(readings)` runs the main loop over a finite
  sequence of ADC readings. It allocates and initialises the arrays as the
  program does and returns the printed pairs. It is proved equal to `Trace`,
  the pairs the difference equation prescribes. `Trace` has these properties:
  - the first pair is (0.0, 0.0);
  - each input is printed one tick after it was read;
  - inputs stay in the converter's range.

Worked values are stated for the stored constants. A low-pass unit step gives
y1 = 0.071979768 (`ShippedStepScenario`, and as printed `PrintedStepScenario`).
The low-pass DC gain is 0.04878/0.0488 ≈ 0.99959, not exactly 1
(`DcGainIsFixedPoint`). A high-pass constant input x gives x, then 0.8x, so 5.0
then 4.0 (`ConstantFiveScenario`), because a1 is stored as -0.8 and subtracted.

## Model

| member | source | states |
|---|---|---|
| LowPassIIR.Filtro | FILT_IIR.py:82-113 | Y(k) receives A0*U(k)+A1*U(k-1)+A2*U(k-2)+B1*Y(k-1)+B2*Y(k-2) computed from the values before the call; U(k-1) and U(k-2) receive the old U(k) and U(k-1); Y(k-1) and Y(k-2) receive the new Y(k) and the old Y(k-1); U(k) and the coefficient arrays are unchanged |
| LowPassIIR.StepFollowsDifferenceEquation | FILT_IIR.py:95-113 | when the buffers track tick k of an input signal, the stored Y(k) is the difference equation's output at k, and after the next acquisition the buffers track tick k+1 |
| LowPassIIR.AtRestTracksFirstTick | FILT_IIR.py:70-73 | all-zero initial histories with the first input in U(k) track tick 0 of a signal at rest before it starts |
| LowPassIIR.FirstStepFromRest | FILT_IIR.py:95-105 | from all-zero history the first output is A0 times the input |
| LowPassIIR.OutputIgnoresStaleOutput | FILT_IIR.py:92-93 | the routine never reads Y(k): changing that slot does not change the output |
| LowPassIIR.OutputIsDirectForm | FILT_IIR.py:95-105 | the output is the numerator dot U(k..k-2) plus the stored denominator dot Y(k-1..k-2), all terms added (denominators stored already negated) |
| LowPassIIR.DcGainIsFixedPoint | FILT_IIR.py:53-58 | for constant input x with past outputs at G*x, where G = (A0+A1+A2)/(1-B1-B2), the step outputs G*x again |
| LowPassIIR.ShippedRealisesDesign | FILT_IIR.py:57-65 | with the stored coefficients (A2 = B2 = 0) the routine's equation equals Y(k) = 0.02439 U(k) + 0.02439 U(k-1) + 0.9512 Y(k-1) at every tick |
| LowPassIIR.ShippedStepScenario | FILT_IIR.py:57-65 | a unit step from rest gives y0 = 0.02439 and y1 = 0.071979768 |
| LowPassIIR.Scale | FILT_IIR.py:19 | a 16-bit reading times 1/65535 lies in [0, 1]; 0 maps to 0 and 65535 to 1 |
| LowPassIIR.FirstTickPrintsZero | FILT_IIR.py:135-137 | the first tick evaluates the zero-initialised slot and prints (0.0, 0.0) |
| LowPassIIR.OneTickLatency | FILT_IIR.py:135-139 | the input printed at tick k+1 is the reading taken at the end of tick k |
| LowPassIIR.PrintedInputsInRange | FILT_IIR.py:137-139 | every printed input lies in [0, 1] |
| LowPassIIR.PrintedStepScenario | FILT_IIR.py:135-139 | for readings 65535, 65535, 7 the loop prints (0.0, 0.0), then (1.0, 0.02439), then (1.0, 0.071979768): a full-scale step appears one tick late and rises toward the DC gain |
| LowPassIIR.TickAdvances | FILT_IIR.py:135-139 | one tick keeps the buffers on the difference equation and extends the printed trace by exactly the pair the equation gives |
| LowPassIIR.Tick | FILT_IIR.py:136-139 | one loop pass: the pair printed is (U(k), Y(k)) after `filtro`; afterwards U(k) holds the scaled new reading and the rest of the history is as `filtro` left it |
| LowPassIIR.SamplingLoop | FILT_IIR.py:135-139 | over n readings the loop prints exactly the first n pairs (input, difference-equation output) of the zero-started input signal |
| HighPassFilter.Filtro | PRACTICE_02/FILT_HPF.py:59-94 | Y(k) receives b0*U(k)+b1*U(k-1)-a1*Y(k-1) computed from the values before the call; U(k-1) receives U(k) and Y(k-1) receives the new Y(k); U(k) and the coefficient arrays are unchanged |
| HighPassFilter.StepFollowsDifferenceEquation | PRACTICE_02/FILT_HPF.py:56-94 | when the buffers track tick k, the stored Y(k) is the first-order recurrence's output at k, and after the next acquisition the buffers track tick k+1 |
| HighPassFilter.AtRestTracksFirstTick | PRACTICE_02/FILT_HPF.py:29-30 | zero histories with the first input in U(k) track tick 0 of a signal at rest before it starts |
| HighPassFilter.OutputIgnoresA0AndStaleOutput | PRACTICE_02/FILT_HPF.py:78-79 | a0 and Y(k) are never read: changing either does not change the output |
| HighPassFilter.OutputIsDirectForm | PRACTICE_02/FILT_HPF.py:67-81 | the output is the numerator dot U(k..k-1) minus the denominator (past a0) dot Y(k-1) |
| HighPassFilter.EqualInputsCancel | PRACTICE_02/FILT_HPF.py:67-81 | with the stored coefficients, equal U(k) and U(k-1) cancel and the output is 0.8*Y(k-1) |
| HighPassFilter.ShippedRealisesDesign | PRACTICE_02/FILT_HPF.py:34-41 | with the stored coefficients the routine's recurrence equals Y(k) = U(k) - U(k-1) + 0.8 Y(k-1) of H(z) at every tick |
| HighPassFilter.CancelledTick | PRACTICE_02/FILT_HPF.py:34-41 | when the input repeats, the output is 0.8 times the previous output |
| HighPassFilter.ConstantRunScales | PRACTICE_02/FILT_HPF.py:34-41 | over a run of constant input from tick m to k, the output at k is 0.8^(k-m) times the output at m |
| HighPassFilter.BlocksDc | PRACTICE_02/FILT_HPF.py:34-41 | over a constant run the output decays geometrically, 0.8^(k-m) times the output at m, and is strictly smaller in magnitude once k > m |
| HighPassFilter.ConstantInputFromRest | PRACTICE_02/FILT_HPF.py:34-41 | a constant input x from rest gives outputs 0.8^k * x |
| HighPassFilter.ConstantFiveScenario | PRACTICE_02/FILT_HPF.py:40-41 | a constant input of 5 from rest gives outputs 5.0 then 4.0 |
| HighPassFilter.Scale | PRACTICE_02/FILT_HPF.py:11 | a 16-bit reading times 3.3/65535 lies in [0, 3.3] V; 0 maps to 0 and 65535 to 3.3 |
| HighPassFilter.FirstTickPrintsZero | PRACTICE_02/FILT_HPF.py:100-103 | the first tick prints (0.0, 0.0) |
| HighPassFilter.OneTickLatency | PRACTICE_02/FILT_HPF.py:100-109 | the input printed at tick k+1 is the reading taken at the end of tick k |
| HighPassFilter.PrintedInputsInRange | PRACTICE_02/FILT_HPF.py:103-109 | every printed input lies in [0, 3.3] |
| HighPassFilter.PrintedFullScaleScenario | PRACTICE_02/FILT_HPF.py:100-109 | for three full-scale readings the loop prints (0.0, 0.0), then (3.3, 3.3), then (3.3, 2.64): the step passes through once and then decays by 0.8 |
| HighPassFilter.TickAdvances | PRACTICE_02/FILT_HPF.py:100-109 | one tick keeps the buffers on the recurrence and extends the printed trace by exactly the pair the recurrence gives |
| HighPassFilter.Tick | PRACTICE_02/FILT_HPF.py:101-109 | one loop pass: the pair printed is (U(k), Y(k)) after `filtro`; afterwards U(k) holds the scaled new reading |
| HighPassFilter.SamplingLoop | PRACTICE_02/FILT_HPF.py:100-109 | over n readings the loop prints exactly the first n pairs (input, recurrence output) of the zero-started input signal |
| Signals.PowShrinks | PRACTICE_02/FILT_HPF.py:34 | a power of a ratio in (0, 1) stays in (0, 1] and is below 1 for a positive exponent; this is the decay factor behind the high-pass DC blocking |

## Left out

- The square-wave generator threads (`onda_cuadrada`, `Onda_Cuadrada`) and `_thread` are left out. They share no memory with the filter loop. They only drive pins wired outside the program.
- Pin and ADC hardware, `sleep`/`sleep_ms` and `print` are left out. Readings are a parameter (`readings`). The printed pairs are the method's result. The 25 ms delay has no effect on the values.
- 32-bit float arithmetic (`array('f')`, FPU single precision) is not modelled. Every value is a Dafny `real`, so the rounding of each multiply and add is not modelled.
- SamplingLoop: the source loop never terminates. The model runs one tick per reading, i.e. any finite prefix of the infinite loop.
- Filtro: requires the four array arguments to be distinct objects, as every call in the programs passes them. Aliased calls are not modelled.
- `FIRST_PRACTICE/calculadora.py` (an interactive arithmetic menu) is not part of this model.
- Deriving coefficients (the Tustin transform done offline) is not modelled. The coefficients are the stored constants.
- HighPassFilter.BlocksDc: convergence to zero is stated as an exact geometric factor 0.8^(k-m) together with a strict decrease in magnitude. It is not stated as a limit.
- The low-pass DC property is stated as a fixed point for any coefficients (`DcGainIsFixedPoint`). It is not stated as convergence.
