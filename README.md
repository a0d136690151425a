# comprs compressor core, modelled in Dafny

This project models the signal-processing core of the comprs dynamic-range
compressor plugin, and the small parameter-event buffer that feeds it.
Samples and parameters are exact reals, not f32. The model has three parts:

- **The compressor crate** (`dsp/src/lib.rs`). It has three pieces:
  - an RMS level detector: a 44-sample window in a circular buffer, newest
    sample at the front, plus a running sum of squares;
  - an attack/release one-pole smoother over the detected level;
  - a soft-knee gain computer in the decibel domain.
- **The parameter events** (`src/params.rs`):
  - the eight `ParameterEvent` variants;
  - the change callback, which drops queued events of the same variant and
    appends the new one;
  - `get_param`;
  - the declared defaults and ranges.
- **The low-pass filter** (`src/dsp.rs`): one state value, blended with each
  input.

The functions the source calls but does not define are passed in as
`real -> real` values: `sqrt`, `exp`, `db_to_gain` and `gain_to_db`. The
compressor holds all four in one `Maths` value, which its constructor fixes.
The properties that depend on them assume only the laws in `Numerics`:
- `db_to_gain(0) = 1`, and `db_to_gain` is non-negative and monotone.
  nih_plug's `db_to_gain` returns 0 at or below −100 dB, so it is not
  assumed to be positive;
- `exp` maps negative numbers into (0, 1).

Where the f32 code divides by zero, the result is `None`. The model does not
trace that value further: in particular it does not evaluate `db_to_gain` of
a NaN final_db. The compressor follows the code as written, including the
one division by zero that the declared ranges admit: a knee width of 0 with
the level exactly at the threshold (see "## Findings"). `GainComputer` also
holds a corrected gain computer, `ReductionDb`, which gives 0 dB at that
point. The no-boost property is proved for it everywhere, and it is proved
equal to the code everywhere else.

Modules:
- `Numerics`: `Option`, `Abs`, the laws above.
- `OnePole`: the blend `(1 - c)·x + c·y` shared by the smoother and the filter.
- `LevelDetector`: `RmsLevelDetector`, a class over an array plus a front index.
- `GainComputer`: pure functions.
- `CompressorDsp`: the `Compressor` class.
- `Params`: events, the `EventBuffer` class, defaults.
- `Lpf`: the `Lpf` class.

Where the code differs from how this compressor design is usually
described, the model follows the code:
- **No clamp before `sqrt`.** The running sum of squares is not clamped.
  In exact arithmetic it always equals the sum of squares of the window, so
  it is never negative.
- **No pass-through for ratios at or below 1:1.** A ratio below 1 amplifies.
  The declared ratio range starts at 1.
- **A zero attack or release time** gives coefficient 0 through IEEE
  infinities (`exp(-1/0) = 0`). The model writes this case out.
- **No lookahead, dry/wet, gain staging, shared detector or window resizing**
  appears in this compressor code.

## Model

| member | source | states |
|---|---|---|
| `OnePole.Blend` | dsp/src/lib.rs:101 | The blend of input and previous state: coefficient 0 follows the input, coefficient 1 holds the state, a state equal to the input is a fixed point. A coefficient in [0,1] keeps the result between state and input. |
| `LevelDetector.SumOfSquaresNonNegative` | dsp/src/lib.rs:35-37 | A sum of squares is never negative. |
| `LevelDetector.SumOfSquaresAppend` | dsp/src/lib.rs:35-36 | Appending a sample adds its square to the sum. |
| `LevelDetector.SumOfSquaresConstant` | dsp/src/lib.rs:26 | A window of n copies of c sums to n·c²; all zeros give 0, the initial running sum. |
| `LevelDetector.SlideSumOfSquares` | dsp/src/lib.rs:33-36 | Dropping the back sample and pushing the input at the front changes the sum of squares by exactly input² − old². So the running-sum update keeps it exact. |
| `LevelDetector.MeanSquare` | dsp/src/lib.rs:37 | The value handed to `sqrt` is never negative, and is 0 for a silent window. |
| `LevelDetector.MeanSquareConstant` | dsp/src/lib.rs:37 | A window holding only c has mean square c². |
| `LevelDetector.SlideConstantFills` | dsp/src/lib.rs:33-34 | After k updates with c, the first k window entries are c and the length is unchanged. After a full window length the window is all c. |
| `LevelDetector.ConstantSignalMeanSquare` | dsp/src/lib.rs:31-38 | A constant signal c fed for one window length gives mean square c², whatever the window held before. |
| `LevelDetector.SlideMany` | dsp/src/lib.rs:33-34 | Repeated updates keep the window length. |
| `LevelDetector.RmsLevelDetector.constructor` | dsp/src/lib.rs:22-28 | The window starts as 44 zeros and the sum as 0, and the invariant holds. |
| `LevelDetector.RmsLevelDetector.CalculateRms` | dsp/src/lib.rs:31-38 | One pop at the back and one push at the front. The new window is the input followed by the old window minus its oldest sample, and the length stays 44. The running sum still equals the window's sum of squares and is ≥ 0. The result is `sqrt` of its mean. |
| `GainComputer.ReductionDbAsWritten` | dsp/src/lib.rs:112-130 | final_db exactly as written. It fails (non-finite) exactly when a knee of width 0 sits at the threshold, or when ratio 0 is used in a compressing region. |
| `GainComputer.HardKneeAtThresholdIsNaN` | dsp/src/lib.rs:116-119 | With knee width 0 and level equal to threshold, the code divides 0 by 0. The corrected computer gives 0 dB there. |
| `GainComputer.ReductionDb` | dsp/src/lib.rs:114-130 | The corrected final_db, with 0 dB for the hard knee at the threshold. Region precedence, knee first. Below the knee there is no change. Above it, difference·(1/ratio − 1). A 1:1 ratio never changes the gain. Only ratio 0 in a compressing region fails. |
| `GainComputer.CorrectionIsLocal` | dsp/src/lib.rs:114-128 | The corrected computer agrees with the code everywhere except the hard knee at the threshold. |
| `GainComputer.KneeCurveAboveDiagonal` | dsp/src/lib.rs:118-119 | The knee's quadratic is ≥ 0 and ≥ the difference itself. |
| `GainComputer.SlopeFactorNonPositive` | dsp/src/lib.rs:120 | For ratio ≥ 1, the factor 1/ratio − 1 lies in (−1, 0]. |
| `GainComputer.NoBoost` | dsp/src/lib.rs:114-130 | For ratio ≥ 1 and knee ≥ 0, the corrected final_db (`ReductionDb`) is defined and ≤ 0 in every region. |
| `GainComputer.SoftKneeBelowHardKnee` | dsp/src/lib.rs:116-123 | Inside the knee, for ratio ≥ 1, the soft curve reduces at least as much as both hard-knee lines: ≤ 0 and ≤ difference·(1/ratio − 1). |
| `GainComputer.KneeEdgesContinuous` | dsp/src/lib.rs:116-123 | At difference −knee/2 the knee gives 0. At +knee/2 it gives the above-knee value. |
| `GainComputer.GainFactor` | dsp/src/lib.rs:110-133 | The multiplier db_to_gain(final_db), with final_db as written. For ratio ≥ 1 and knee ≥ 0 it lies in [0, 1], except for a knee of 0 with the level at the threshold, where it is `None`: final_db is NaN (a 0/0), and db_to_gain is not evaluated there. It is exactly 1 below the knee, and for a 1:1 ratio off that point. |
| `CompressorDsp.FilterCoefficient` | dsp/src/lib.rs:196-198 | Time 0 gives coefficient 0. A positive time gives a coefficient in (0, 1), and a non-negative time one in [0, 1). |
| `CompressorDsp.SmoothedGain` | dsp/src/lib.rs:95-101 | Attack is used only when the level is strictly above the average; ties and falls use release. The result stays between the old average and the level for coefficients in [0,1]. Coefficient 0 follows the level, and a level equal to the average is kept. |
| `CompressorDsp.SmoothedGainDirection` | dsp/src/lib.rs:95-101 | A rising level never lowers the average and a falling one never raises it, and neither overshoots the level. |
| `CompressorDsp.ProcessNeverLouder` | dsp/src/lib.rs:82-86 | For ratio ≥ 1 and knee ≥ 0, the processed sample is never louder than its input. This excludes a knee of 0 with the level at the threshold. There final_db is NaN (a 0/0), and the model does not evaluate db_to_gain of it. |
| `CompressorDsp.ScaledNoLouder` | dsp/src/lib.rs:85 | Scaling by a factor in [0, 1] never increases magnitude. |
| `CompressorDsp.Compressor.New` | dsp/src/lib.rs:143-164 | Times are stored as filter coefficients and the settings as given. The average gain is 0 and the window is all zeros. |
| `CompressorDsp.Compressor.Default` | dsp/src/lib.rs:201-216 | Coefficients for 0.01 s and 0.3 s, threshold 0, ratio 4, knee 5, RMS detection, average gain 0. |
| `CompressorDsp.Compressor.Process` | dsp/src/lib.rs:82-86 | The gain is updated first, then the sample is scaled by the factor from the new average gain, computed as written. The output is `None` exactly when that factor is. The second output is 0 and the settings are unchanged. |
| `CompressorDsp.Compressor.UpdateGain` | dsp/src/lib.rs:89-102 | The window slides by the sample. The average becomes the smoothed blend of sqrt of the new mean square, with attack or release picked by direction. |
| `CompressorDsp.Compressor.GetAverageGain` | dsp/src/lib.rs:104-106 | Returns the average gain. |
| `CompressorDsp.Compressor.CalculateGainReduction` | dsp/src/lib.rs:110-133 | Changes nothing. The factor for the current state, computed as written, lies in [0, 1] for ratio ≥ 1 and knee ≥ 0. The exception is a knee of 0 with the level at the threshold, where it is `None`: final_db is NaN (a 0/0). |
| `CompressorDsp.Compressor.SetThreshold` | dsp/src/lib.rs:167-169 | Sets the threshold only. |
| `CompressorDsp.Compressor.SetRatio` | dsp/src/lib.rs:172-174 | Sets the ratio only. |
| `CompressorDsp.Compressor.SetKneeWidth` | dsp/src/lib.rs:177-179 | Sets the knee width only. |
| `CompressorDsp.Compressor.SetLevelDetectionType` | dsp/src/lib.rs:182-184 | Sets the detection type only. |
| `CompressorDsp.Compressor.SetAttackTime` | dsp/src/lib.rs:187-189 | Stores the filter coefficient of the time as the attack coefficient, nothing else. |
| `CompressorDsp.Compressor.SetReleaseTime` | dsp/src/lib.rs:192-194 | Stores the filter coefficient of the time as the release coefficient, nothing else. |
| `Params.ParameterEvent.Discriminant` | src/params.rs:28-37 | Each event's variant is one of the 8 parameters. |
| `Params.GetParam` | src/params.rs:96-107 | Returns exactly the carried value, and one of the eight parameters. |
| `Params.GetParamSelectsByVariant` | src/params.rs:96-107 | Two events address the same parameter if and only if they are of the same variant, so the eight variants select eight distinct parameters. |
| `Params.DefaultParams` | src/params.rs:134-290 | The ids are distinct and every default lies in its declared range: threshold −10 ∈ [−100, 5], ratio 4 ∈ [1, 100], attack 0.001 ∈ [0, 1], release 0.05 ∈ [0, 5], knee 5 ∈ [0, 20], dry/wet 1 ∈ [0, 1], gains 0 dB ∈ [−30, 30] dB. The ratio range starts at 1. |
| `Params.DeclaredRangesNeverBoost` | src/params.rs:165-172 | With ratio and knee inside their declared ranges, final_db as written is `None` exactly for a knee of 0 with the level at the threshold, and otherwise defined and ≤ 0. The corrected final_db is defined and ≤ 0 everywhere. |
| `Params.WithoutAppend` | src/params.rs:128 | Removing a variant distributes over concatenation. |
| `Params.OnlyAppend` | src/params.rs:128 | Selecting a variant distributes over concatenation. |
| `Params.WithoutKeepsOthers` | src/params.rs:128 | After retain, no event of the removed variant is left. Every other variant's events are kept exactly, in order. |
| `Params.WithoutIdempotent` | src/params.rs:128 | Removing a variant twice is the same as removing it once. |
| `Params.WithoutOnlyRemoves` | src/params.rs:128 | Retain only removes events: it never lengthens the buffer or adds an event, and it keeps the at-most-one-per-variant property. |
| `Params.HandledReplacesVariant` | src/params.rs:128-130 | After the callback, the new event is the only event of its variant and is last. Other variants are unchanged. |
| `Params.HandledIdempotent` | src/params.rs:128-130 | Handling the same event twice gives the same buffer as once. |
| `Params.HandledLastWriterWins` | src/params.rs:128-130 | A later event of a variant replaces an earlier one. |
| `Params.HandledKeepsAtMostOne` | src/params.rs:128-130 | At most one event per variant is preserved. |
| `Params.BoundByAllowed` | src/params.rs:51 | With at most one event per variant, the length is bounded by the number of variants allowed. |
| `Params.AtMostOneBoundsLength` | src/params.rs:51 | With at most one event per variant, the buffer never exceeds NUM_PARAMETERS = 8. |
| `Params.Retain` | src/params.rs:128 | The loop keeps exactly the events of other variants, in order. |
| `Params.EventBuffer.constructor` | src/params.rs:136 | The buffer starts empty. |
| `Params.EventBuffer.OnChange` | src/params.rs:120-131 | The new buffer is the old one with that variant removed and the new event appended, so the new event is last. At most one event per variant is kept, and then the length is ≤ 8. |
| `Lpf.Lpf.New` | src/dsp.rs:6-8 | The state starts at 0. |
| `Lpf.Lpf.Process` | src/dsp.rs:9-15 | The state becomes input·(1−cutoff) + z·cutoff and is returned. Cutoff 0 passes the input and cutoff 1 holds the state. A cutoff in [0,1] keeps the output between the old state and the input. A state equal to the input is kept. |

## Left out

- f32 rounding, NaN and infinity propagation: all arithmetic is exact. A
  division by zero is reported as `None` and not traced further.
- `sqrt`, `exp`, `db_to_gain`, `gain_to_db`: external functions, passed in
  as parameters (for the compressor, once, to its constructor). Only the laws in `Numerics` are assumed, and only where a
  property needs them.
- The truncating f32-to-usize conversion of `BUFFER_SIZE` is written as the
  constant 44.
- The host glue in src/lib.rs is not part of this model. That covers plugin
  setup, buffer iteration, the atomic resize flag and the deque resize. It
  also uses a compressor interface that differs from dsp/src/lib.rs.
- The `Arc<Mutex<…>>` around the event buffer and its locking are left out.
  This is concurrency; only the single-threaded retain-and-push is modelled.
- nih_plug parameter configuration is left out: skew factors, smoothing
  styles, units and the value-to-string formatters, including
  `v2s_rounded_multiplied`. `DefaultParams` keeps only ids, names, defaults
  and range bounds.
- GUI, plotting, editor and the serde message enum are not part of this
  model.
- `Params.GetParam` returns the parameter's declared description, not a
  reference to the host object.

## Findings

| source | as written | input that shows it | evidently intended | confidence | as-written member | corrected member |
|---|---|---|---|---|---|---|
| dsp/src/lib.rs:116-119 | The knee test `2·abs(d) ≤ knee_width` is checked first. It holds for a knee width of 0 when `d = 0`, and then the branch divides 0 by `2·knee_width = 0`, so final_db is NaN and `process` scales the sample by `db_to_gain(NaN)`. | knee_width = 0 (the documented hard-knee setting) with the detected level exactly at the threshold, e.g. the default threshold 0 dB and an average gain of 1.0 | no gain change (0 dB), the value both neighbouring regions give at the threshold | high; not executed | `GainComputer.HardKneeAtThresholdIsNaN` | `GainComputer.ReductionDb` |

The compressor (`GainFactor`, `Compressor.CalculateGainReduction`,
`Compressor.Process`) keeps the code's behaviour: it gives `None` at this
point. The corrected `ReductionDb` is the fix. `NoBoost` proves it defined
and never positive for every ratio ≥ 1 and knee ≥ 0, and `CorrectionIsLocal`
proves it changes nothing else.
