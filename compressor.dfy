/** The compressor of the DSP crate (dsp/src/lib.rs, `Compressor`): an RMS
    level detector, an attack/release smoother over its output, and the
    soft-knee gain computer, applied one sample at a time. The external maths
    (`sqrt`, `exp`, `db_to_gain`, `gain_to_db`) is one `Maths` value, given to
    the constructor and fixed for the compressor's lifetime. */
module CompressorDsp {
  import opened Numerics
  import opened OnePole
  import opened LevelDetector
  import opened GainComputer

  /** The external floating-point functions the compressor calls. */
  datatype Maths = Maths(sqrt: real -> real, exp: real -> real,
                         dbToGain: real -> real, gainToDb: real -> real)

  /** How the level fed to the smoother is measured; RMS is the only kind. */
  datatype LevelDetectionType = Rms

  /** `calculate_filter_coefficient`: `exp(-1 / (SAMPLE_RATE * time))`. A time
      of 0 makes the f32 exponent -infinity, whose exponential is 0; that case
      is written out. */
  function FilterCoefficient(time: real, exp: real -> real): (c: real)
    // zero time: no smoothing at all
    ensures time == 0.0 ==> c == 0.0
    // a positive time gives a coefficient strictly inside (0, 1)
    ensures ExpLaws(exp) && time > 0.0 ==> 0.0 < c < 1.0
    // so every non-negative time gives a coefficient in [0, 1)
    ensures ExpLaws(exp) && time >= 0.0 ==> 0.0 <= c < 1.0
  {
    if time == 0.0 then 0.0
    else
      var exponent := -1.0 / (SampleRate * time);
      assert time > 0.0 ==> exponent < 0.0;
      exp(exponent)
  }

  /** The new average gain of `update_gain`: the one-pole blend of the detected
      `level` into `average`, with the attack coefficient while the level rises
      above the average and the release coefficient otherwise (ties included). */
  function SmoothedGain(level: real, average: real, attack: real, release: real): (g: real)
    // a rising level is smoothed with the attack coefficient
    ensures level > average ==> g == Blend(level, attack, average)
    // a falling or equal level is smoothed with the release coefficient
    ensures level <= average ==> g == Blend(level, release, average)
    // with both coefficients in [0, 1] the average moves towards the level, never past it
    ensures 0.0 <= attack <= 1.0 && 0.0 <= release <= 1.0 ==> Between(g, average, level)
    // a zero coefficient on the active side follows the level at once
    ensures level > average && attack == 0.0 ==> g == level
    ensures level <= average && release == 0.0 ==> g == level
    // a level equal to the average leaves it unchanged
    ensures level == average ==> g == average
  {
    var theta := if level > average then attack else release;
    Blend(level, theta, average)
  }

  /** The smoothed gain never rises while the level is at or below it, and
      never falls while the level is above it, whatever the coefficients in
      [0, 1]. */
  lemma SmoothedGainDirection(level: real, average: real, attack: real, release: real)
    requires 0.0 <= attack <= 1.0 && 0.0 <= release <= 1.0
    ensures level > average ==> average <= SmoothedGain(level, average, attack, release) <= level
    ensures level <= average ==> level <= SmoothedGain(level, average, attack, release) <= average
  {
    var g := SmoothedGain(level, average, attack, release);
    assert Between(g, average, level);
  }

  class Compressor {
    /** Smoothed detected level, linear. */
    var averageGain: real
    var attackCoefficient: real
    var releaseCoefficient: real
    /** Threshold in dB. */
    var threshold: real
    /** Compression ratio, `ratio`:1. */
    var ratio: real
    /** Knee width in dB. */
    var kneeWidth: real
    const rms: RmsLevelDetector
    var levelDetectionType: LevelDetectionType
    /** The floating-point library every operation calls. */
    const maths: Maths

    ghost predicate Valid()
      reads this, rms, rms.buffer
    {
      rms.Valid()
    }

    /** `Compressor::new`: the times are stored as filter coefficients, the
        average gain starts at 0 and the window is all zeros. */
    constructor New(attackTime: real, releaseTime: real, threshold: real, ratio: real,
                    kneeWidth: real, levelDetectionType: LevelDetectionType, maths: Maths)
      ensures Valid() && fresh(rms) && fresh(rms.buffer)
      ensures averageGain == 0.0
      ensures this.maths == maths
      ensures attackCoefficient == FilterCoefficient(attackTime, maths.exp)
      ensures releaseCoefficient == FilterCoefficient(releaseTime, maths.exp)
      ensures this.threshold == threshold && this.ratio == ratio && this.kneeWidth == kneeWidth
      ensures this.levelDetectionType == levelDetectionType
      ensures rms.Window() == seq(BufferSize, _ => 0.0)
    {
      this.maths := maths;
      averageGain := 0.0;
      attackCoefficient := FilterCoefficient(attackTime, maths.exp);
      releaseCoefficient := FilterCoefficient(releaseTime, maths.exp);
      this.threshold := threshold;
      this.ratio := ratio;
      this.kneeWidth := kneeWidth;
      rms := new RmsLevelDetector();
      this.levelDetectionType := levelDetectionType;
    }

    /** `Default for Compressor`: attack time 0.01 s, release time 0.3 s,
        threshold 0 dB, ratio 4:1, knee 5 dB, RMS detection. */
    constructor Default(maths: Maths)
      ensures Valid() && fresh(rms) && fresh(rms.buffer)
      ensures this.maths == maths
      ensures averageGain == 0.0
      ensures attackCoefficient == FilterCoefficient(0.01, maths.exp)
      ensures releaseCoefficient == FilterCoefficient(0.3, maths.exp)
      ensures threshold == 0.0 && ratio == 4.0 && kneeWidth == 5.0
      ensures levelDetectionType == Rms
      ensures rms.Window() == seq(BufferSize, _ => 0.0)
    {
      this.maths := maths;
      averageGain := 0.0;
      rms := new RmsLevelDetector();
      attackCoefficient := FilterCoefficient(0.01, maths.exp);
      releaseCoefficient := FilterCoefficient(0.3, maths.exp);
      threshold := 0.0;
      ratio := 4.0;
      kneeWidth := 5.0;
      levelDetectionType := Rms;
    }

    /** `process`: update the average gain from `sample`, then scale the sample
        by the gain factor computed from the new average. The second output is
        always 0. `None`: final_db is NaN (a 0/0), and the model does not
        evaluate `db_to_gain` there. */
    method Process(sample: real) returns (processed: Option<real>, second: real)
      requires Valid()
      modifies this, rms, rms.buffer
      ensures Valid()
      ensures rms.Window() == Slide(old(rms.Window()), sample)
      ensures averageGain == SmoothedGain(maths.sqrt(MeanSquare(rms.Window())), old(averageGain),
                                          attackCoefficient, releaseCoefficient)
      ensures var factor := GainFactor(averageGain, threshold, ratio, kneeWidth, maths.gainToDb, maths.dbToGain);
              processed.Some? == factor.Some? &&
              (processed.Some? ==> processed.value == sample * factor.value)
      ensures second == 0.0
      ensures attackCoefficient == old(attackCoefficient) && releaseCoefficient == old(releaseCoefficient)
      ensures threshold == old(threshold) && ratio == old(ratio) && kneeWidth == old(kneeWidth)
      ensures levelDetectionType == old(levelDetectionType)
    {
      UpdateGain(sample);
      var c := CalculateGainReduction();
      processed := if c.None? then None else Some(sample * c.value);
      second := 0.0;
    }

    /** `update_gain`: detect the RMS level of the window with `sample` pushed
        in, and smooth the average gain towards it. */
    method UpdateGain(sample: real)
      requires Valid()
      modifies this, rms, rms.buffer
      ensures Valid()
      ensures rms.Window() == Slide(old(rms.Window()), sample)
      ensures averageGain == SmoothedGain(maths.sqrt(MeanSquare(rms.Window())), old(averageGain),
                                          attackCoefficient, releaseCoefficient)
      ensures attackCoefficient == old(attackCoefficient) && releaseCoefficient == old(releaseCoefficient)
      ensures threshold == old(threshold) && ratio == old(ratio) && kneeWidth == old(kneeWidth)
      ensures levelDetectionType == old(levelDetectionType)
    {
      var newGain: real;
      match levelDetectionType {
        case Rms => newGain := rms.CalculateRms(sample, maths.sqrt);
      }
      var theta := if newGain > averageGain then attackCoefficient else releaseCoefficient;
      ghost var previous := averageGain;
      assert SmoothedGain(newGain, previous, attackCoefficient, releaseCoefficient)
          == Blend(newGain, theta, previous);
      averageGain := (1.0 - theta) * newGain + theta * averageGain;
    }

    function GetAverageGain(): (g: real)
      reads this
      ensures g == averageGain
    {
      averageGain
    }

    /** `calculate_gain_reduction`: the gain factor for the current average
        gain and settings. It reads the state and changes nothing. */
    function CalculateGainReduction(): (factor: Option<real>)
      reads this
      ensures factor == GainFactor(averageGain, threshold, ratio, kneeWidth, maths.gainToDb, maths.dbToGain)
      ensures (DbToGainLaws(maths.dbToGain) && ratio >= 1.0 && kneeWidth >= 0.0 &&
               !(kneeWidth == 0.0 && maths.gainToDb(averageGain) == threshold)) ==>
                factor.Some? && 0.0 <= factor.value <= 1.0
      // the hard knee at the threshold: final_db is the source's 0/0
      ensures kneeWidth == 0.0 && maths.gainToDb(averageGain) == threshold ==> factor.None?
    {
      GainFactor(averageGain, threshold, ratio, kneeWidth, maths.gainToDb, maths.dbToGain)
    }

    method SetThreshold(threshold: real)
      modifies this
      ensures this.threshold == threshold
      ensures averageGain == old(averageGain) && ratio == old(ratio) && kneeWidth == old(kneeWidth)
      ensures attackCoefficient == old(attackCoefficient) && releaseCoefficient == old(releaseCoefficient)
      ensures levelDetectionType == old(levelDetectionType)
    {
      this.threshold := threshold;
    }

    method SetRatio(ratio: real)
      modifies this
      ensures this.ratio == ratio
      ensures averageGain == old(averageGain) && threshold == old(threshold) && kneeWidth == old(kneeWidth)
      ensures attackCoefficient == old(attackCoefficient) && releaseCoefficient == old(releaseCoefficient)
      ensures levelDetectionType == old(levelDetectionType)
    {
      this.ratio := ratio;
    }

    method SetKneeWidth(kneeWidth: real)
      modifies this
      ensures this.kneeWidth == kneeWidth
      ensures averageGain == old(averageGain) && threshold == old(threshold) && ratio == old(ratio)
      ensures attackCoefficient == old(attackCoefficient) && releaseCoefficient == old(releaseCoefficient)
      ensures levelDetectionType == old(levelDetectionType)
    {
      this.kneeWidth := kneeWidth;
    }

    method SetLevelDetectionType(levelDetectionType: LevelDetectionType)
      modifies this
      ensures this.levelDetectionType == levelDetectionType
      ensures averageGain == old(averageGain) && threshold == old(threshold) && ratio == old(ratio)
      ensures kneeWidth == old(kneeWidth)
      ensures attackCoefficient == old(attackCoefficient) && releaseCoefficient == old(releaseCoefficient)
    {
      this.levelDetectionType := levelDetectionType;
    }

    method SetAttackTime(attackTime: real)
      modifies this
      ensures attackCoefficient == FilterCoefficient(attackTime, maths.exp)
      ensures averageGain == old(averageGain) && threshold == old(threshold) && ratio == old(ratio)
      ensures kneeWidth == old(kneeWidth) && releaseCoefficient == old(releaseCoefficient)
      ensures levelDetectionType == old(levelDetectionType)
    {
      attackCoefficient := FilterCoefficient(attackTime, maths.exp);
    }

    method SetReleaseTime(releaseTime: real)
      modifies this
      ensures releaseCoefficient == FilterCoefficient(releaseTime, maths.exp)
      ensures averageGain == old(averageGain) && threshold == old(threshold) && ratio == old(ratio)
      ensures kneeWidth == old(kneeWidth) && attackCoefficient == old(attackCoefficient)
      ensures levelDetectionType == old(levelDetectionType)
    {
      releaseCoefficient := FilterCoefficient(releaseTime, maths.exp);
    }
  }

  /** With a ratio of at least 1 the sample `process` outputs is never louder
      than its input, whatever the average gain, except at a hard knee with the
      level exactly at the threshold, where final_db is a 0/0 and `GainFactor`
      is `None`. */
  lemma ProcessNeverLouder(sample: real, averageGain: real, threshold: real, ratio: real,
                           kneeWidth: real, maths: Maths)
    requires DbToGainLaws(maths.dbToGain) && ratio >= 1.0 && kneeWidth >= 0.0
    requires !(kneeWidth == 0.0 && maths.gainToDb(averageGain) == threshold)
    ensures GainFactor(averageGain, threshold, ratio, kneeWidth, maths.gainToDb, maths.dbToGain).Some?
    ensures Abs(sample * GainFactor(averageGain, threshold, ratio, kneeWidth, maths.gainToDb, maths.dbToGain).value)
            <= Abs(sample)
  {
    var factor := GainFactor(averageGain, threshold, ratio, kneeWidth, maths.gainToDb, maths.dbToGain);
    ScaledNoLouder(sample, factor.value);
  }

  /** Scaling by a factor in [0, 1] never makes a sample louder. */
  lemma ScaledNoLouder(sample: real, factor: real)
    requires 0.0 <= factor <= 1.0
    ensures Abs(sample * factor) <= Abs(sample)
  {
    if sample >= 0.0 {
      assert 0.0 <= sample * factor <= sample;
    } else {
      assert sample * (1.0 - factor) <= 0.0;
      assert sample <= sample * factor <= 0.0;
    }
  }
}
