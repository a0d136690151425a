/** The soft-knee gain computer of the compressor crate (dsp/src/lib.rs,
    `calculate_gain_reduction`), after the static characteristic of
    Giannoulis, Massberg and Reiss, "Digital Dynamic Range Compressor Design —
    A Tutorial and Analysis" (JAES 2012).

    Everything here is in the decibel domain. `difference` is the detected level
    minus the threshold; the result is `final_db`, the gain change in dB that
    the compressor applies (0 means unchanged, negative means reduced). Where the
    f32 computation would divide by zero the result is `None`. */
module GainComputer {
  import opened Numerics

  /** Inside the knee: `2 * |difference| <= kneeWidth`. Tested first. */
  predicate InKnee(difference: real, kneeWidth: real)
  {
    2.0 * Abs(difference) <= kneeWidth
  }

  /** The knee's quadratic, `(difference + kneeWidth / 2)^2 / (2 * kneeWidth)`. */
  function KneeCurve(difference: real, kneeWidth: real): real
    requires kneeWidth != 0.0
  {
    Square(difference + kneeWidth / 2.0) / (2.0 * kneeWidth)
  }

  /** `final_db` exactly as the source computes it, including the step
      `reduced_db - input_db`. `None` where a division by zero occurs: by the
      ratio in either compressing branch, or by `2 * knee_width` in the knee
      branch, which a knee width of 0 reaches when the level equals the
      threshold. */
  function ReductionDbAsWritten(inputDb: real, threshold: real, ratio: real, kneeWidth: real): (r: Option<real>)
    ensures kneeWidth >= 0.0 ==>
      (r.None? <==> (kneeWidth == 0.0 && inputDb == threshold) ||
                     (ratio == 0.0 && 2.0 * (inputDb - threshold) >= -kneeWidth))
  {
    var difference := inputDb - threshold;
    if InKnee(difference, kneeWidth) then
      if kneeWidth == 0.0 || ratio == 0.0 then None
      else
        var reducedDb := inputDb + (1.0 / ratio - 1.0) * KneeCurve(difference, kneeWidth);
        Some(reducedDb - inputDb)
    else if 2.0 * difference > kneeWidth then
      if ratio == 0.0 then None
      else
        var reducedDb := threshold + difference / ratio;
        Some(reducedDb - inputDb)
    else
      var reducedDb := inputDb;
      Some(reducedDb - inputDb)
  }

  /** A hard knee (width 0) with the level exactly at the threshold takes the
      knee branch and divides 0 by 0, although both neighbouring regions give
      no gain change there. */
  lemma HardKneeAtThresholdIsNaN(level: real, ratio: real)
    ensures ReductionDbAsWritten(level, level, ratio, 0.0) == None
    ensures ratio != 0.0 ==> ReductionDb(level, level, ratio, 0.0) == Some(0.0)
  {
  }

  /** `final_db` with the hard-knee case made explicit: a knee of width 0 is
      entered only at the threshold itself, where the gain change is 0 dB. */
  function ReductionDb(inputDb: real, threshold: real, ratio: real, kneeWidth: real): (r: Option<real>)
    // only a ratio of 0 in a compressing region fails
    ensures r.None? <==> ratio == 0.0 && (InKnee(inputDb - threshold, kneeWidth) || 2.0 * (inputDb - threshold) > kneeWidth)
    // below the knee, no gain change
    ensures kneeWidth >= 0.0 && 2.0 * (inputDb - threshold) < -kneeWidth ==> r == Some(0.0)
    // above the knee, the slope-1/ratio line through the threshold
    ensures kneeWidth >= 0.0 && 2.0 * (inputDb - threshold) > kneeWidth && ratio != 0.0 ==>
      r.Some? && r.value == (inputDb - threshold) * (1.0 / ratio - 1.0)
    // a 1:1 ratio never changes the gain
    ensures ratio == 1.0 ==> r == Some(0.0)
  {
    var difference := inputDb - threshold;
    if InKnee(difference, kneeWidth) then
      if ratio == 0.0 then None
      else if kneeWidth == 0.0 then Some(0.0)
      else
        var reducedDb := inputDb + (1.0 / ratio - 1.0) * KneeCurve(difference, kneeWidth);
        Some(reducedDb - inputDb)
    else if 2.0 * difference > kneeWidth then
      if ratio == 0.0 then None
      else
        var reducedDb := threshold + difference / ratio;
        assert difference / ratio == difference * (1.0 / ratio);
        assert reducedDb - inputDb == difference * (1.0 / ratio - 1.0);
        Some(reducedDb - inputDb)
    else
      var reducedDb := inputDb;
      Some(reducedDb - inputDb)
  }

  /** The correction changes nothing except the hard knee at the threshold. */
  lemma CorrectionIsLocal(inputDb: real, threshold: real, ratio: real, kneeWidth: real)
    requires !(kneeWidth == 0.0 && inputDb == threshold)
    ensures ReductionDb(inputDb, threshold, ratio, kneeWidth)
         == ReductionDbAsWritten(inputDb, threshold, ratio, kneeWidth)
  {
  }

  /** The knee's quadratic lies on or above the line `difference`:
      `(d + k/2)^2 - 2kd == (d - k/2)^2 >= 0`. */
  lemma KneeCurveAboveDiagonal(difference: real, kneeWidth: real)
    requires kneeWidth > 0.0
    ensures KneeCurve(difference, kneeWidth) >= difference
    ensures KneeCurve(difference, kneeWidth) >= 0.0
  {
    var k := kneeWidth;
    var d := difference;
    assert Square(d + k / 2.0) - 2.0 * k * d == Square(d - k / 2.0);
    assert Square(d + k / 2.0) >= 2.0 * k * d;
    assert KneeCurve(d, k) * (2.0 * k) == Square(d + k / 2.0);
  }

  /** For a ratio of at least 1 the slope factor `1/ratio - 1` lies in (-1, 0]. */
  lemma SlopeFactorNonPositive(ratio: real)
    requires ratio >= 1.0
    ensures -1.0 < 1.0 / ratio - 1.0 <= 0.0
  {
    assert 1.0 / ratio <= 1.0;
    assert 1.0 / ratio > 0.0;
  }

  /** No boost: with a ratio of at least 1 and a non-negative knee width the
      gain change is never positive, in every region. */
  lemma NoBoost(inputDb: real, threshold: real, ratio: real, kneeWidth: real)
    requires ratio >= 1.0 && kneeWidth >= 0.0
    ensures ReductionDb(inputDb, threshold, ratio, kneeWidth).Some?
    ensures ReductionDb(inputDb, threshold, ratio, kneeWidth).value <= 0.0
  {
    var d := inputDb - threshold;
    var s := 1.0 / ratio - 1.0;
    SlopeFactorNonPositive(ratio);
    if InKnee(d, kneeWidth) && kneeWidth != 0.0 {
      KneeCurveAboveDiagonal(d, kneeWidth);
      assert s * KneeCurve(d, kneeWidth) <= 0.0;
    } else if 2.0 * d > kneeWidth {
      assert d > 0.0;
      assert d * s <= 0.0;
    }
  }

  /** Inside the knee the soft curve reduces at least as much as the hard
      knee would: its gain change is at most 0 and at most the above-knee line
      `difference * (1/ratio - 1)`. */
  lemma SoftKneeBelowHardKnee(inputDb: real, threshold: real, ratio: real, kneeWidth: real)
    requires ratio >= 1.0 && kneeWidth > 0.0
    requires InKnee(inputDb - threshold, kneeWidth)
    ensures ReductionDb(inputDb, threshold, ratio, kneeWidth).Some?
    ensures ReductionDb(inputDb, threshold, ratio, kneeWidth).value <= 0.0
    ensures ReductionDb(inputDb, threshold, ratio, kneeWidth).value <= (inputDb - threshold) * (1.0 / ratio - 1.0)
  {
    var d := inputDb - threshold;
    var s := 1.0 / ratio - 1.0;
    SlopeFactorNonPositive(ratio);
    KneeCurveAboveDiagonal(d, kneeWidth);
    assert s * KneeCurve(d, kneeWidth) <= s * d by {
      assert s * (KneeCurve(d, kneeWidth) - d) <= 0.0;
    }
    assert ReductionDb(inputDb, threshold, ratio, kneeWidth).value == s * KneeCurve(d, kneeWidth);
  }

  /** The knee meets its neighbours: at its lower edge it gives no gain change,
      at its upper edge the value of the above-knee line. */
  lemma KneeEdgesContinuous(threshold: real, ratio: real, kneeWidth: real)
    requires ratio != 0.0 && kneeWidth > 0.0
    ensures ReductionDb(threshold - kneeWidth / 2.0, threshold, ratio, kneeWidth) == Some(0.0)
    ensures ReductionDb(threshold + kneeWidth / 2.0, threshold, ratio, kneeWidth).Some?
    ensures ReductionDb(threshold + kneeWidth / 2.0, threshold, ratio, kneeWidth).value
         == (kneeWidth / 2.0) * (1.0 / ratio - 1.0)
  {
    var k := kneeWidth;
    assert (threshold - k / 2.0) - threshold == -k / 2.0;
    assert KneeCurve(-k / 2.0, k) == 0.0;
    assert (threshold + k / 2.0) - threshold == k / 2.0;
    assert KneeCurve(k / 2.0, k) == k / 2.0 by {
      assert Square(k / 2.0 + k / 2.0) == k * k;
      assert k * k / (2.0 * k) == k / 2.0;
    }
  }

  /** The multiplier `db_to_gain(final_db)` that `calculate_gain_reduction`
      returns for the detected linear level `averageGain`, with `final_db` as
      the source computes it. */
  function GainFactor(averageGain: real, threshold: real, ratio: real, kneeWidth: real,
                      gainToDb: real -> real, dbToGain: real -> real): (factor: Option<real>)
    // a ratio of at least 1 never amplifies, except at the hard knee's threshold
    ensures (DbToGainLaws(dbToGain) && ratio >= 1.0 && kneeWidth >= 0.0 &&
             !(kneeWidth == 0.0 && gainToDb(averageGain) == threshold)) ==>
      factor.Some? && 0.0 <= factor.value <= 1.0
    // a hard knee with the level exactly at the threshold: final_db is a 0/0, and
    // db_to_gain is not evaluated
    ensures kneeWidth == 0.0 && gainToDb(averageGain) == threshold ==> factor.None?
    // a 1:1 ratio passes the signal through, except at the hard knee's threshold
    ensures (DbToGainLaws(dbToGain) && ratio == 1.0 &&
             !(kneeWidth == 0.0 && gainToDb(averageGain) == threshold)) ==>
      factor == Some(1.0)
    // below the knee the signal passes through
    ensures (DbToGainLaws(dbToGain) && kneeWidth >= 0.0 &&
             2.0 * (gainToDb(averageGain) - threshold) < -kneeWidth) ==>
      factor == Some(1.0)
  {
    var inputDb := gainToDb(averageGain);
    var finalDb := ReductionDbAsWritten(inputDb, threshold, ratio, kneeWidth);
    var factor := if finalDb.None? then None else Some(dbToGain(finalDb.value));
    if !(kneeWidth == 0.0 && inputDb == threshold) then
      CorrectionIsLocal(inputDb, threshold, ratio, kneeWidth);
      if ratio >= 1.0 && kneeWidth >= 0.0 then
        NoBoost(inputDb, threshold, ratio, kneeWidth);
        factor
      else
        factor
    else
      factor
  }
}
