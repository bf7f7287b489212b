/**
 * Worked examples: a calibration from a reference pose and one complete
 * jump, followed frame by frame.
 */
module Scenarios {
  import opened Wrappers
  import opened Pose
  import opened Tracker

  /** A fully visible body with every landmark at height `y`. */
  function Standing(y: real): Landmarks {
    seq(LANDMARK_COUNT, _ => Landmark(0.5, y, 1.0))
  }

  /** A fully visible reference pose: nose at 0.10, both heels at 0.90, arms level at 0.30. */
  function ReferencePose(): Landmarks {
    seq(LANDMARK_COUNT, i =>
      Landmark(0.5, if i == NOSE then 0.10 else if i == LEFT_HEEL || i == RIGHT_HEEL then 0.90 else 0.30, 1.0))
  }

  /** A 183 cm user spanning 0.80 normalized units gives a scale of 228.75 cm per unit. */
  lemma CalibrationExample()
    ensures IsReferencePose(Some(ReferencePose()))
    ensures HeightInPixels(ReferencePose()) == 0.80
    ensures FrameStep(INITIAL, Some(ReferencePose()), 183.0) ==
      Next(INITIAL.(isCalibrated := true, scale := Some(228.75)))
  {
    var p := ReferencePose();
    assert p[NOSE].y == 0.10 && p[LEFT_HEEL].y == 0.90 && p[RIGHT_HEEL].y == 0.90;
  }

  /**
   * Hips at 0.50, 0.40, 0.35, 0.40, 0.49 after calibration: the baseline is
   * 0.50, takeoff comes at the second frame, the peak reaches 0.15 at the
   * third, and the fifth frame lands and records the scaled peak.
   */
  lemma JumpExample()
    ensures
      var s0 := INITIAL.(isCalibrated := true, scale := Some(228.75));
      var s1 := DetectStep(s0, Some(Standing(0.50)));
      var s2 := DetectStep(s1, Some(Standing(0.40)));
      var s3 := DetectStep(s2, Some(Standing(0.35)));
      var s4 := DetectStep(s3, Some(Standing(0.40)));
      var s5 := DetectStep(s4, Some(Standing(0.49)));
      s1.baseline == Some(0.50) && !s1.inJump &&
      s2.inJump && s2.peak == 0.10 &&
      s3.inJump && s3.peak == 0.15 &&
      s4.inJump && s4.peak == 0.15 &&
      !s5.inJump && s5.peak == 0.0 && s5.baseline == Some(0.50) &&
      s5.heights == [HeightCm(0.15, Some(228.75))]
  {
    assert Standing(0.50)[LEFT_HIP].y == 0.50 && Standing(0.50)[RIGHT_HIP].y == 0.50;
    assert Standing(0.40)[LEFT_HIP].y == 0.40 && Standing(0.40)[RIGHT_HIP].y == 0.40;
    assert Standing(0.35)[LEFT_HIP].y == 0.35 && Standing(0.35)[RIGHT_HIP].y == 0.35;
    assert Standing(0.49)[LEFT_HIP].y == 0.49 && Standing(0.49)[RIGHT_HIP].y == 0.49;
  }
}
