/**
 * The calibration and jump-detection state machine, as pure transitions on
 * the session state. One frame is processed at a time: while the session is
 * uncalibrated the frame is offered to the calibrator, afterwards to the
 * jump tracker.
 */
module Tracker {
  import opened Wrappers
  import opened Numeric
  import opened Pose

  /** The hips must rise this far above the baseline (normalized units) for a takeoff. */
  const TAKEOFF_THRESHOLD: real := 0.05
  /** The hips must come back within this distance of the baseline for a landing. */
  const LANDING_TOLERANCE: real := 0.05

  /**
   * The session's state.
   * - `scale`: centimetres per normalized unit (the source calls it pixels per cm);
   * - `baseline`: the resting hip height, captured once;
   * - `peak`: the largest hip rise above the baseline in the current jump;
   * - `heights`: the recorded jump heights in centimetres, oldest first.
   */
  datatype State = State(
    isCalibrated: bool,
    scale: Option<real>,
    baseline: Option<real>,
    peak: real,
    inJump: bool,
    heights: seq<real>)

  /** A frame either leads to a new state or raises Python's ZeroDivisionError. */
  datatype Outcome = Next(state: State) | ZeroDivisionError

  /** The state at program start. */
  const INITIAL: State := State(false, None, None, 0.0, false, [])

  // ---------------------------------------------------------------- calibrator

  /** Both predicates hold: the body is fully visible and the arms are held horizontally. */
  predicate IsReferencePose(f: Frame) {
    f.Some? && IsFullBodyVisible(f.value) && AreArmsHorizontal(f.value)
  }

  /**
   * The vertical distance from the nose to the heel with the smaller y (the
   * one higher in the image), in normalized units. It is zero exactly when
   * the nose is level with that heel.
   */
  function HeightInPixels(p: Landmarks): (h: real)
    ensures h >= 0.0
    ensures h == Abs(p[NOSE].y - p[LEFT_HEEL].y) || h == Abs(p[NOSE].y - p[RIGHT_HEEL].y)
    ensures h == 0.0 <==>
      (p[NOSE].y == p[LEFT_HEEL].y && p[LEFT_HEEL].y <= p[RIGHT_HEEL].y) ||
      (p[NOSE].y == p[RIGHT_HEEL].y && p[RIGHT_HEEL].y <= p[LEFT_HEEL].y)
  {
    Abs(p[NOSE].y - Min(p[LEFT_HEEL].y, p[RIGHT_HEEL].y))
  }

  /**
   * `calibrate_height`: on a reference pose, sets the scale to the user's
   * height over the measured extent and marks the session calibrated.
   */
  function CalibrateStep(s: State, f: Frame, userHeightCm: real): Outcome
  {
    if IsReferencePose(f) then
      var h := HeightInPixels(f.value);
      if h == 0.0 then ZeroDivisionError
      else Next(s.(scale := Some(userHeightCm / h), isCalibrated := true))
    else
      Next(s)
  }

  // -------------------------------------------------------------- jump tracker

  /** The mean vertical position of the two hips. */
  function AvgHipY(p: Landmarks): (y: real)
    ensures Min(p[LEFT_HIP].y, p[RIGHT_HIP].y) <= y <= Max(p[LEFT_HIP].y, p[RIGHT_HIP].y)
  {
    (p[LEFT_HIP].y + p[RIGHT_HIP].y) / 2.0
  }

  /** The baseline in force for this frame: the stored one, or this frame's hip height if none. */
  function BaselineFor(s: State, p: Landmarks): real {
    if s.baseline.None? then AvgHipY(p) else s.baseline.value
  }

  /** The hips are more than the takeoff threshold above the baseline. */
  predicate TakesOff(s: State, p: Landmarks) {
    !s.inJump && AvgHipY(p) < BaselineFor(s, p) - TAKEOFF_THRESHOLD
  }

  /** In a jump after the takeoff test of this frame. */
  predicate Airborne(s: State, p: Landmarks) {
    s.inJump || TakesOff(s, p)
  }

  /** The peak after this frame's displacement has been taken into account. */
  function PeakFor(s: State, p: Landmarks): real {
    if Airborne(s, p) then Max(s.peak, BaselineFor(s, p) - AvgHipY(p)) else s.peak
  }

  /** In a jump and the hips are back within the landing tolerance of the baseline. */
  predicate Lands(s: State, p: Landmarks) {
    Airborne(s, p) && Abs(AvgHipY(p) - BaselineFor(s, p)) < LANDING_TOLERANCE
  }

  /**
   * `round(peak * scale, 1) if scale else 0`: a displacement in centimetres,
   * or 0 when there is no scale (Python treats `None` and `0.0` as false).
   */
  function HeightCm(peak: real, scale: Option<real>): (cm: real)
    ensures scale.None? ==> cm == 0.0
    ensures peak == 0.0 ==> cm == 0.0
    ensures peak >= 0.0 && (scale.None? || scale.value >= 0.0) ==> cm >= 0.0
    ensures scale.Some? && scale.value != 0.0 ==> Abs(cm - peak * scale.value) <= 0.05
  {
    if scale.Some? && scale.value != 0.0 then
      assert peak == 0.0 ==> peak * scale.value == 0.0;
      Round1(peak * scale.value)
    else 0.0
  }

  /** The current jump height shown on screen. */
  function DisplayedHeight(s: State): real {
    HeightCm(s.peak, s.scale)
  }

  /**
   * The state part of `detect_jump`: a frame without landmarks changes
   * nothing; otherwise the baseline is captured if missing, the takeoff test
   * runs, the peak is updated while in a jump and a landing records the
   * height and resets the peak.
   */
  function DetectStep(s: State, f: Frame): State {
    match f
    case None => s
    case Some(p) =>
      var s1 := s.(baseline := Some(BaselineFor(s, p)), inJump := Airborne(s, p), peak := PeakFor(s, p));
      if Lands(s, p) then
        s1.(inJump := false, heights := s.heights + [HeightCm(s1.peak, s.scale)], peak := 0.0)
      else
        s1
  }

  // ----------------------------------------------------------------- main loop

  /** One pass of the main loop: calibrate while uncalibrated, otherwise track jumps. */
  function FrameStep(s: State, f: Frame, userHeightCm: real): Outcome {
    if !s.isCalibrated then CalibrateStep(s, f, userHeightCm) else Next(DetectStep(s, f))
  }

  /** The main loop over a sequence of frames; the first error ends it. */
  function Run(s: State, frames: seq<Frame>, userHeightCm: real): Outcome
    decreases |frames|
  {
    if frames == [] then Next(s)
    else
      match Run(s, frames[..|frames| - 1], userHeightCm)
      case ZeroDivisionError => ZeroDivisionError
      case Next(t) => FrameStep(t, frames[|frames| - 1], userHeightCm)
  }

  // ---------------------------------------------------------------- invariants

  /**
   * What holds of every state the main loop reaches: the flag and the scale
   * are set together and the scale is positive; the peak is non-negative,
   * zero outside a jump and above the takeoff threshold inside one; every
   * recorded height is non-negative.
   */
  predicate Inv(s: State) {
    (s.isCalibrated <==> s.scale.Some?) &&
    (s.scale.Some? ==> s.scale.value > 0.0) &&
    s.peak >= 0.0 &&
    (!s.inJump ==> s.peak == 0.0) &&
    (s.inJump ==> s.baseline.Some? && s.peak > TAKEOFF_THRESHOLD) &&
    (forall i :: 0 <= i < |s.heights| ==> s.heights[i] >= 0.0)
  }

  /** Before calibration the tracker has not run: no baseline, no jump, no history. */
  predicate Pristine(s: State) {
    !s.isCalibrated ==> s.baseline.None? && !s.inJump && s.peak == 0.0 && s.heights == []
  }
}
