/**
 * One frame's pose observation and the two landmark predicates that gate
 * calibration: full-body visibility and the arms-horizontal reference pose.
 */
module Pose {
  import opened Wrappers
  import opened Numeric

  /** A body point in normalized image coordinates (0 = top, 1 = bottom) with a confidence score. */
  datatype Landmark = Landmark(x: real, y: real, visibility: real)

  /** The pose model reports a fixed list of 33 landmarks, addressed by index. */
  const LANDMARK_COUNT: nat := 33

  type LandmarkId = i: nat | i < LANDMARK_COUNT

  const NOSE: LandmarkId := 0
  const LEFT_SHOULDER: LandmarkId := 11
  const RIGHT_SHOULDER: LandmarkId := 12
  const LEFT_ELBOW: LandmarkId := 13
  const RIGHT_ELBOW: LandmarkId := 14
  const LEFT_HIP: LandmarkId := 23
  const RIGHT_HIP: LandmarkId := 24
  const LEFT_HEEL: LandmarkId := 29
  const RIGHT_HEEL: LandmarkId := 30

  /** The landmark list of a detected body. */
  type Landmarks = s: seq<Landmark> | |s| == LANDMARK_COUNT
    witness seq(LANDMARK_COUNT, _ => Landmark(0.0, 0.0, 0.0))

  /** What the pose estimator yields for one frame: `None` when no body was detected. */
  type Frame = Option<Landmarks>

  const VISIBILITY_THRESHOLD: real := 0.5
  const ARM_TOLERANCE: real := 0.05

  /** The landmarks that must be visible, in the order `IsFullBodyVisible` visits them. */
  const NECESSARY_LANDMARKS: seq<LandmarkId> :=
    [NOSE, LEFT_HEEL, RIGHT_HEEL, LEFT_HIP, RIGHT_HIP,
     LEFT_SHOULDER, RIGHT_SHOULDER, LEFT_ELBOW, RIGHT_ELBOW]

  predicate IsVisible(p: Landmarks, id: LandmarkId) {
    p[id].visibility > VISIBILITY_THRESHOLD
  }

  /** `all(... for landmark in ids)`: every listed landmark is visible. */
  function AllVisible(p: Landmarks, ids: seq<LandmarkId>): (b: bool)
    ensures b <==> forall k :: 0 <= k < |ids| ==> IsVisible(p, ids[k])
  {
    |ids| == 0 || (IsVisible(p, ids[0]) && AllVisible(p, ids[1..]))
  }

  /** True exactly when each of the nine necessary landmarks has visibility above 0.5. */
  function IsFullBodyVisible(p: Landmarks): (b: bool)
    ensures b <==>
      p[NOSE].visibility > 0.5 &&
      p[LEFT_HEEL].visibility > 0.5 && p[RIGHT_HEEL].visibility > 0.5 &&
      p[LEFT_HIP].visibility > 0.5 && p[RIGHT_HIP].visibility > 0.5 &&
      p[LEFT_SHOULDER].visibility > 0.5 && p[RIGHT_SHOULDER].visibility > 0.5 &&
      p[LEFT_ELBOW].visibility > 0.5 && p[RIGHT_ELBOW].visibility > 0.5
  {
    var b := AllVisible(p, NECESSARY_LANDMARKS);
    ghost var ids := NECESSARY_LANDMARKS;
    assert b <==>
      IsVisible(p, ids[0]) && IsVisible(p, ids[1]) && IsVisible(p, ids[2]) &&
      IsVisible(p, ids[3]) && IsVisible(p, ids[4]) && IsVisible(p, ids[5]) &&
      IsVisible(p, ids[6]) && IsVisible(p, ids[7]) && IsVisible(p, ids[8]);
    b
  }

  /**
   * True exactly when, on each side separately, shoulder and elbow lie
   * strictly less than 0.05 apart vertically.
   */
  function AreArmsHorizontal(p: Landmarks): (b: bool)
    ensures b <==>
      -0.05 < p[LEFT_SHOULDER].y - p[LEFT_ELBOW].y < 0.05 &&
      -0.05 < p[RIGHT_SHOULDER].y - p[RIGHT_ELBOW].y < 0.05
  {
    Abs(p[LEFT_SHOULDER].y - p[LEFT_ELBOW].y) < ARM_TOLERANCE &&
    Abs(p[RIGHT_SHOULDER].y - p[RIGHT_ELBOW].y) < ARM_TOLERANCE
  }

  /** The tolerance is strict: a gap of exactly 0.05 on either side rejects the pose. */
  lemma ArmGapAtToleranceRejected(p: Landmarks)
    requires Abs(p[LEFT_SHOULDER].y - p[LEFT_ELBOW].y) == ARM_TOLERANCE
          || Abs(p[RIGHT_SHOULDER].y - p[RIGHT_ELBOW].y) == ARM_TOLERANCE
    ensures !AreArmsHorizontal(p)
  {
  }

  /** Any necessary landmark at visibility 0.5 or below makes the body not fully visible. */
  lemma LowVisibilityRejected(p: Landmarks, k: nat)
    requires k < |NECESSARY_LANDMARKS|
    requires p[NECESSARY_LANDMARKS[k]].visibility <= VISIBILITY_THRESHOLD
    ensures !IsFullBodyVisible(p)
  {
    assert !IsVisible(p, NECESSARY_LANDMARKS[k]);
  }
}
