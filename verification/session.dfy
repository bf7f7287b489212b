/**
 * The session object: the module-level variables of the tracker as fields,
 * updated in place one frame at a time by the calibrate-or-detect step of
 * the main loop. Each method is proved to perform exactly the transition
 * that the pure functions of `Tracker` describe.
 */
module Session {
  import opened Wrappers
  import opened Numeric
  import opened Pose
  import opened Tracker
  import opened History
  import TrackerProofs

  /** What one pass of the main loop hands to the display. */
  datatype Report =
    | CalibrationPrompt
    | Tracking(jumpState: Option<bool>, heightCm: real, topJumps: seq<real>)
    | DivisionByZero

  class JumpSession {
    /** The user's real height in centimetres. */
    const userHeightCm: real
    /** Whether each recorded height is also appended to the heights file. */
    const saveHeights: bool

    var isCalibrated: bool
    /** Centimetres per normalized unit, despite the name. */
    var pixelsPerCm: Option<real>
    var jumpStartPosition: Option<real>
    var maxJumpHeightPixels: real
    var inJump: bool
    var jumpHeights: seq<real>
    /** The heights appended to the heights file during this session. */
    ghost var savedHeights: seq<real>

    /** The abstract state held by the fields. */
    function Snapshot(): State
      reads this
    {
      State(isCalibrated, pixelsPerCm, jumpStartPosition, maxJumpHeightPixels, inJump, jumpHeights)
    }

    ghost predicate Valid()
      reads this
    {
      userHeightCm > 0.0 && Inv(Snapshot()) &&
      savedHeights == (if saveHeights then jumpHeights else [])
    }

    constructor (userHeightCm: real, saveHeights: bool)
      requires userHeightCm > 0.0
      ensures Valid() && Pristine(Snapshot())
      ensures Snapshot() == INITIAL && savedHeights == []
      ensures this.userHeightCm == userHeightCm && this.saveHeights == saveHeights
    {
      this.userHeightCm := userHeightCm;
      this.saveHeights := saveHeights;
      isCalibrated := false;
      pixelsPerCm := None;
      jumpStartPosition := None;
      maxJumpHeightPixels := 0.0;
      inJump := false;
      jumpHeights := [];
      savedHeights := [];
    }

    /** `calibrate_height`; `raised` reports the division by a zero extent. */
    method CalibrateHeight(frame: Frame) returns (raised: bool)
      requires Valid()
      modifies this
      ensures Valid()
      ensures raised == CalibrateStep(old(Snapshot()), frame, userHeightCm).ZeroDivisionError?
      ensures raised ==> Snapshot() == old(Snapshot())
      ensures !raised ==> Snapshot() == CalibrateStep(old(Snapshot()), frame, userHeightCm).state
      ensures savedHeights == old(savedHeights)
    {
      if frame.Some? && IsFullBodyVisible(frame.value) && AreArmsHorizontal(frame.value) {
        var p := frame.value;
        var headY := p[NOSE].y;
        var footY := Min(p[LEFT_HEEL].y, p[RIGHT_HEEL].y);
        var heightInPixels := Abs(headY - footY);
        if heightInPixels == 0.0 {
          return true;
        }
        TrackerProofs.CalibratedScalePositive(Snapshot(), frame, userHeightCm);
        pixelsPerCm := Some(userHeightCm / heightInPixels);
        isCalibrated := true;
      }
      return false;
    }

    /**
     * The state part of `detect_jump`. Returns the jump state shown when
     * landmarks are present and the current jump height shown every frame.
     */
    method DetectJump(frame: Frame) returns (jumpState: Option<bool>, heightCm: real)
      requires Valid()
      modifies this
      ensures Valid()
      ensures Snapshot() == DetectStep(old(Snapshot()), frame)
      ensures jumpState == if frame.Some? then Some(inJump) else None
      ensures heightCm == DisplayedHeight(Snapshot())
    {
      ghost var before := Snapshot();
      TrackerProofs.DetectPreservesInv(before, frame);
      jumpState := None;
      if frame.Some? {
        var p := frame.value;
        var leftHipY := p[LEFT_HIP].y;
        var rightHipY := p[RIGHT_HIP].y;
        var avgHipY := (leftHipY + rightHipY) / 2.0;
        if jumpStartPosition.None? {
          jumpStartPosition := Some(avgHipY);
        }
        var start := jumpStartPosition.value;
        if !inJump && avgHipY < start - TAKEOFF_THRESHOLD {
          inJump := true;
        }
        if inJump {
          var jumpHeightPixels := start - avgHipY;
          maxJumpHeightPixels := Max(maxJumpHeightPixels, jumpHeightPixels);
        }
        if inJump && Abs(avgHipY - start) < LANDING_TOLERANCE {
          inJump := false;
          var maxJumpHeightCm := HeightCm(maxJumpHeightPixels, pixelsPerCm);
          jumpHeights := jumpHeights + [maxJumpHeightCm];
          if saveHeights {
            savedHeights := savedHeights + [maxJumpHeightCm];
          }
          maxJumpHeightPixels := 0.0;
        }
        jumpState := Some(inJump);
      }
      heightCm := HeightCm(maxJumpHeightPixels, pixelsPerCm);
    }

    /** One pass of the main loop: calibrate while uncalibrated, otherwise detect and rank. */
    method Step(frame: Frame) returns (report: Report)
      requires Valid() && Pristine(Snapshot())
      modifies this
      ensures Valid() && Pristine(Snapshot())
      ensures FrameStep(old(Snapshot()), frame, userHeightCm).ZeroDivisionError? ==>
        report == DivisionByZero && Snapshot() == old(Snapshot())
      ensures FrameStep(old(Snapshot()), frame, userHeightCm).Next? ==>
        Snapshot() == FrameStep(old(Snapshot()), frame, userHeightCm).state
      ensures !old(isCalibrated) && FrameStep(old(Snapshot()), frame, userHeightCm).Next? ==>
        report == CalibrationPrompt
      ensures old(isCalibrated) ==>
        report == Tracking(if frame.Some? then Some(inJump) else None,
                           DisplayedHeight(Snapshot()), TopJumps(jumpHeights))
    {
      if !isCalibrated {
        var raised := CalibrateHeight(frame);
        report := if raised then DivisionByZero else CalibrationPrompt;
      } else {
        var jumpState, heightCm := DetectJump(frame);
        report := Tracking(jumpState, heightCm, TopJumps(jumpHeights));
      }
    }

    /**
     * The main loop over a finite sequence of frames; a division by zero
     * ends it, as the uncaught exception ends the program.
     */
    method ProcessFrames(frames: seq<Frame>) returns (raised: bool)
      requires Valid() && Pristine(Snapshot())
      modifies this
      ensures Valid() && Pristine(Snapshot())
      ensures raised == Run(old(Snapshot()), frames, userHeightCm).ZeroDivisionError?
      ensures !raised ==> Snapshot() == Run(old(Snapshot()), frames, userHeightCm).state
      ensures raised ==> Snapshot() == old(Snapshot()) && savedHeights == old(savedHeights)
    {
      ghost var start := Snapshot();
      var i := 0;
      while i < |frames|
        invariant 0 <= i <= |frames|
        invariant Valid() && Pristine(Snapshot())
        invariant Run(start, frames[..i], userHeightCm) == Next(Snapshot())
      {
        assert frames[..i + 1][..i] == frames[..i];
        var report := Step(frames[i]);
        if report == DivisionByZero {
          TrackerProofs.RunErrorPersists(start, frames, i + 1, userHeightCm);
          TrackerProofs.RunBeforeCalibration(start, frames[..i], userHeightCm);
          return true;
        }
        i := i + 1;
      }
      assert frames[..i] == frames;
      return false;
    }
  }
}
