/**
 * Properties of the calibration and jump-detection transitions: what one
 * frame may change, the invariant every reachable state keeps, and what
 * holds along a whole run of the main loop.
 */
module TrackerProofs {
  import opened Wrappers
  import opened Numeric
  import opened Pose
  import opened Tracker

  // ---------------------------------------------------------------- calibrator

  /**
   * Calibration touches only the flag and the scale, changes them only on a
   * reference pose, and then the scale times the measured extent is the
   * user's height; a zero extent is the only way it fails.
   */
  lemma CalibrateEffect(s: State, f: Frame, userHeightCm: real)
    ensures CalibrateStep(s, f, userHeightCm).ZeroDivisionError? <==>
      IsReferencePose(f) && HeightInPixels(f.value) == 0.0
    ensures CalibrateStep(s, f, userHeightCm).Next? ==>
      var t := CalibrateStep(s, f, userHeightCm).state;
      t.baseline == s.baseline && t.peak == s.peak && t.inJump == s.inJump && t.heights == s.heights &&
      (t == s || IsReferencePose(f)) &&
      (IsReferencePose(f) ==>
         t.isCalibrated && t.scale.Some? && t.scale.value * HeightInPixels(f.value) == userHeightCm)
  {
    if IsReferencePose(f) && HeightInPixels(f.value) != 0.0 {
      var h := HeightInPixels(f.value);
      assert userHeightCm / h * h == userHeightCm;
    }
  }

  /** With a positive user height, a scale set by calibration is positive. */
  lemma CalibratedScalePositive(s: State, f: Frame, userHeightCm: real)
    requires userHeightCm > 0.0
    requires IsReferencePose(f)
    requires CalibrateStep(s, f, userHeightCm).Next?
    ensures CalibrateStep(s, f, userHeightCm).state.scale.Some?
    ensures CalibrateStep(s, f, userHeightCm).state.scale.value > 0.0
  {
    var h := HeightInPixels(f.value);
    assert h > 0.0;
    assert userHeightCm / h > 0.0;
  }

  /** Once calibrated, a frame never recalibrates: the scale stays as it was and no error is raised. */
  lemma ScaleFrozen(s: State, f: Frame, userHeightCm: real)
    requires s.isCalibrated
    ensures FrameStep(s, f, userHeightCm).Next?
    ensures FrameStep(s, f, userHeightCm).state.isCalibrated
    ensures FrameStep(s, f, userHeightCm).state.scale == s.scale
  {
  }

  /** Calibration happens at most once: along any run from a calibrated state the scale never changes. */
  lemma {:induction false} ScaleFrozenRun(s: State, frames: seq<Frame>, userHeightCm: real)
    requires s.isCalibrated
    ensures Run(s, frames, userHeightCm).Next?
    ensures Run(s, frames, userHeightCm).state.isCalibrated
    ensures Run(s, frames, userHeightCm).state.scale == s.scale
    decreases |frames|
  {
    if frames != [] {
      ScaleFrozenRun(s, frames[..|frames| - 1], userHeightCm);
      ScaleFrozen(Run(s, frames[..|frames| - 1], userHeightCm).state, frames[|frames| - 1], userHeightCm);
    }
  }

  // -------------------------------------------------------------- jump tracker

  /** A frame without landmarks changes nothing, calibrated or not. */
  lemma MissingFrameChangesNothing(s: State, userHeightCm: real)
    ensures DetectStep(s, None) == s
    ensures FrameStep(s, None, userHeightCm) == Next(s)
  {
  }

  /**
   * The baseline is captured from the first frame with landmarks that reaches
   * the tracker and is never changed afterwards.
   */
  lemma BaselineCapturedOnce(s: State, f: Frame)
    ensures s.baseline.Some? ==> DetectStep(s, f).baseline == s.baseline
    ensures s.baseline.None? && f.Some? ==> DetectStep(s, f).baseline == Some(AvgHipY(f.value))
    ensures s.baseline.None? && f.None? ==> DetectStep(s, f).baseline.None?
  {
  }

  /** Along any run, a baseline once captured stays. */
  lemma {:induction false} BaselineFrozenRun(s: State, frames: seq<Frame>, userHeightCm: real)
    requires s.baseline.Some?
    ensures Run(s, frames, userHeightCm).Next? ==> Run(s, frames, userHeightCm).state.baseline == s.baseline
    decreases |frames|
  {
    if frames != [] {
      BaselineFrozenRun(s, frames[..|frames| - 1], userHeightCm);
      var prev := Run(s, frames[..|frames| - 1], userHeightCm);
      if prev.Next? {
        BaselineCapturedOnce(prev.state, frames[|frames| - 1]);
      }
    }
  }

  /**
   * Takeoff happens only from outside a jump, exactly when the hips are more
   * than the threshold above the baseline, and a frame outside a jump never
   * records a height: takeoff and landing cannot share a frame.
   */
  lemma TakeoffAndLandingExclusive(s: State, p: Landmarks)
    requires !s.inJump
    ensures DetectStep(s, Some(p)).inJump <==> AvgHipY(p) < BaselineFor(s, p) - TAKEOFF_THRESHOLD
    ensures !Lands(s, p)
    ensures DetectStep(s, Some(p)).heights == s.heights
  {
    if TakesOff(s, p) {
      assert AvgHipY(p) - BaselineFor(s, p) < -LANDING_TOLERANCE;
    }
  }

  /**
   * Within a jump the peak never decreases, and after every in-jump frame it
   * covers that frame's displacement above the baseline.
   */
  lemma PeakTracksDisplacement(s: State, p: Landmarks)
    ensures Airborne(s, p) ==> PeakFor(s, p) >= s.peak
    ensures Airborne(s, p) ==> PeakFor(s, p) >= BaselineFor(s, p) - AvgHipY(p)
    ensures DetectStep(s, Some(p)).inJump ==>
      DetectStep(s, Some(p)).peak >= DetectStep(s, Some(p)).baseline.value - AvgHipY(p)
    ensures s.inJump && DetectStep(s, Some(p)).inJump ==> DetectStep(s, Some(p)).peak >= s.peak
  {
  }

  /** Inside a jump, a frame ends the jump exactly when it is a landing. */
  lemma JumpEndsOnlyAtLanding(s: State, f: Frame)
    requires s.inJump
    ensures !DetectStep(s, f).inJump <==> f.Some? && Lands(s, f.value)
  {
  }

  /**
   * On landing the jump ends, exactly one height is appended -- the peak
   * reached in the jump, scaled and rounded -- and the peak and the
   * displayed height drop to zero.
   */
  lemma LandingRecordsOnce(s: State, p: Landmarks)
    requires Inv(s)
    requires Lands(s, p)
    ensures s.inJump
    ensures !DetectStep(s, Some(p)).inJump
    ensures DetectStep(s, Some(p)).heights == s.heights + [HeightCm(s.peak, s.scale)]
    ensures DetectStep(s, Some(p)).peak == 0.0
    ensures DisplayedHeight(DetectStep(s, Some(p))) == 0.0
  {
    if !s.inJump {
      TakeoffAndLandingExclusive(s, p);
    }
    assert BaselineFor(s, p) - AvgHipY(p) < LANDING_TOLERANCE;
    assert PeakFor(s, p) == s.peak;
  }

  /** The history only grows, by exactly one entry on a landing frame and by none otherwise. */
  lemma HistoryGrowsByLandings(s: State, f: Frame)
    ensures s.heights <= DetectStep(s, f).heights
    ensures |DetectStep(s, f).heights| == |s.heights| + (if f.Some? && Lands(s, f.value) then 1 else 0)
  {
  }

  /** Without a scale the tracker never records a non-zero height. */
  lemma NoHeightWithoutScale(s: State, f: Frame)
    requires s.scale.None?
    ensures forall i :: |s.heights| <= i < |DetectStep(s, f).heights| ==> DetectStep(s, f).heights[i] == 0.0
  {
  }

  // ---------------------------------------------------------------- invariants

  lemma InitialInv()
    ensures Inv(INITIAL) && Pristine(INITIAL)
  {
  }

  /** The tracker keeps the invariant. */
  lemma DetectPreservesInv(s: State, f: Frame)
    requires Inv(s)
    ensures Inv(DetectStep(s, f))
  {
    if f.Some? {
      var p := f.value;
      if Lands(s, p) {
        LandingRecordsOnce(s, p);
        assert HeightCm(s.peak, s.scale) >= 0.0;
      } else if TakesOff(s, p) {
        assert PeakFor(s, p) >= BaselineFor(s, p) - AvgHipY(p) > TAKEOFF_THRESHOLD;
      }
    }
  }

  /** One pass of the main loop keeps the invariant, and the tracker runs only once calibrated. */
  lemma FramePreservesInv(s: State, f: Frame, userHeightCm: real)
    requires userHeightCm > 0.0
    requires Inv(s) && Pristine(s)
    ensures FrameStep(s, f, userHeightCm).Next? ==>
      Inv(FrameStep(s, f, userHeightCm).state) && Pristine(FrameStep(s, f, userHeightCm).state)
  {
    if s.isCalibrated {
      DetectPreservesInv(s, f);
    } else if IsReferencePose(f) && CalibrateStep(s, f, userHeightCm).Next? {
      CalibratedScalePositive(s, f, userHeightCm);
    }
  }

  /** Every state the main loop reaches from a good state is good. */
  lemma {:induction false} RunPreservesInv(s: State, frames: seq<Frame>, userHeightCm: real)
    requires userHeightCm > 0.0
    requires Inv(s) && Pristine(s)
    ensures Run(s, frames, userHeightCm).Next? ==>
      Inv(Run(s, frames, userHeightCm).state) && Pristine(Run(s, frames, userHeightCm).state)
    decreases |frames|
  {
    if frames != [] {
      RunPreservesInv(s, frames[..|frames| - 1], userHeightCm);
      var prev := Run(s, frames[..|frames| - 1], userHeightCm);
      if prev.Next? {
        FramePreservesInv(prev.state, frames[|frames| - 1], userHeightCm);
      }
    }
  }

  /** Along any run the history is only ever extended: recorded heights are never changed or removed. */
  lemma {:induction false} RunHistoryGrows(s: State, frames: seq<Frame>, userHeightCm: real)
    ensures Run(s, frames, userHeightCm).Next? ==> s.heights <= Run(s, frames, userHeightCm).state.heights
    decreases |frames|
  {
    if frames != [] {
      RunHistoryGrows(s, frames[..|frames| - 1], userHeightCm);
      var prev := Run(s, frames[..|frames| - 1], userHeightCm);
      if prev.Next? && prev.state.isCalibrated {
        HistoryGrowsByLandings(prev.state, frames[|frames| - 1]);
      }
    }
  }

  /** Once a run has raised, running on over more frames still ends in the error. */
  lemma {:induction false} RunErrorPersists(s: State, frames: seq<Frame>, i: nat, userHeightCm: real)
    requires i <= |frames|
    requires Run(s, frames[..i], userHeightCm).ZeroDivisionError?
    ensures Run(s, frames, userHeightCm).ZeroDivisionError?
    decreases |frames| - i
  {
    if i == |frames| {
      assert frames[..i] == frames;
    } else {
      assert frames[..i + 1][..i] == frames[..i];
      RunErrorPersists(s, frames, i + 1, userHeightCm);
    }
  }

  /**
   * A run that ends uncalibrated has changed nothing: before calibration the
   * calibrator is the only thing that runs, and it changes the state only by
   * calibrating.
   */
  lemma {:induction false} RunBeforeCalibration(s: State, frames: seq<Frame>, userHeightCm: real)
    ensures Run(s, frames, userHeightCm).Next? && !Run(s, frames, userHeightCm).state.isCalibrated ==>
      Run(s, frames, userHeightCm).state == s
    decreases |frames|
  {
    if frames != [] {
      RunBeforeCalibration(s, frames[..|frames| - 1], userHeightCm);
      var prev := Run(s, frames[..|frames| - 1], userHeightCm);
      if prev.Next? && !prev.state.isCalibrated {
        CalibrateEffect(prev.state, frames[|frames| - 1], userHeightCm);
      }
    }
  }

  /** Running over `a + b` is running over `a`, then over `b` from where `a` left off. */
  lemma {:induction false} RunAppend(s: State, a: seq<Frame>, b: seq<Frame>, userHeightCm: real)
    ensures Run(s, a + b, userHeightCm) ==
      match Run(s, a, userHeightCm)
      case ZeroDivisionError => ZeroDivisionError
      case Next(t) => Run(t, b, userHeightCm)
    decreases |b|
  {
    if b == [] {
      assert a + b == a;
    } else {
      assert (a + b)[..|a + b| - 1] == a + b[..|b| - 1];
      assert (a + b)[|a + b| - 1] == b[|b| - 1];
      RunAppend(s, a, b[..|b| - 1], userHeightCm);
    }
  }

  /**
   * Calibration happens at most once in any run: once a prefix of the frames
   * has calibrated the session, no later frame raises or changes the scale.
   */
  lemma CalibratesAtMostOnce(s: State, a: seq<Frame>, b: seq<Frame>, userHeightCm: real)
    requires Run(s, a, userHeightCm).Next? && Run(s, a, userHeightCm).state.isCalibrated
    ensures Run(s, a + b, userHeightCm).Next?
    ensures Run(s, a + b, userHeightCm).state.isCalibrated
    ensures Run(s, a + b, userHeightCm).state.scale == Run(s, a, userHeightCm).state.scale
  {
    RunAppend(s, a, b, userHeightCm);
    ScaleFrozenRun(Run(s, a, userHeightCm).state, b, userHeightCm);
  }
}
