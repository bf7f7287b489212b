# Jump height tracker: calibration and jump detection

This project models the core of a webcam jump-height tracker. Each video frame gives
a pose: 33 body landmarks, each with a normalized position (0 = top of the image,
1 = bottom) and a visibility score, or nothing if no body was detected. The core has
four parts:

- **Landmark filter** (`Pose`). Two predicates over one pose: full-body visibility
  (nine landmarks with visibility above 0.5) and "arms horizontal" (shoulder and
  elbow less than 0.05 apart vertically, on each side).
- **Calibrator** (`Tracker.CalibrateStep`). On a reference pose (both predicates hold)
  it sets the scale to the user's height divided by the vertical extent from the nose
  to the higher heel, and marks the session calibrated. The source calls this scale
  `pixels_per_cm`, but it is really centimetres per normalized unit.
- **Jump tracker** (`Tracker.DetectStep`). It captures the hip baseline once. Takeoff
  happens when the mean hip height rises more than 0.05 above the baseline. While in
  the air it tracks the peak rise. On landing (hips back within 0.05 of the baseline)
  it records the peak, scaled and rounded to 0.1 cm, and resets the peak.
- **History** (`History.TopJumps`). The three highest recorded jumps, highest first.

`Tracker.FrameStep` is one pass of the main loop: calibrate while uncalibrated,
otherwise track. `Tracker.Run` folds it over a sequence of frames.
`Session.JumpSession` holds the program's module-level variables as fields. Its
methods `CalibrateHeight`, `DetectJump`, `Step` and `ProcessFrames` update those
fields in place, and each is proved to perform exactly the matching pure transition.

Modelling choices:

- Coordinates, scale and heights are `real`.
- Python's `round(x, 1)` is `Numeric.Round1`: the nearest tenth, halves rounded up,
  on exact reals. Every property proved uses only its bounds: it moves `x` by at most
  0.05, it maps 0 to 0, and it keeps non-negative values non-negative.
- The user's height (183 cm in the source) and the save-to-file flag are the
  session's constructor parameters. The takeoff and landing thresholds are module
  constants of 0.05.
- `if pixels_per_cm` follows Python truthiness: no scale, or a scale of `0.0`, gives a
  height of 0.
- The heights file is the ghost field `savedHeights`. It receives exactly the values
  appended to `jumpHeights` when saving is on.

Where the code behaves differently than a reader might expect, the model follows the code:

- **Zero extent.** A zero extent is not silently skipped. A reference pose whose nose
  is level with the higher heel makes jump.py:63 divide by zero. Python raises
  `ZeroDivisionError`, and since nothing catches it the program ends. The model returns
  `Outcome.ZeroDivisionError` and leaves the state unchanged. `ProcessFrames` stops at
  that frame.
- **Missing landmarks.** A landmark cannot be missing: the code indexes a 33-entry
  landmark list, so the pose type always has 33 entries.
- **Which heel.** The extent uses `min` of the two heel heights. That picks the heel
  with the smaller y, which is the higher one in the image.
- **No visibility check in tracking.** `detect_jump` only needs landmarks to be
  present. It never checks visibility (jump.py:69).
- **Fixed baseline.** The baseline is captured once and never re-estimated
  (jump.py:74-75). The model keeps this.

## Model

| member | source | states |
|---|---|---|
| Pose.AllVisible | jump.py:43 | `all(...)` over a landmark list holds iff every listed landmark has visibility above 0.5 |
| Pose.IsFullBodyVisible | jump.py:28-43 | true iff nose, both heels, both hips, both shoulders and both elbows each have visibility strictly above 0.5 |
| Pose.LowVisibilityRejected | jump.py:43 | any necessary landmark at visibility 0.5 or below makes the full-body check false |
| Pose.AreArmsHorizontal | jump.py:45-54 | true iff on both the left and the right side the shoulder-elbow vertical gap lies strictly between -0.05 and 0.05 |
| Pose.ArmGapAtToleranceRejected | jump.py:54 | a gap of exactly 0.05 on either side rejects the pose (strict comparison) |
| Tracker.HeightInPixels | jump.py:59-62 | the extent is non-negative, is the nose's distance to one of the heels, and is zero exactly when the nose is level with the higher heel |
| Tracker.AvgHipY | jump.py:70-72 | the hip signal lies between the two hip heights |
| Tracker.HeightCm | jump.py:89 | the recorded height is 0 without a scale or with a zero peak, is non-negative for a non-negative peak and scale, and is within 0.05 of peak times scale |
| Numeric.Round1 | jump.py:89 | rounding to one decimal moves a value by at most 0.05, keeps 0 at 0 and keeps non-negative values non-negative |
| TrackerProofs.CalibrateEffect | jump.py:56-64 | calibration fails only on a reference pose with zero extent; otherwise it changes only the flag and the scale, changes them only on a reference pose, and then scale times extent equals the user's height |
| TrackerProofs.CalibratedScalePositive | jump.py:62-63 | a scale set from a positive user height is positive |
| TrackerProofs.ScaleFrozen | jump.py:122-134 | once calibrated, a frame never recalibrates or raises, and the scale stays the same |
| TrackerProofs.ScaleFrozenRun | jump.py:111-134 | along any run from a calibrated state the flag stays set and the scale never changes: calibration happens at most once |
| TrackerProofs.RunAppend | jump.py:111-134 | running the loop over `a + b` equals running over `a` and then over `b` from the state `a` reached, and an error in `a` is the result |
| TrackerProofs.CalibratesAtMostOnce | jump.py:122-134 | in any run, once a prefix of the frames has calibrated the session, the rest of the frames never raise, never clear the flag and never change the scale |
| TrackerProofs.MissingFrameChangesNothing | jump.py:69 | a frame without landmarks leaves the whole state unchanged, both in tracking and in a full main-loop pass |
| TrackerProofs.BaselineCapturedOnce | jump.py:74-75 | the baseline is taken from the first frame with landmarks and kept afterwards |
| TrackerProofs.BaselineFrozenRun | jump.py:74-75 | along any run a captured baseline never changes |
| TrackerProofs.TakeoffAndLandingExclusive | jump.py:78-87 | from outside a jump, the tracker enters a jump iff the hips are more than 0.05 above the baseline, never lands in the same frame and records nothing |
| TrackerProofs.JumpEndsOnlyAtLanding | jump.py:87-88 | inside a jump, a frame ends the jump if and only if it has landmarks and is a landing: the hips are back within 0.05 of the baseline |
| TrackerProofs.PeakTracksDisplacement | jump.py:82-84 | in a jump the peak never decreases, and after every in-jump frame it is at least that frame's rise above the baseline |
| TrackerProofs.LandingRecordsOnce | jump.py:87-93 | a landing happens only in a jump; it ends the jump, appends exactly one height (the jump's peak, scaled and rounded), resets the peak, and the displayed height is 0 |
| TrackerProofs.HistoryGrowsByLandings | jump.py:87-90 | the history is only extended, by exactly one entry on a landing frame and none otherwise |
| TrackerProofs.NoHeightWithoutScale | jump.py:89 | without a scale every height recorded is 0 |
| TrackerProofs.InitialInv | jump.py:12-18 | the initial globals satisfy the invariant and the tracker has not yet run |
| TrackerProofs.DetectPreservesInv | jump.py:69-93 | the tracker keeps the invariant: a positive scale set together with the flag, peak non-negative, zero outside a jump and above 0.05 inside one, heights non-negative |
| TrackerProofs.FramePreservesInv | jump.py:122-134 | one main-loop pass keeps the invariant, and nothing is tracked or recorded before calibration |
| TrackerProofs.RunPreservesInv | jump.py:111-134 | every state a run reaches from a good state is good |
| TrackerProofs.RunHistoryGrows | jump.py:90 | along any run recorded heights are never changed or removed |
| TrackerProofs.RunErrorPersists | jump.py:63 | once a run has raised, it ends in the error whatever frames follow |
| Tracker.CalibrateStep | jump.py:56-64 | `calibrate_height` as a transition; no contract of its own: TrackerProofs.CalibrateEffect and TrackerProofs.CalibratedScalePositive state its effect |
| Tracker.DetectStep | jump.py:69-93 | the state part of `detect_jump` as a transition; no contract of its own: TrackerProofs.BaselineCapturedOnce, TakeoffAndLandingExclusive, JumpEndsOnlyAtLanding, PeakTracksDisplacement, LandingRecordsOnce, HistoryGrowsByLandings and DetectPreservesInv state its effect |
| Tracker.FrameStep | jump.py:122-134 | one calibrate-or-detect pass; no contract of its own: TrackerProofs.ScaleFrozen, MissingFrameChangesNothing and FramePreservesInv state its effect |
| Tracker.Run | jump.py:111-134 | the main loop over a frame sequence, ending at the first error; no contract of its own: TrackerProofs.ScaleFrozenRun, CalibratesAtMostOnce, RunAppend, BaselineFrozenRun, RunPreservesInv, RunHistoryGrows, RunErrorPersists and RunBeforeCalibration state its properties |
| Tracker.DisplayedHeight | jump.py:101 | the displayed height is HeightCm of the current peak; no contract of its own: Tracker.HeightCm bounds it and TrackerProofs.LandingRecordsOnce shows it is 0 right after landing |
| TrackerProofs.RunBeforeCalibration | jump.py:122-125 | a run that ends uncalibrated leaves the state exactly as it started, since only the calibrator runs and it changes the state only by calibrating |
| History.SortDescending | jump.py:136 | `sorted(h, reverse=True)`; its contract gives the length, and History.SortDescendingCorrect states that it is a non-increasing permutation of h |
| History.Top | jump.py:136 | `sorted(h, reverse=True)[:n]`; no contract of its own: History.TopKeepsLargest states its full specification |
| History.InsertPermutes | jump.py:136 | inserting adds exactly the new element |
| History.InsertSorted | jump.py:136 | inserting into a non-increasing sequence keeps it non-increasing |
| History.SortDescendingCorrect | jump.py:136 | `sorted(..., reverse=True)` yields a non-increasing permutation of the history |
| History.PrefixOfSortedIsLargest | jump.py:136 | cutting a non-increasing sequence leaves out only elements no larger than any kept |
| History.TopKeepsLargest | jump.py:136 | `sorted(h, reverse=True)[:n]` has min(n, \|h\|) elements in non-increasing order, drawn from h, and every left-out height is at most every kept one |
| History.TopJumps | jump.py:136 | the top-3 query returns the min(3, \|history\|) largest heights, highest first, drawn from the history |
| History.TopJumpsExample | jump.py:136 | history [10.2, 34.3, 5.0, 40.1] gives [40.1, 34.3, 10.2] |
| Scenarios.CalibrationExample | jump.py:56-64 | a 183 cm user spanning 0.80 units is calibrated to 228.75 cm per unit |
| Scenarios.JumpExample | jump.py:69-93 | hips at 0.50, 0.40, 0.35, 0.40, 0.49: baseline 0.50, takeoff at the second frame, peak 0.15, landing at the fifth with one height recorded |
| Session.JumpSession.constructor | jump.py:12-18 | the session starts uncalibrated, with no baseline, no jump and an empty history |
| Session.JumpSession.CalibrateHeight | jump.py:56-64 | the fields change exactly as the calibration transition says, or are left unchanged when the division by zero is raised |
| Session.JumpSession.DetectJump | jump.py:66-104 | the fields change exactly as the tracking transition says, the file log follows the history, and the returned display values are the jump state and the current height |
| Session.JumpSession.Step | jump.py:122-140 | one main-loop pass updates the fields as the frame transition says and reports either the calibration prompt or the jump state, current height and top three |
| Session.JumpSession.ProcessFrames | jump.py:111-134 | running the loop over frames leaves the fields as the run function says; on the first division by zero it stops, with the fields and the file log exactly as they were at the start |

## Left out

- Video capture, the window, the keyboard and the `p`/`q` keys (jump.py:26, 111-152): these are I/O. The frame sequence is a parameter of `ProcessFrames`.
- Pose estimation and landmark drawing (jump.py:21-23, 117-120): these are calls into a library. A frame is an abstract `Option` of 33 landmarks.
- Every `cv2.putText` call, with its colours and positions (jump.py:96-103, 123-124, 130-133, 137-140): this is rendering. Only the displayed values are returned, in `Report`.
- The two-second "T-pose accepted" message (jump.py:128-133): it depends on the wall clock and only affects the display.
- The file write in `write_jump_height_to_file` (jump.py:106-108): this is I/O. It is the ghost field `savedHeights`.
- Numeric.Round1: models Python's `round(x, 1)` on exact reals with halves rounded up. It does not model round-half-to-even on binary floats or any other IEEE-754 behaviour, so no exact decimal result such as 34.3 is claimed; the jump example states its recorded height as `HeightCm(0.15, 228.75)`.
- The `x` coordinate of landmarks: it is carried in the data model but never read by the core.
