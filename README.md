# Drishtikey calibration, modelled in Dafny

Drishtikey is an eye-tracking virtual keyboard. `run_drishtikey.py` holds a
calibration prototype, the `Calibration` class, driven by a window that takes
the mouse cursor as a stand-in for gaze and prints the two fitted lines at the
end. The session shows five targets in a fixed order: top left, top right,
bottom left, bottom right, centre. The corners sit 50 pixels in from the
screen edges. At each target a timer starts with the first gaze offset
offered. Offsets offered before a dwell time (1.5 s by default) has passed are
dropped. The first one offered after it is recorded, and the session moves
on. After the fifth target, `compute_mapping` fits one straight line per axis,
from gaze offset to screen coordinate, through the five (mean gaze, target
position) pairs.

The project has four files:

- `Wrappers.dfy`: an `Option` type, which stands for Python's `None`.
- `Regression.dfy`: first-degree least squares over exact reals, standing in
  for `np.polyfit(x, y, 1)` and `np.mean`. `Fit` is the closed-form line. The
  lemmas prove several things about it:
  - it solves both normal equations;
  - no line has a smaller sum of squared residuals;
  - it passes through the mean point;
  - it gives back exactly affine data;
  - it depends only on the multiset of points, not on their order.
- `Drishtikey.dfy`: the calibration itself.
  - The target table and the calibration order.
  - The per-target mean gaze and the two per-axis mappings.
  - `class Calibration`, whose fields are the session state. `Record` and
    `ComputeMapping` update them in place.
  - `Valid()`, the session invariant. It says:
    - each finished target holds exactly one sample and every other target
      holds none;
    - `completed` holds exactly when all five targets are done;
    - the mappings are set exactly when the session is complete, and then
      they are the least-squares lines through the recorded samples.
- `Scenarios.dfy`: whole sessions driven through `Record`, with the clock
  readings given explicitly.

`Record` does not read the clock. It takes the current time as an argument
`now`.

Three behaviours of the code that the model keeps, although a reader might expect otherwise:

- **The first call at a target.** The code starts the timer and then compares
  the elapsed time, which is 0, with the dwell time. So a dwell time of 0 (or
  less) accepts the first call at a target. With a positive dwell time the
  first call is rejected. There is no rule that the first call never counts.
  `Calibration.Record` and `Scenarios.ZeroDwell` state this behaviour.
- **Constructor arguments.** The constructor accepts any width, height and
  dwell time. Nothing rejects non-positive values.
- **No fixation check.** Nothing checks that the user kept looking at the
  target during the dwell time. The timer starts at the first `record` call
  for a target, wherever the gaze is (run_drishtikey.py:34-35). The caller
  polls every 50 ms (run_drishtikey.py:83). Every offset offered before the
  deadline is thrown away (run_drishtikey.py:37-38). The offset recorded is
  simply the first one to arrive after the dwell time.

## Model

The rows below characterise reference definitions that have no row of their
own:

- `Regression.Fit` and `Regression.PolyFit` model `np.polyfit(x, y, 1)`
  (run_drishtikey.py:63-64).
- `Drishtikey.MeanGaze` models `np.mean(samples, axis=0)`
  (run_drishtikey.py:53).
- `Drishtikey.MappingX` and `Drishtikey.MappingY` model the stored
  `coeff_x` and `coeff_y`.

| member | source | states |
|---|---|---|
| Drishtikey.StepIndex | run_drishtikey.py:14 | every target has a position in the calibration order, and the order holds that target at that position |
| Drishtikey.StepIndexInverse | run_drishtikey.py:14 | the position of the target at index `i` is `i`, so the five steps are five different targets |
| Drishtikey.ScreenTable | run_drishtikey.py:16-23 | the table has an entry for each of the five targets; the four corners form a rectangle whose sides lie 50 pixels in from the screen edges; the centre target is the halved screen size rounded down |
| Drishtikey.MeanOfEqualSamples | run_drishtikey.py:53 | the per-axis mean of samples that all equal `g` is `g`, so a target with one sample has that sample as its mean |
| Drishtikey.MappingXRecoversAffine | run_drishtikey.py:51-63 | if every target's screen x is exactly `l` applied to its mean gaze x, and two gaze xs differ, the horizontal mapping is `l` |
| Drishtikey.MappingYRecoversAffine | run_drishtikey.py:51-64 | the same for the vertical mapping |
| Drishtikey.MappingXIsLeastSquares | run_drishtikey.py:63 | no line maps the five gaze xs to the five target xs with a smaller sum of squared errors than the horizontal mapping |
| Drishtikey.MappingYIsLeastSquares | run_drishtikey.py:64 | the same for the vertical mapping |
| Drishtikey.AppendAdvances | run_drishtikey.py:40-42 | appending a sample for the current target turns "first `k` targets done, one sample each" into the same for `k + 1` |
| Drishtikey.FinishedHasAllSamples | run_drishtikey.py:45-47 | when all five targets are done, every target has a sample, so the mapping can be computed |
| Drishtikey.UnfinishedLacksSamples | run_drishtikey.py:45-47 | before all five targets are done, some target has no sample, so no mapping can be computed |
| Drishtikey.FinishedMeansAreSamples | run_drishtikey.py:52-53 | when all five targets are done, each target holds exactly one sample, and its mean is that sample |
| Drishtikey.ColumnsExtend | run_drishtikey.py:52-58 | one loop iteration appends the entries of the next target to all four columns |
| Drishtikey.ColumnsComplete | run_drishtikey.py:51-64 | once the loop has covered all five targets, every target has samples, and fitting the four columns (entry `i` pairs the mean gaze of the target at step `i` with that target's screen position) gives the two per-axis mappings |
| Drishtikey.Calibration.constructor | run_drishtikey.py:10-29 | a new session is at step 0 with no samples, no timer, not completed and no mappings, and it satisfies the session invariant |
| Drishtikey.Calibration.Record | run_drishtikey.py:31-48 | accepted exactly when the session is not complete and `now` minus the timer start (or `now`, if no timer ran) is at least the dwell time; on a completed session nothing changes; a rejected call only starts the timer; an accepted call appends exactly the given offset to the current target alone, advances the step by one and clears the timer; the step never decreases; the session invariant is kept, so the mappings are computed on the call that finishes the fifth target and never again |
| Drishtikey.Calibration.ComputeMapping | run_drishtikey.py:50-64 | the mappings are computed exactly when every target has a sample, and are then the least-squares lines through (mean gaze, target position) in calibration order; otherwise nothing changes; samples, step, timer and completion are left alone; a session that satisfied the session invariant still does, so a direct call does not stop later `Record` calls |
| Regression.FitThroughMean | run_drishtikey.py:63-64 | the fitted line passes through the point (mean x, mean y) |
| Regression.FitNormalEquations | run_drishtikey.py:63-64 | the residuals of the fit sum to zero, and so do the residuals weighted by x; these are the two least-squares normal equations |
| Regression.FitIsLeastSquares | run_drishtikey.py:63-64 | no line has a smaller sum of squared residuals than the fit |
| Regression.FitRecoversAffine | run_drishtikey.py:63-64 | if all points lie on `l` and two of them have different x, the fit is `l` |
| Regression.PolyFitRecoversAffine | run_drishtikey.py:63-64 | the same for the two-column form that `polyfit` takes |
| Regression.FitOrderIndependent | run_drishtikey.py:63-64 | two point lists with the same multiset of points have the same fit |
| Scenarios.DefaultDwell | run_drishtikey.py:31-48 | with the default dwell time and calls at 0 s, 1 s, 1.5 s and 1.5 s, the answers are false, false, true, false; the last call starts the next target's timer at 1.5 s |
| Scenarios.ZeroDwell | run_drishtikey.py:34-38 | with a dwell time of 0, the first call at a target is accepted |
| Scenarios.FullSession | run_drishtikey.py:31-64 | on a 1000 by 800 screen, gaze = target / 2 + 10 gives `screen = 2 gaze - 20` on both axes, and a sixth call is rejected |
| Scenarios.SessionMappings | run_drishtikey.py:50-64 | the mappings fitted to the samples of `FullSession` are `2 gaze - 20` |

## Left out

- The `CalibrationWindow` user interface is not part of this model. This
  covers the Qt window, the polling timer, reading the pointer position,
  painting and printing (run_drishtikey.py:68-125). The `__main__` start-up
  block (run_drishtikey.py:128-132) is also left out. Both are I/O around the
  class.
- `app.py` is not part of this model. It is a one-route web page server with
  TLS set-up and no calibration logic.
- The clock: `record` reads `time.time()` once to measure the elapsed time
  (run_drishtikey.py:37). When no timer is running it first reads it once
  more, to start the timer (run_drishtikey.py:35). The model takes one
  reading, `now`, for both, because the two reads are microseconds apart.
- Floating point: `np.mean` and `np.polyfit` work on IEEE doubles, while the
  model uses exact reals. Rounding is not modelled. The coefficients are a
  `Line(slope, intercept)` rather than numpy's two-element array.
- `Regression.Fit`: does not follow numpy when all five gaze values on an axis
  coincide. numpy's result differs there, and it may fail outright when the
  common value is 0, because its column scaling then divides by zero. The
  rank warning is silenced (run_drishtikey.py:60-61). The model returns slope
  0 and the mean screen coordinate as intercept. That line also has the
  smallest possible sum of squared residuals; `Regression.FitIsLeastSquares`
  covers this case too.
- `Drishtikey.Calibration.ComputeMapping`: where the Python code raises an
  exception, the model returns `ok == false` with the state unchanged. This
  happens when a target has no samples: the mean of an empty list cannot be
  unpacked into two coordinates. The exception itself is not modelled.
- The warning filter set up in `compute_mapping` (run_drishtikey.py:60-61) is
  process-wide state outside the class and is not modelled. The model assumes
  a NumPy release that still has `np.RankWarning` in its main namespace (it was
  removed there in NumPy 2.0). With a newer NumPy, line 61 raises
  `AttributeError` after `completed` has been set at line 46, and both
  coefficients stay `None`; that outcome is not modelled.
- Gaze offsets and screen sizes are not checked for type. Offsets are pairs
  of reals; the screen size and the target coordinates are integers.
