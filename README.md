# Motion control of a differential-drive robot, in Dafny

This project models the `Control` class of a small soccer robot's firmware
(`src/Control.cpp`): the layer that turns a commanded goal into wheel speeds.

- **Mode and target.** `Control` holds a mode (`ControlState`: `None`, `Pose`,
  `Position`, `Vector`, `Orientation`, `AngularVel`, or a mode the loop does not
  handle) and a `Target` (x, y, heading, velocity). Five setters each overwrite the
  whole target and the mode. `set_stop_and_sleep` and `stop_and_sleep` return the
  controller to `None`. `stop_and_sleep` only does so when sleeping is enabled, and
  it also raises the actuator's `stop` flag.
- **One loop iteration.** The loop first runs an exit test: idle mode, or a pose
  estimate older than 500 ms. It then refreshes the debounced backwards decision and
  dispatches the mode to its control law. The resulting body velocity is split into
  left and right wheel speeds.
- **Control laws.** `vector_control` and `orientation_control` are proportional heading
  laws with gains 10 and 15. `get_polar_pose` turns the goal into polar coordinates.
  `control_law` is the nonlinear pose-regulation law with curvature `k`,
  `v = vmax / (1 + B k^2)` and `w = v k`. `pose_control` and `position_control` switch on a
  0.02 distance cut-off.
- **Backwards debounce.** `backwards_select` lets the forward/backward decision change
  only when more than 50 ms have passed since the last flip. It resets its timer only
  when the decision flips.

Modules, leaves first:

- `ControlTypes` (types.dfy): the value records and the constants 500 ms, 50 ms, 0.02,
  10, 15 and PI. The helpers `wrap`, `atan2`, `atan`, `sqrt` and `sin` are function
  values in a `Math` record. `Lawful` states the only facts the proofs use: `sqrt` is
  the non-negative square root, and `wrap` lands in (-PI, PI] and is the identity there.
  The tuning constants k1, k2, B and `ROBOT_SIZE` are a `Gains` record with B >= 0. The
  reversal helpers `or_backwards` and `or_backwards_vel` are function values in a
  `Mirror` record.
- `ControlLaws` (laws.dfy): the pure laws as functions, the mode dispatch, and the
  lemmas about them.
- `BackwardsDebounce` (backwards.dfy): the debounce as a function on a stored decision
  and the clock reading of the last timer reset, plus lemmas about runs of calls.
- `MotionControl` (control.dfy): the `Control` class. Its fields are the mode, the
  target, `stop_afterwards`, the backwards flag and its timer, `sleep_enabled` and the
  actuator's stop flag. Each method's postcondition states the new state in terms of
  the functions above.

## Notes on the source

- `vector_control` passes the commanded speed through unscaled (src/Control.cpp:134).
- `pose_control` keeps steering with the vector law inside the 0.02 disk and never
  idles the controller. `stop_afterwards` is stored but never read in `Control.cpp`.
- Both time comparisons are strict: the exit test is `> 500` ms (line 82), and the
  debounce lets the decision flip only after `> 50` ms (line 160).
- The `AngularVel` arm outputs the velocity of the backwards-adjusted copy of the
  target, not the stored one (line 99).

## Model

| member | source | states |
|---|---|---|
| ControlTypes.SquaredDistance | src/Control.cpp:142 | The squared distance `pow(dx,2)+pow(dy,2)` fed to `sqrt` is never negative. |
| ControlTypes.SqrtBelow | src/Control.cpp:127-129 | Under the square-root law, `sqrt(d) < c` holds exactly when `d < c*c`. So a cut-off on the root is a disk around the goal. |
| ControlLaws.WheelVelocityOf | src/Control.cpp:110-113 | The mean of the wheel speeds is `v`. Their difference is `w*ROBOT_SIZE`. `w == 0` gives equal wheel speeds. |
| ControlLaws.WheelMappingRoundTrip | src/Control.cpp:110-113 | With a non-zero track width, the body velocity can be recovered from the wheel speeds. |
| ControlLaws.WheelMappingOnto | src/Control.cpp:110-113 | Every pair of wheel speeds is produced by the body velocity it encodes. So the mapping is a bijection. |
| ControlLaws.VectorControlTracksHeading | src/Control.cpp:133-135 | The linear velocity is the commanded one, unscaled. The turn rate is at most 10*PI in magnitude. For a heading error in (-PI, PI] it equals 10 times that error, so it is zero at the commanded heading. |
| ControlLaws.OrientationControlRotatesInPlace | src/Control.cpp:137-139 | The linear velocity is 0. The turn rate is at most 15*PI in magnitude. The output is {0,0} at the target heading. |
| ControlLaws.OrientationControlAntisymmetric | src/Control.cpp:137-139 | For a heading error in (-PI, PI), errors of opposite sign give opposite turn rates. |
| ControlLaws.PolarPoseMeasuresGoal | src/Control.cpp:141-147 | The polar error is the non-negative Euclidean distance. It is below 0.02 exactly when the squared distance is below 0.0004. Both angles are negated wraps, so they lie in [-PI, PI). |
| ControlLaws.ControlLaw | src/Control.cpp:149-156 | `w == v*k` for the law's curvature `k`. With B >= 0, `v` lies between 0 and `vmax`, with the sign of `vmax`. |
| ControlLaws.SlowdownFactor | src/Control.cpp:153 | The divisor `1 + B*pow(k,2)` is at least 1 when B >= 0. So the division is defined. |
| ControlLaws.ControlLawFullSpeedOnlyStraight | src/Control.cpp:149-156 | With B > 0 and `vmax != 0`, the law runs at `vmax` exactly when the curvature is zero. |
| ControlLaws.PoseControlBranches | src/Control.cpp:115-122 | Within the 0.02 disk, the output is `vector_control(pose, target.theta, target.velocity)`. Outside it, the output is `control_law(polar pose, target.velocity)`. The speed never exceeds the commanded speed in magnitude. |
| ControlLaws.PositionLawTapers | src/Control.cpp:124-131 | The goal counts as reached exactly inside the 0.02 disk, and then the output is {0,0}. Otherwise `w` steers to the goal bearing with gain 10. Also `v^2 == velocity^2 * error`, and `v` keeps the commanded speed's sign. |
| ControlLaws.Dispatch | src/Control.cpp:88-103 | `Pose` uses the raw pose and the stored target. `Orientation` and `AngularVel` have `v == 0`. `Vector` drives at the adjusted target's velocity. `AngularVel` turns at the adjusted target's velocity. `None` and unhandled modes give {0,0}. |
| ControlLaws.ModeAfterDispatch | src/Control.cpp:93 | Dispatch leaves the mode alone, except that `Position` may become `None`. |
| ControlLaws.AngularVelIgnoresPose | src/Control.cpp:98-99 | In `AngularVel` mode the command does not depend on the pose once the backwards decision is fixed. |
| BackwardsDebounce.Select | src/Control.cpp:158-168 | Within 50 ms of the last reset nothing changes. After that, the decision becomes `abs(wrap(target_theta - theta)) > PI/2`. The timer is reset exactly when the stored decision flips. |
| BackwardsDebounce.TimerMarksLastFlip | src/Control.cpp:160-163 | Until the next flip, the timer holds the clock reading of the last flip. |
| BackwardsDebounce.ConsecutiveFlipsAreSpaced | src/Control.cpp:160-163 | Two consecutive flips of the decision are more than 50 ms apart. |
| BackwardsDebounce.FlipsAreSpaced | src/Control.cpp:158-168 | With a clock that never goes back, any two flips are more than 50 ms apart. |
| BackwardsDebounce.SettlesAfterDebounce | src/Control.cpp:160-164 | A call made more than 50 ms after the last reset always adopts the current wish. |
| MotionControl.Control.constructor | src/Control.cpp:5-10 | The controller starts idle with a zero target. The debounce timer starts at the given clock reading. |
| MotionControl.Control.SetTargetPose | src/Control.cpp:42-48 | `target == {x, y, theta, velocity}`, `stop_afterwards` is stored, and the mode is `Pose`. No other field changes. |
| MotionControl.Control.SetVectorControl | src/Control.cpp:50-54 | `target == {0, 0, target_theta, velocity}` and the mode is `Vector`. No other field changes. |
| MotionControl.Control.SetTargetOrientation | src/Control.cpp:56-60 | `target == {0, 0, theta, 0}` and the mode is `Orientation`. No other field changes. |
| MotionControl.Control.SetTargetPosition | src/Control.cpp:62-66 | `target == {x, y, 0, velocity}` and the mode is `Position`. No other field changes. |
| MotionControl.Control.SetAngVelControl | src/Control.cpp:68-72 | `target == {0, 0, 0, angular_velocity}` and the mode is `AngularVel`. No other field changes. |
| MotionControl.Control.SetStopAndSleep | src/Control.cpp:74-77 | Returns {0,0} and sets the mode to `None`. Nothing else changes. |
| MotionControl.Control.StopAndSleep | src/Control.cpp:27-31 | With sleeping disabled, nothing changes. Otherwise the mode becomes `None` and the actuator's stop flag is raised. |
| MotionControl.Control.BackwardsSelect | src/Control.cpp:158-168 | The stored decision and timer move exactly as `Select` says, and the answer is the decision now stored. |
| MotionControl.Control.PositionControl | src/Control.cpp:124-131 | Returns the position law's velocity. The mode becomes `None` exactly when the goal is within 0.02. |
| MotionControl.Control.Step | src/Control.cpp:79-105 | The iteration sleeps exactly when the mode is `None` or the pose is older than 500 ms, and sleeping is enabled. Sleeping leaves the mode `None` and the actuator stopped. Otherwise the backwards decision is refreshed by `Select`. The command sent is the wheel mapping of `Dispatch` for the mode, and the mode becomes `ModeAfterDispatch`. |

## Left out

- Threads and blocking are not modelled. This covers `start_threads`,
  `resume_threads`, the signal wait and clear inside `stop_and_sleep`,
  `Thread::wait(10)` and the endless `while` loop. `Step` is one iteration. When the
  exit test puts the loop to sleep, `Step` ends with `Slept`. The rest of that source
  iteration runs only after a setter wakes the loop. It then behaves as the next
  `Step` with a fresh timeout reading. A setter called while the loop is running leaves the
  wake signal pending, so the next `stop_and_sleep` returns at once and that iteration
  finishes in mode `None`, sending {0,0}. This is not captured: the model's `Step`
  always ends with `Slept` when it sleeps.
- The setters do not clear the actuator's stop flag. Their `resume_threads` call
  forwards to the actuator driver, which is not part of this model.
- `reset_timeout` and `set_ekf_vision_data` are not modelled. They only forward to the
  pose estimator. The age of the last pose is an input of `Step`.
- The constructor's PWM calls and every `controller.set_target_velocity` call are not
  modelled. The wheel speeds passed to the actuator are `Step`'s `Commanded` result.
- The loop reads the estimator's pose three times per iteration: in
  `backwards_select`, for the reversal copy, and in the `Pose` arm. The model reads one
  snapshot per iteration. The pose estimator (`src/SensorFusion.h`) is not part of this
  model.
- `wrap`, `atan2`, `atan`, `sin` and `sqrt` are uninterpreted. Only the facts in
  `Lawful` are assumed. `WrapLaw` bounds `wrap` by Control.cpp's `PI` macro (3.1415926).
  `wrap` is defined in helper_functions.h, which is not part of this model. If it
  wraps with a more precise pi, its results can lie slightly above the model's `PI`. `or_backwards` and `or_backwards_vel` are also uninterpreted,
  because their bodies are in `Control.h`, which is not part of this model.
- The constants k1, k2, B and `ROBOT_SIZE` are parameters. Their values are not known
  to the model.
- Floating point is not modelled. All quantities are reals, `pow(x, 2.0f)` is `x*x`, and
  `PI` is the real 3.1415926. So rounding, overflow and NaN are not captured.
- The initial values of `stop_afterwards`, `backwards` and the actuator's stop flag are
  set in headers that are not part of this model. The model starts them all false.
  `sleep_enabled` is a constructor parameter.
- ControlLaws.ControlLaw: assumes B >= 0 through the `Gains` type, which keeps
  `1 + B*k^2` non-zero. The source has no such guard and relies on the constant being
  positive. It also requires a non-zero polar error, which `pose_control` guarantees
  by calling it only at distances of at least 0.02.
