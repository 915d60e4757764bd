/**
 * The `Control` object of src/Control.cpp: the mode and target that the command
 * setters overwrite, the debounced backwards flag, the actuator's stop flag, and one
 * iteration of the control loop (the body of pose_control_thread).
 *
 * The pose estimate, the age of the last pose (the estimator's timeout timer) and
 * the clock behind the debounce timer are inputs of an iteration; the wheel
 * velocities handed to the actuator are its result.
 */
module MotionControl {
  import opened ControlTypes
  import opened ControlLaws
  import opened BackwardsDebounce

  /** What one loop iteration ends with. */
  datatype Iteration =
    | Slept                                 // stop_and_sleep blocked the loop until the next command
    | Commanded(wheel: WheelVelocity)       // wheel velocities sent to the actuator

  /** The loop's exit test: idle mode, or a pose estimate older than 500 ms. */
  predicate SleepDue(state: ControlState, timeoutMs: int)
  {
    state == None || timeoutMs > POSE_TIMEOUT_MS
  }

  class Control {
    const math: Math
    const gains: Gains
    const mirror: Mirror

    var sleepEnabled: bool
    var state: ControlState
    var target: Target
    var stopAfterwards: bool
    var backwards: bool
    var backwardsTimerStartMs: int
    /** The actuator driver's `stop` flag. */
    var controllerStop: bool

    /** Idle, with a zero target, the debounce timer started at `nowMs`. */
    constructor (math: Math, gains: Gains, mirror: Mirror, sleepEnabled: bool, nowMs: int)
      ensures this.math == math && this.gains == gains && this.mirror == mirror
      ensures this.sleepEnabled == sleepEnabled
      ensures state == None && target == Target(0.0, 0.0, 0.0, 0.0)
      ensures !stopAfterwards && !backwards && !controllerStop
      ensures backwardsTimerStartMs == nowMs
    {
      this.math := math;
      this.gains := gains;
      this.mirror := mirror;
      this.sleepEnabled := sleepEnabled;
      state := None;
      target := Target(0.0, 0.0, 0.0, 0.0);
      stopAfterwards := false;
      backwards := false;
      backwardsTimerStartMs := nowMs;
      controllerStop := false;
    }

    /** The selector state the debounce works on. */
    function Debounce(): (d: Debouncer)
      reads this
    {
      Debouncer(backwards, backwardsTimerStartMs)
    }

    /*
     * Command setters: each replaces the whole target and the mode, and nothing else.
     */

    method SetTargetPose(x: real, y: real, theta: real, stopAfterwards: bool, velocity: real)
      modifies this`target, this`stopAfterwards, this`state
      ensures target == Target(x, y, theta, velocity)
      ensures this.stopAfterwards == stopAfterwards
      ensures state == Pose
    {
      target := Target(x, y, theta, velocity);
      this.stopAfterwards := stopAfterwards;
      state := Pose;
    }

    method SetVectorControl(targetTheta: real, velocity: real)
      modifies this`target, this`state
      ensures target == Target(0.0, 0.0, targetTheta, velocity)
      ensures state == Vector
    {
      target := Target(0.0, 0.0, targetTheta, velocity);
      state := Vector;
    }

    method SetTargetOrientation(theta: real)
      modifies this`target, this`state
      ensures target == Target(0.0, 0.0, theta, 0.0)
      ensures state == Orientation
    {
      target := Target(0.0, 0.0, theta, 0.0);
      state := Orientation;
    }

    method SetTargetPosition(x: real, y: real, velocity: real)
      modifies this`target, this`state
      ensures target == Target(x, y, 0.0, velocity)
      ensures state == Position
    {
      target := Target(x, y, 0.0, velocity);
      state := Position;
    }

    /** The angular rate travels in the target's `velocity` field. */
    method SetAngVelControl(angularVelocity: real)
      modifies this`target, this`state
      ensures target == Target(0.0, 0.0, 0.0, angularVelocity)
      ensures state == AngularVel
    {
      target := Target(0.0, 0.0, 0.0, angularVelocity);
      state := AngularVel;
    }

    /** Idles the controller and answers a zero velocity; the loop sleeps on its next exit test. */
    method SetStopAndSleep() returns (r: TargetVelocity)
      modifies this`state
      ensures r == TargetVelocity(0.0, 0.0)
      ensures state == None
    {
      state := None;
      r := TargetVelocity(0.0, 0.0);
    }

    /**
     * Idles the controller and stops the actuator when sleeping is enabled, and does
     * nothing otherwise. The wait for the next command that follows is the caller's.
     */
    method StopAndSleep()
      modifies this`state, this`controllerStop
      ensures sleepEnabled ==> state == None && controllerStop
      ensures !sleepEnabled ==> state == old(state) && controllerStop == old(controllerStop)
    {
      if !sleepEnabled {
        return;
      }
      state := None;
      controllerStop := true;
    }

    /**
     * The debounced backwards decision for a robot at heading `theta` and the clock
     * reading `nowMs`: the stored decision and timer move exactly as `Select` says, and
     * the answer is the decision now stored.
     */
    method BackwardsSelect(targetTheta: real, theta: real, nowMs: int) returns (goBackwards: bool)
      modifies this`backwards, this`backwardsTimerStartMs
      ensures Debounce() == Select(old(Debounce()), WantsBackwards(math, targetTheta, theta), nowMs)
      ensures goBackwards == backwards
    {
      if nowMs - backwardsTimerStartMs > BACKWARDS_DEBOUNCE_MS {
        var wanted := Abs(math.wrap(targetTheta - theta)) > PI / 2.0;
        if backwards != wanted {
          backwardsTimerStartMs := nowMs;
        }
        backwards := wanted;
        goBackwards := wanted;
      } else {
        goBackwards := backwards;
      }
    }

    /** The position law; reaching the goal idles the controller through SetStopAndSleep. */
    method PositionControl(pose: PoseData, target: Target) returns (r: TargetVelocity)
      modifies this`state
      ensures r == PositionLaw(math, pose, target)
      ensures state == if PositionReached(math, pose, target) then None else old(state)
    {
      var bearing := math.atan2(target.y - pose.y, target.x - pose.x);
      var error := math.sqrt(SquaredDistance(pose, target));
      if error < ARRIVAL_DISTANCE {
        r := SetStopAndSleep();
      } else {
        r := VectorControl(math, pose, bearing, target.velocity * math.sqrt(error));
      }
    }

    /**
     * One iteration of the control loop for the pose snapshot `pose`, the age
     * `timeoutMs` of the last pose and the clock reading `nowMs`.
     *
     * When the exit test holds and sleeping is enabled, the controller idles, the
     * actuator is stopped and the iteration blocks; the rest of the source iteration
     * runs after the next command, as the next call of Step. Otherwise the backwards
     * decision is refreshed, the mode is dispatched to its law and the resulting
     * wheel velocities are sent; the position law may idle the controller.
     */
    method Step(pose: PoseData, timeoutMs: int, nowMs: int) returns (outcome: Iteration)
      modifies this`state, this`controllerStop, this`backwards, this`backwardsTimerStartMs
      ensures SleepDue(old(state), timeoutMs) && sleepEnabled ==>
                && outcome == Slept
                && state == None && controllerStop
                && Debounce() == old(Debounce())
      ensures !(SleepDue(old(state), timeoutMs) && sleepEnabled) ==>
                && controllerStop == old(controllerStop)
                && Debounce() == Select(old(Debounce()), WantsBackwards(math, target.theta, pose.theta), nowMs)
                && outcome == Commanded(WheelVelocityOf(
                     Dispatch(old(state), gains, math, mirror, pose, target, backwards), gains.robotSize))
                && state == ModeAfterDispatch(old(state), math, mirror, pose, target, backwards)
    {
      if state == None || timeoutMs > POSE_TIMEOUT_MS {
        StopAndSleep();
        if sleepEnabled {
          // Blocked in Thread::signal_wait until a setter resumes the loop.
          return Slept;
        }
      }

      var goBackwards := BackwardsSelect(target.theta, pose.theta, nowMs);
      backwards := goBackwards;
      var t := mirror.target(target, goBackwards);
      var p := mirror.pose(pose, goBackwards);

      var velocity: TargetVelocity;
      match state {
        case Pose =>
          velocity := PoseControl(gains, math, pose, target);
        case Position =>
          velocity := PositionControl(p, t);
        case Vector =>
          velocity := VectorControl(math, p, t.theta, t.velocity);
        case Orientation =>
          velocity := OrientationControl(math, p, t.theta);
        case AngularVel =>
          velocity := TargetVelocity(0.0, t.velocity);
        case _ =>
          velocity := TargetVelocity(0.0, 0.0);
      }
      outcome := Commanded(WheelVelocityOf(velocity, gains.robotSize));
    }
  }
}
