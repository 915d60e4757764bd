/**
 * The pure control laws of src/Control.cpp: the wheel mapping, the heading
 * (vector) law, the in-place rotation (orientation) law, the polar transform,
 * the nonlinear pose-regulation law, the position law and the per-mode
 * dispatch of one loop iteration.
 */
module ControlLaws {
  import opened ControlTypes

  /*
   * Wheel mapping (get_target_wheel_velocity).
   */

  /** Splits a body velocity into wheel speeds for a track width of `robotSize`. */
  function WheelVelocityOf(t: TargetVelocity, robotSize: real): (r: WheelVelocity)
    ensures (r.left + r.right) / 2.0 == t.v
    ensures r.right - r.left == t.w * robotSize
    ensures t.w == 0.0 ==> r.left == r.right
  {
    WheelVelocity(t.v - t.w * robotSize / 2.0, t.v + t.w * robotSize / 2.0)
  }

  /** Reference inverse of the wheel mapping: the body velocity that wheel speeds produce. */
  function BodyVelocityOf(wheel: WheelVelocity, robotSize: real): (t: TargetVelocity)
    requires robotSize != 0.0
  {
    TargetVelocity((wheel.left + wheel.right) / 2.0, (wheel.right - wheel.left) / robotSize)
  }

  /** With a non-zero track width the wheel mapping loses nothing: the body velocity comes back. */
  lemma WheelMappingRoundTrip(t: TargetVelocity, robotSize: real)
    requires robotSize != 0.0
    ensures BodyVelocityOf(WheelVelocityOf(t, robotSize), robotSize) == t
  {
  }

  /** ... and every pair of wheel speeds is reached by exactly the body velocity it encodes. */
  lemma WheelMappingOnto(wheel: WheelVelocity, robotSize: real)
    requires robotSize != 0.0
    ensures WheelVelocityOf(BodyVelocityOf(wheel, robotSize), robotSize) == wheel
  {
  }

  /*
   * Heading and rotation laws (vector_control, orientation_control).
   */

  /** Drives at the commanded speed, unscaled, turning proportionally to the wrapped heading error. */
  function VectorControl(m: Math, pose: PoseData, targetTheta: real, velocity: real): (r: TargetVelocity)
  {
    TargetVelocity(velocity, VECTOR_GAIN * m.wrap(targetTheta - pose.theta))
  }

  /** Turns in place proportionally to the wrapped heading error. */
  function OrientationControl(m: Math, pose: PoseData, theta: real): (r: TargetVelocity)
  {
    TargetVelocity(0.0, ORIENTATION_GAIN * m.wrap(theta - pose.theta))
  }

  /**
   * The vector law keeps the commanded speed, its turn rate is bounded by 10*PI, and for
   * a heading error already in (-PI, PI] the turn rate is exactly 10 times that error
   * (so no turn at all when the robot faces the commanded heading).
   */
  lemma VectorControlTracksHeading(m: Math, pose: PoseData, targetTheta: real, velocity: real)
    requires WrapLaw(m.wrap)
    ensures VectorControl(m, pose, targetTheta, velocity).v == velocity
    ensures Abs(VectorControl(m, pose, targetTheta, velocity).w) <= VECTOR_GAIN * PI
    ensures -PI < targetTheta - pose.theta <= PI ==>
              VectorControl(m, pose, targetTheta, velocity).w == VECTOR_GAIN * (targetTheta - pose.theta)
  {
  }

  /**
   * The orientation law never translates; its turn rate is bounded by 15*PI and it is
   * zero at the commanded heading.
   */
  lemma OrientationControlRotatesInPlace(m: Math, pose: PoseData, theta: real)
    requires WrapLaw(m.wrap)
    ensures OrientationControl(m, pose, theta).v == 0.0
    ensures Abs(OrientationControl(m, pose, theta).w) <= ORIENTATION_GAIN * PI
    ensures OrientationControl(m, pose.(theta := theta), theta) == TargetVelocity(0.0, 0.0)
  {
  }

  /** Heading errors of opposite sign, both inside (-PI, PI), give opposite turn rates. */
  lemma OrientationControlAntisymmetric(m: Math, pose: PoseData, theta: real, e: real)
    requires WrapLaw(m.wrap)
    requires -PI < e < PI
    ensures OrientationControl(m, pose.(theta := theta - e), theta).w
         == -OrientationControl(m, pose.(theta := theta + e), theta).w
  {
  }

  /*
   * Pose regulation (get_polar_pose, control_law, pose_control).
   */

  /** The goal in polar coordinates relative to the robot. */
  function PolarPoseOf(m: Math, pose: PoseData, target: Target): (p: PolarPose)
  {
    var error := m.sqrt(SquaredDistance(pose, target));
    var robotToTarget := m.atan2(target.y - pose.y, target.x - pose.x);
    var theta := m.wrap(robotToTarget - target.theta);
    var alpha := m.wrap(robotToTarget - pose.theta);
    PolarPose(error, -theta, -alpha)
  }

  /**
   * The polar distance is the Euclidean distance to the goal, and it is below the
   * arrival cut-off exactly when the goal lies in the disk of radius 0.02 around the robot;
   * both angles are negated wraps, hence in [-PI, PI).
   */
  lemma PolarPoseMeasuresGoal(m: Math, pose: PoseData, target: Target)
    requires Lawful(m)
    ensures var p := PolarPoseOf(m, pose, target);
      && 0.0 <= p.error
      && p.error * p.error == SquaredDistance(pose, target)
      && (p.error < ARRIVAL_DISTANCE <==> SquaredDistance(pose, target) < ARRIVAL_DISTANCE * ARRIVAL_DISTANCE)
      && -PI <= p.theta < PI
      && -PI <= p.alpha < PI
  {
    var d := SquaredDistance(pose, target);
    SqrtBelow(m.sqrt, d, ARRIVAL_DISTANCE);
    var robotToTarget := m.atan2(target.y - pose.y, target.x - pose.x);
    assert -PI < m.wrap(robotToTarget - target.theta) <= PI;
    assert -PI < m.wrap(robotToTarget - pose.theta) <= PI;
  }

  /** The curvature k that the pose-regulation law prescribes; needs a non-zero distance. */
  function Curvature(g: Gains, m: Math, p: PolarPose): (k: real)
    requires p.error != 0.0
  {
    var k1theta := g.k1 * p.theta;
    SquareNonNegative(k1theta);
    (-1.0 / p.error)
      * (g.k2 * (p.alpha - m.atan(-g.k1 * p.theta))
         + (1.0 + g.k1 / (1.0 + k1theta * k1theta)) * m.sin(p.alpha))
  }

  /**
   * The pose-regulation law: it follows the curvature exactly (w == v*k) and slows
   * down on sharp curves, never exceeding the commanded speed vmax in magnitude nor
   * reversing its sign.
   */
  function ControlLaw(g: Gains, m: Math, p: PolarPose, vmax: real): (r: TargetVelocity)
    requires p.error != 0.0
    ensures r.w == r.v * Curvature(g, m, p)
    ensures 0.0 <= vmax ==> 0.0 <= r.v <= vmax
    ensures vmax <= 0.0 ==> vmax <= r.v <= 0.0
  {
    var k := Curvature(g, m, p);
    var slowdown := SlowdownFactor(g.b, k);
    Attenuate(vmax, slowdown);
    var v := vmax / slowdown;
    TargetVelocity(v, v * k)
  }

  /** The divisor 1 + B*k^2 of the pose-regulation law, at least 1 for B >= 0. */
  function SlowdownFactor(b: real, k: real): (f: real)
    requires 0.0 <= b
    ensures 1.0 <= f
  {
    var kk := k * k;
    SquareNonNegative(k);
    ProductNonNegative(b, kk);
    1.0 + b * kk
  }

  /** Dividing by a factor of at least 1 shrinks a value towards zero without changing its sign. */
  lemma Attenuate(x: real, f: real)
    requires 1.0 <= f
    ensures 0.0 <= x ==> 0.0 <= x / f <= x
    ensures x <= 0.0 ==> x <= x / f <= 0.0
  {
  }

  /**
   * With B > 0 the law reaches the commanded speed exactly when it drives straight
   * (zero curvature): any turning costs speed.
   */
  lemma {:induction false} ControlLawFullSpeedOnlyStraight(g: Gains, m: Math, p: PolarPose, vmax: real)
    requires p.error != 0.0
    requires 0.0 < g.b && vmax != 0.0
    ensures ControlLaw(g, m, p, vmax).v == vmax <==> Curvature(g, m, p) == 0.0
  {
    var k := Curvature(g, m, p);
    var f := SlowdownFactor(g.b, k);
    var v := vmax / f;
    assert v * f == vmax;
    if v == vmax {
      assert vmax * (f - 1.0) == 0.0;
      ZeroProduct(vmax, f - 1.0);
      ZeroProduct(g.b, k * k);
      ZeroProduct(k, k);
    }
  }

  /** The pose law: heading control once within 0.02 of the goal, the nonlinear law before that. */
  function PoseControl(g: Gains, m: Math, pose: PoseData, target: Target): (r: TargetVelocity)
  {
    var polar := PolarPoseOf(m, pose, target);
    if polar.error < ARRIVAL_DISTANCE then
      VectorControl(m, pose, target.theta, target.velocity)
    else
      ControlLaw(g, m, polar, target.velocity)
  }

  /**
   * Within the 0.02 disk around the goal the pose law is the vector law towards the
   * goal heading at the commanded speed; outside it is the nonlinear law on the polar
   * pose. In both cases the speed never exceeds the commanded speed in magnitude.
   */
  lemma PoseControlBranches(g: Gains, m: Math, pose: PoseData, target: Target)
    requires Lawful(m)
    ensures var r := PoseControl(g, m, pose, target);
      && (SquaredDistance(pose, target) < ARRIVAL_DISTANCE * ARRIVAL_DISTANCE ==>
            r == VectorControl(m, pose, target.theta, target.velocity))
      && (SquaredDistance(pose, target) >= ARRIVAL_DISTANCE * ARRIVAL_DISTANCE ==>
            r == ControlLaw(g, m, PolarPoseOf(m, pose, target), target.velocity))
      && Abs(r.v) <= Abs(target.velocity)
  {
    PolarPoseMeasuresGoal(m, pose, target);
  }

  /*
   * Position law (position_control).
   */

  /** Whether the position law considers the goal reached (distance below 0.02). */
  predicate PositionReached(m: Math, pose: PoseData, target: Target)
  {
    m.sqrt(SquaredDistance(pose, target)) < ARRIVAL_DISTANCE
  }

  /**
   * The velocity the position law returns: zero once the goal is reached, otherwise the
   * vector law towards the goal's bearing at the commanded speed times sqrt(distance).
   */
  function PositionLaw(m: Math, pose: PoseData, target: Target): (r: TargetVelocity)
  {
    var bearing := m.atan2(target.y - pose.y, target.x - pose.x);
    var error := m.sqrt(SquaredDistance(pose, target));
    if error < ARRIVAL_DISTANCE then TargetVelocity(0.0, 0.0)
    else VectorControl(m, pose, bearing, target.velocity * m.sqrt(error))
  }

  /**
   * The position law stops exactly inside the 0.02 disk around the goal; elsewhere it
   * steers towards the goal's bearing with a speed whose square is the commanded speed
   * squared times the distance, and which keeps the commanded speed's sign.
   */
  lemma PositionLawTapers(m: Math, pose: PoseData, target: Target)
    requires Lawful(m)
    ensures var r := PositionLaw(m, pose, target);
      var d := SquaredDistance(pose, target);
      var error := m.sqrt(d);
      && (PositionReached(m, pose, target) <==> d < ARRIVAL_DISTANCE * ARRIVAL_DISTANCE)
      && (PositionReached(m, pose, target) ==> r == TargetVelocity(0.0, 0.0))
      && (!PositionReached(m, pose, target) ==>
            && r.w == VECTOR_GAIN * m.wrap(m.atan2(target.y - pose.y, target.x - pose.x) - pose.theta)
            && r.v * r.v == target.velocity * target.velocity * error
            && (0.0 <= target.velocity ==> 0.0 <= r.v)
            && (target.velocity <= 0.0 ==> r.v <= 0.0))
  {
    var d := SquaredDistance(pose, target);
    SqrtBelow(m.sqrt, d, ARRIVAL_DISTANCE);
    var error := m.sqrt(d);
    if !(error < ARRIVAL_DISTANCE) {
      var root := m.sqrt(error);
      assert 0.0 <= root && root * root == error;
      var vel := target.velocity;
      var v := vel * root;
      assert v * v == (vel * vel) * (root * root);
      if 0.0 <= vel {
        assert 0.0 <= v;
      } else {
        assert v <= 0.0;
      }
    }
  }

  /*
   * Mode dispatch of one loop iteration (the switch of pose_control_thread).
   */

  /**
   * The body velocity one iteration computes in mode `state`, for the raw pose and the
   * stored target, given the backwards decision: the Pose mode uses the raw pose and
   * target, every other mode the copies returned by the reversal helpers.
   */
  function Dispatch(state: ControlState, g: Gains, m: Math, mirror: Mirror,
                    pose: PoseData, target: Target, backwards: bool): (r: TargetVelocity)
    ensures state == Pose ==> r == PoseControl(g, m, pose, target)
    ensures state == Orientation || state == AngularVel ==> r.v == 0.0
    ensures state == Vector ==> r.v == mirror.target(target, backwards).velocity
    ensures state == AngularVel ==> r.w == mirror.target(target, backwards).velocity
    ensures state == None || state.Other? ==> r == TargetVelocity(0.0, 0.0)
  {
    var t := mirror.target(target, backwards);
    var p := mirror.pose(pose, backwards);
    match state
    case Pose => PoseControl(g, m, pose, target)
    case Position => PositionLaw(m, p, t)
    case Vector => VectorControl(m, p, t.theta, t.velocity)
    case Orientation => OrientationControl(m, p, t.theta)
    case AngularVel => TargetVelocity(0.0, t.velocity)
    case _ => TargetVelocity(0.0, 0.0)
  }

  /** The mode after dispatch: the position law idles the controller once the goal is reached. */
  function ModeAfterDispatch(state: ControlState, m: Math, mirror: Mirror,
                             pose: PoseData, target: Target, backwards: bool): (s: ControlState)
    ensures s == state || s == None
    ensures s != state ==> state == Position
  {
    if state == Position && PositionReached(m, mirror.pose(pose, backwards), mirror.target(target, backwards))
    then None
    else state
  }

  /**
   * The angular-rate mode ignores the pose: two poses for which the backwards decision
   * agrees produce the same command, the stored rate.
   */
  lemma AngularVelIgnoresPose(g: Gains, m: Math, mirror: Mirror,
                              pose1: PoseData, pose2: PoseData, target: Target, backwards: bool)
    ensures Dispatch(AngularVel, g, m, mirror, pose1, target, backwards)
         == Dispatch(AngularVel, g, m, mirror, pose2, target, backwards)
  {
  }
}
