/**
 * Value types of the motion-control layer of a differential-drive robot
 * (src/Control.cpp), and the abstract mathematical helpers its control laws use.
 *
 * All quantities are reals: single-precision rounding is not modelled.
 * The transcendental functions (atan2, atan, sin, sqrt) and the angle wrapper
 * `wrap` are carried as function values in a `Math` record, so no definition is
 * invented for them; `Lawful` collects the only facts the proofs rely on.
 */
module ControlTypes {

  /** The `PI` macro of Control.cpp (3.1415926f). */
  const PI: real := 3.1415926

  /** Distance (m) under which the distance-based laws treat the goal as reached. */
  const ARRIVAL_DISTANCE: real := 0.02

  /** Staleness (ms) of the pose estimate after which the loop goes to sleep. */
  const POSE_TIMEOUT_MS: int := 500

  /** Minimum time (ms) since the last flip before the backwards decision may change. */
  const BACKWARDS_DEBOUNCE_MS: int := 50

  /** Gain of the heading-tracking (vector) law. */
  const VECTOR_GAIN: real := 10.0

  /** Gain of the in-place rotation (orientation) law. */
  const ORIENTATION_GAIN: real := 15.0

  /** The estimator's pose snapshot: position, heading and measured body velocities. */
  datatype PoseData = PoseData(x: real, y: real, theta: real, v: real, w: real)

  /** The commanded goal; every command overwrites all four fields. */
  datatype Target = Target(x: real, y: real, theta: real, velocity: real)

  /** Body-frame command: linear velocity v and angular velocity w. */
  datatype TargetVelocity = TargetVelocity(v: real, w: real)

  /** Linear speeds of the two wheels. */
  datatype WheelVelocity = WheelVelocity(left: real, right: real)

  /** Goal expressed in polar coordinates: distance, (negated) goal-heading error, (negated) bearing error. */
  datatype PolarPose = PolarPose(error: real, theta: real, alpha: real)

  /**
   * The mode of the controller. `Other` stands for every enumerator of
   * ControlState that the loop's dispatch does not handle (its `default` arm).
   */
  datatype ControlState = None | Pose | Position | Vector | Orientation | AngularVel | Other(tag: nat)

  /** Tuning constants of the controller: the pose-law gains k1, k2, B and the track width. */
  datatype Tuning = Tuning(k1: real, k2: real, b: real, robotSize: real)

  /** Tuning constants with a non-negative B, which keeps 1 + B*k^2 away from zero. */
  type Gains = t: Tuning | 0.0 <= t.b witness Tuning(0.0, 0.0, 0.0, 0.0)

  /** The numeric helpers the control laws call, left uninterpreted. */
  datatype Math = Math(
    wrap: real -> real,
    atan2: (real, real) -> real,
    atan: real -> real,
    sqrt: real -> real,
    sin: real -> real)

  /**
   * The reversal helpers `or_backwards` (on a pose) and `or_backwards_vel`
   * (on a target): given the backwards flag they return the copy the laws use.
   */
  datatype Mirror = Mirror(pose: (PoseData, bool) -> PoseData, target: (Target, bool) -> Target)

  /** sqrt is the non-negative square root on non-negative arguments. */
  ghost predicate SqrtLaw(sqrt: real -> real)
  {
    forall x: real :: 0.0 <= x ==> 0.0 <= sqrt(x) && sqrt(x) * sqrt(x) == x
  }

  /** wrap maps every angle into (-PI, PI] and leaves angles already there unchanged. */
  ghost predicate WrapLaw(wrap: real -> real)
  {
    && (forall a: real :: -PI < wrap(a) <= PI)
    && (forall a: real :: -PI < a <= PI ==> wrap(a) == a)
  }

  ghost predicate Lawful(m: Math)
  {
    SqrtLaw(m.sqrt) && WrapLaw(m.wrap)
  }

  function Abs(x: real): (r: real)
    ensures 0.0 <= r && (r == x || r == -x)
  {
    if x < 0.0 then -x else x
  }

  /** Squared Euclidean distance between the pose and the target position (pow(d, 2) is d*d). */
  function SquaredDistance(pose: PoseData, target: Target): (d: real)
    ensures 0.0 <= d
  {
    var dx := target.x - pose.x;
    var dy := target.y - pose.y;
    SquareNonNegative(dx);
    SquareNonNegative(dy);
    dx * dx + dy * dy
  }

  lemma SquareNonNegative(x: real)
    ensures 0.0 <= x * x
  {
  }

  lemma ProductNonNegative(a: real, b: real)
    requires 0.0 <= a && 0.0 <= b
    ensures 0.0 <= a * b
  {
  }

  /** A product is zero only when a factor is. */
  lemma ZeroProduct(a: real, b: real)
    requires a * b == 0.0
    ensures a == 0.0 || b == 0.0
  {
  }

  /**
   * Under the square-root law, the root of d is below c exactly when d is below c*c:
   * this is what turns a cut-off on sqrt(distance^2) into a disk around the goal.
   */
  lemma {:induction false} SqrtBelow(sqrt: real -> real, d: real, c: real)
    requires SqrtLaw(sqrt)
    requires 0.0 <= d && 0.0 <= c
    ensures sqrt(d) < c <==> d < c * c
  {
    var s := sqrt(d);
    var sc, cc := s * c, c * c;
    assert 0.0 <= s && s * s == d;
    if s < c {
      assert d <= sc && sc < cc;
    } else {
      assert cc <= sc && sc <= d;
    }
  }
}
