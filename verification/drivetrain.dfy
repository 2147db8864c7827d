/** Drivetrain.kt: encoder tick/feet conversion, the averaged speed and distance of the
    two sides, open-loop drive, and the `followingPath` flag the path follower toggles. */
module Drivetrain {
  import opened Actuators

  /** `Characteristics.ENCODER_TICKS_PER_REVOLUTION` and `WHEEL_DIAMETER` (inches). */
  const EncoderTicksPerRevolution: int := 4096
  const WheelDiameter: int := 6

  /** `ticksToFeet(ticks)`: revolutions times wheel circumference, in feet. The
      constant pi is a parameter. */
  function TicksToFeet(ticks: int, pi: real): (feet: real)
    requires pi > 0.0
    ensures feet * 8192.0 == ticks as real * pi
  {
    ticks as real / EncoderTicksPerRevolution as real * WheelDiameter as real * pi / 12.0
  }

  /** `feetToTicks(feet)`. */
  function FeetToTicks(feet: real, pi: real): (ticks: real)
    requires pi > 0.0
    ensures ticks * pi == feet * 8192.0
  {
    feet * 12.0 / pi / WheelDiameter as real * EncoderTicksPerRevolution as real
  }

  /** Over exact reals the two conversions are inverse. */
  lemma TicksFeetRoundTrip(ticks: int, pi: real)
    requires pi > 0.0
    ensures FeetToTicks(TicksToFeet(ticks, pi), pi) == ticks as real
  {
    var f := TicksToFeet(ticks, pi);
    var t := FeetToTicks(f, pi);
    assert t * pi == ticks as real * pi;
  }

  /** One revolution is half of pi feet, zero ticks is zero feet, and more ticks is
      strictly further. */
  lemma TicksToFeetShape(t1: int, t2: int, pi: real)
    requires pi > 0.0
    ensures TicksToFeet(EncoderTicksPerRevolution, pi) == pi / 2.0
    ensures TicksToFeet(0, pi) == 0.0
    ensures t1 < t2 ==> TicksToFeet(t1, pi) < TicksToFeet(t2, pi)
  {
    if t1 < t2 {
      assert (TicksToFeet(t2, pi) - TicksToFeet(t1, pi)) * 8192.0 == (t2 - t1) as real * pi;
    }
  }

  /** The drivetrain's observable state: encoder positions (feet), velocities, the gyro
      heading, the path-following flag and the last open-loop commands. */
  datatype Drivetrain = Drivetrain(
    leftDistance: real, rightDistance: real,
    leftSpeed: real, rightSpeed: real,
    heading: real,
    followingPath: bool,
    left: MotorCommand, right: MotorCommand)

  /** The object after its `init` block: encoders and gyro zeroed, not following. */
  function Initial(leftSpeed: real, rightSpeed: real): (d: Drivetrain)
    ensures d.leftDistance == 0.0 && d.rightDistance == 0.0 && d.heading == 0.0
    ensures !d.followingPath
    ensures d.left == Idle && d.right == Idle
  {
    ZeroGyro(ZeroEncoders(Drivetrain(0.0, 0.0, leftSpeed, rightSpeed, 0.0, false, Idle, Idle)))
  }

  function ZeroEncoders(d: Drivetrain): (r: Drivetrain)
    ensures r.leftDistance == 0.0 && r.rightDistance == 0.0
    ensures r == d.(leftDistance := 0.0, rightDistance := 0.0)
  {
    d.(leftDistance := 0.0, rightDistance := 0.0)
  }

  function ZeroGyro(d: Drivetrain): (r: Drivetrain)
    ensures r == d.(heading := 0.0)
  {
    d.(heading := 0.0)
  }

  /** Mean of the two sides, as `speed` and `distance` compute it. */
  function Average(left: real, right: real): (r: real)
    ensures r - left == right - r
    ensures left <= right ==> left <= r <= right
    ensures right <= left ==> right <= r <= left
  {
    (left + right) / 2.0
  }

  /** `speed`: the mean velocity of the two sides. */
  function Speed(d: Drivetrain): (r: real)
    ensures r - d.leftSpeed == d.rightSpeed - r
  {
    Average(d.leftSpeed, d.rightSpeed)
  }

  /** `distance`: the mean encoder position of the two sides. */
  function Distance(d: Drivetrain): (r: real)
    ensures r - d.leftDistance == d.rightDistance - r
  {
    Average(d.leftDistance, d.rightDistance)
  }

  /** `driveOpenLoop(leftPower, rightPower)`: each side receives its own power. */
  function DriveOpenLoop(d: Drivetrain, leftPower: real, rightPower: real): (r: Drivetrain)
    ensures r.left == Percent(leftPower) && r.right == Percent(rightPower)
    ensures r.(left := d.left, right := d.right) == d
  {
    d.(left := Percent(leftPower), right := Percent(rightPower))
  }

  /** `startFollowing()`: zero encoders and gyro, then raise `followingPath`. */
  function StartFollowing(d: Drivetrain): (r: Drivetrain)
    ensures r.followingPath
    ensures r.leftDistance == 0.0 && r.rightDistance == 0.0 && r.heading == 0.0
    ensures Distance(r) == 0.0
    ensures r.(leftDistance := d.leftDistance, rightDistance := d.rightDistance,
               heading := d.heading, followingPath := d.followingPath) == d
  {
    ZeroGyro(ZeroEncoders(d)).(followingPath := true)
  }

  /** `stopFollowing()`: only lowers `followingPath`. */
  function StopFollowing(d: Drivetrain): (r: Drivetrain)
    ensures !r.followingPath
    ensures r.(followingPath := d.followingPath) == d
  {
    d.(followingPath := false)
  }

  /** A follow cycle leaves the drivetrain as it was except for the zeroed sensors. */
  lemma FollowCycle(d: Drivetrain)
    requires !d.followingPath
    ensures StopFollowing(StartFollowing(d)) == d.(leftDistance := 0.0, rightDistance := 0.0, heading := 0.0)
  {
  }
}
