/** climber/Climber.kt: the climber's front and rear leg locks (servo pairs behind
    `frontLocked` / `rearLocked` setters and the combined `locked` property), the leg
    speed setters that unlock a leg before it retracts, the over-step range check, and
    the climber drive wheels. */
module Climber {
  import opened Wrappers
  import opened Actuators
  import Servo

  /** `ClimberState.position` (feet). */
  datatype ClimberState = Up | Level2 | Level3

  function StatePosition(s: ClimberState): (p: real)
    ensures s == Up <==> p < 0.0
    ensures s == Level3 <==> p > 1.0
  {
    match s
    case Up => -0.5 / 12.0
    case Level2 => 6.0 / 12.0
    case Level3 => 19.25 / 12.0
  }

  /** ClimberConstants.kt: `LOCKED_POSITION`, `UNLOCKED_POSITION`, `CLIMBER_DRIVE_SPEED`. */
  const LockedPosition: real := 0.0
  const UnlockedPosition: real := 0.5
  const ClimberDriveSpeed: real := 0.275

  /** The lock servo pairs: one follower each; the front inverts its follower, the rear
      inverts both. */
  const FrontLock: Servo.Servo := Servo.Servo(1, false, true)
  const RearLock: Servo.Servo := Servo.Servo(1, true, true)

  /** The servo position for a lock flag. */
  function LockPosition(locked: bool): (p: real)
    ensures locked <==> p == LockedPosition
    ensures !locked <==> p == UnlockedPosition
  {
    if locked then LockedPosition else UnlockedPosition
  }

  /** The climber's observable state: the two lock flags, what each lock servo pair was
      last sent (if anything), and the two leg motors' commands. */
  datatype Climber = Climber(
    frontLocked: bool, rearLocked: bool,
    frontServo: Option<Servo.ServoOutput>, rearServo: Option<Servo.ServoOutput>,
    frontLegs: MotorCommand, rearLegs: MotorCommand)

  function SetFrontLocked(c: Climber, value: bool): (r: Climber)
    ensures r.frontLocked == value
    ensures r.frontServo == Some(Servo.Set(FrontLock, LockPosition(value)))
    ensures r.(frontLocked := c.frontLocked, frontServo := c.frontServo) == c
  {
    c.(frontLocked := value, frontServo := Some(Servo.Set(FrontLock, LockPosition(value))))
  }

  function SetRearLocked(c: Climber, value: bool): (r: Climber)
    ensures r.rearLocked == value
    ensures r.rearServo == Some(Servo.Set(RearLock, LockPosition(value)))
    ensures r.(rearLocked := c.rearLocked, rearServo := c.rearServo) == c
  {
    c.(rearLocked := value, rearServo := Some(Servo.Set(RearLock, LockPosition(value))))
  }

  /** The `locked` getter. */
  function Locked(c: Climber): bool {
    c.frontLocked && c.rearLocked
  }

  /** The `locked` setter: front, then rear. */
  function SetLocked(c: Climber, value: bool): (r: Climber)
    ensures Locked(r) == value
    ensures r.frontLocked == value && r.rearLocked == value
    ensures r.frontLegs == c.frontLegs && r.rearLegs == c.rearLegs
  {
    SetRearLocked(SetFrontLocked(c, value), value)
  }

  /** Each lock servo pair holds the position of its flag. */
  predicate ServosAgree(c: Climber) {
    c.frontServo == Some(Servo.Set(FrontLock, LockPosition(c.frontLocked)))
    && c.rearServo == Some(Servo.Set(RearLock, LockPosition(c.rearLocked)))
  }

  /** The object after construction: the field initializers (false, bypassing the
      setters) and then `locked = true` in `init`. */
  function Initial(): (c: Climber)
    ensures Locked(c) && ServosAgree(c)
    ensures c.frontLegs == Idle && c.rearLegs == Idle
  {
    SetLocked(Climber(false, false, None, None, Idle, Idle), true)
  }

  /** `setFrontSpeed(speed)`: a retracting (non-positive) speed unlocks the front legs
      first; the speed goes to the front leg motor. */
  function SetFrontSpeed(c: Climber, speed: real): (r: Climber)
    ensures r.frontLegs == Percent(speed)
    ensures speed <= 0.0 ==> !r.frontLocked
    ensures speed > 0.0 ==> r.frontLocked == c.frontLocked && r.frontServo == c.frontServo
    ensures r.rearLocked == c.rearLocked && r.rearServo == c.rearServo && r.rearLegs == c.rearLegs
  {
    var unlocked := if speed <= 0.0 then SetFrontLocked(c, false) else c;
    unlocked.(frontLegs := Percent(speed))
  }

  /** `setRearSpeed(speed)`: the mirror image for the rear legs. */
  function SetRearSpeed(c: Climber, speed: real): (r: Climber)
    ensures r.rearLegs == Percent(speed)
    ensures speed <= 0.0 ==> !r.rearLocked
    ensures speed > 0.0 ==> r.rearLocked == c.rearLocked && r.rearServo == c.rearServo
    ensures r.frontLocked == c.frontLocked && r.frontServo == c.frontServo && r.frontLegs == c.frontLegs
  {
    var unlocked := if speed <= 0.0 then SetRearLocked(c, false) else c;
    unlocked.(rearLegs := Percent(speed))
  }

  /** `stopClimber()`, which is also `reset()`: lock, then stop both leg motors. */
  function StopClimber(c: Climber): (r: Climber)
    ensures Locked(r)
    ensures r.frontLegs == Stopped && r.rearLegs == Stopped
    ensures r.frontServo == Some(Servo.Set(FrontLock, LockedPosition))
    ensures r.rearServo == Some(Servo.Set(RearLock, LockedPosition))
  {
    SetLocked(c, true).(rearLegs := Stopped, frontLegs := Stopped)
  }

  function Reset(c: Climber): (r: Climber)
    ensures Locked(r) && ServosAgree(r)
  {
    StopClimber(c)
  }

  /** Every operation keeps each lock servo pair at the position of its flag. */
  lemma OperationsKeepServosAgreeing(c: Climber, speed: real, value: bool)
    requires ServosAgree(c)
    ensures ServosAgree(SetFrontSpeed(c, speed)) && ServosAgree(SetRearSpeed(c, speed))
    ensures ServosAgree(SetLocked(c, value)) && ServosAgree(StopClimber(c))
  {
  }

  /** Locked, the front pair reads 0 on its primary and 1 on its inverted follower; the
      fully inverted rear pair reads 1 on both. */
  lemma LockedServoOutputs()
    ensures Initial().frontServo == Some(Servo.ServoOutput(0.0, [1.0]))
    ensures Initial().rearServo == Some(Servo.ServoOutput(1.0, [1.0]))
  {
    assert Servo.Set(FrontLock, 0.0).followers == [1.0];
    assert Servo.Set(RearLock, 0.0).followers == [1.0];
  }

  /** Driving a leg out keeps it locked; retracting either leg leaves the climber
      unlocked, and only a stop locks it again. */
  lemma RetractUnlocks(c: Climber, front: real, rear: real)
    requires Locked(c)
    ensures front > 0.0 && rear > 0.0 ==> Locked(SetRearSpeed(SetFrontSpeed(c, front), rear))
    ensures front <= 0.0 || rear <= 0.0 ==> !Locked(SetRearSpeed(SetFrontSpeed(c, front), rear))
    ensures Locked(StopClimber(SetRearSpeed(SetFrontSpeed(c, front), rear)))
  {
  }

  /** `frontOverStep` / `rearOverStep`: the LiDAR's averaged reading is above 800. */
  function OverStep(lidarAverage: int): bool {
    lidarAverage > 800
  }

  /** ClimberDrive: `driveOpenLoop(reverse)` and `stop()`. */
  function DriveOpenLoop(reverse: bool): (m: MotorCommand)
    ensures m.Percent?
    ensures reverse ==> m.output == -ClimberDriveSpeed
    ensures !reverse ==> m.output == ClimberDriveSpeed
  {
    Percent(ClimberDriveSpeed * if reverse then -1.0 else 1.0)
  }

  /** The two directions are opposite and never zero. */
  lemma DriveDirectionsOpposite()
    ensures DriveOpenLoop(true).output == -DriveOpenLoop(false).output
    ensures DriveOpenLoop(false).output > 0.0
  {
  }

  /** The over-step threshold is strict. */
  lemma OverStepThreshold(v: int)
    ensures OverStep(v) <==> v >= 801
    ensures !OverStep(800)
  {
  }
}
