/** manipulators/intake/Intake.kt: the intake's raise/lower solenoid behind a
    change-only `state` setter, and its roller motor. */
module Intake {
  import opened Actuators

  datatype IntakeState = Lowered | Raised

  /** `IntakeState.position`. */
  function Position(s: IntakeState): (v: SolenoidValue)
    ensures s == Lowered <==> v == Reverse
    ensures s == Raised <==> v == Forward
  {
    match s
    case Lowered => Reverse
    case Raised => Forward
  }

  datatype IntakeSubsystem = IntakeSubsystem(arm: Latched<IntakeState>, roller: MotorCommand)

  /** The intake starts RAISED, with nothing written and the roller not commanded. */
  function Initial(): (i: IntakeSubsystem)
    ensures i.arm.state == Raised && |i.arm.writes| == 0 && i.roller == Idle
  {
    IntakeSubsystem(Actuators.Initial(Raised), Idle)
  }

  /** The `state` setter; the roller is untouched. */
  function SetState(i: IntakeSubsystem, v: IntakeState): (r: IntakeSubsystem)
    ensures r.arm.state == v && r.roller == i.roller
    ensures i.arm.state == v ==> r == i
    ensures i.arm.state != v ==> r.arm.writes == i.arm.writes + [Position(v)]
  {
    i.(arm := Assign(i.arm, v, Position))
  }

  /** `spin()`: the roller runs at `ROLLER_SPEED` (a parameter here); the arm is untouched. */
  function Spin(i: IntakeSubsystem, rollerSpeed: real): (r: IntakeSubsystem)
    ensures r.roller == Percent(rollerSpeed) && r.arm == i.arm
  {
    i.(roller := Percent(rollerSpeed))
  }

  /** `stop()`: the roller stops; the arm is untouched. */
  function Stop(i: IntakeSubsystem): (r: IntakeSubsystem)
    ensures r.roller == Stopped && r.arm == i.arm
  {
    i.(roller := Stopped)
  }

  /** Lowering, spinning, raising and stopping from the start writes reverse then
      forward and leaves the roller stopped. */
  lemma IntakeCycle(rollerSpeed: real)
    ensures Stop(SetState(Spin(SetState(Initial(), Lowered), rollerSpeed), Raised))
         == IntakeSubsystem(Latched(Raised, [Reverse, Forward]), Stopped)
  {
  }

  /** Motor commands never touch the solenoid, so it keeps tracking the arm's state. */
  lemma MotorCommandsKeepTracking(i: IntakeSubsystem, rollerSpeed: real, v: IntakeState)
    requires Tracks(i.arm, Position)
    ensures Tracks(Spin(i, rollerSpeed).arm, Position) && Tracks(Stop(i).arm, Position)
    ensures Tracks(SetState(i, v).arm, Position)
  {
  }
}
