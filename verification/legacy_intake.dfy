/** intake/Intake.kt (the earlier snapshot): one call lowers the intake and runs the
    roller, another raises it and stops the roller. */
module LegacyIntake {
  import opened Actuators

  datatype IntakeState = Lowered | Raised

  /** `IntakeState.position`. */
  function Position(s: IntakeState): (v: SolenoidValue)
    ensures s == Lowered <==> v == Reverse
    ensures s == Raised <==> v == Forward
  {
    match s
    case Lowered => Reverse
    case Raised => Forward
  }

  datatype LegacyIntake = LegacyIntake(arm: Latched<IntakeState>, roller: MotorCommand)

  /** The intake starts RAISED, with nothing written and the roller not commanded. */
  function Initial(): (i: LegacyIntake)
    ensures i.arm.state == Raised && |i.arm.writes| == 0 && i.roller == Idle
  {
    LegacyIntake(Actuators.Initial(Raised), Idle)
  }

  /** `intakeCargo()`: lower (writing only on change), then run the roller at
      `ROLLER_SPEED` (a parameter here). */
  function IntakeCargo(i: LegacyIntake, rollerSpeed: real): (r: LegacyIntake)
    ensures r.arm.state == Lowered && r.roller == Percent(rollerSpeed)
    ensures i.arm.state == Lowered ==> r.arm.writes == i.arm.writes
    ensures i.arm.state == Raised ==> r.arm.writes == i.arm.writes + [Reverse]
  {
    LegacyIntake(Assign(i.arm, Lowered, Position), Percent(rollerSpeed))
  }

  /** `stop()`: raise (writing only on change), then stop the roller. */
  function Stop(i: LegacyIntake): (r: LegacyIntake)
    ensures r.arm.state == Raised && r.roller == Stopped
    ensures i.arm.state == Raised ==> r.arm.writes == i.arm.writes
    ensures i.arm.state == Lowered ==> r.arm.writes == i.arm.writes + [Forward]
  {
    LegacyIntake(Assign(i.arm, Raised, Position), Stopped)
  }

  /** A stop undoes an intake run: arm and roller return to the same state whatever the
      starting point. The pair costs exactly two writes from a raised arm, and from a
      lowered arm it is indistinguishable from the stop alone. */
  lemma IntakeThenStop(i: LegacyIntake, rollerSpeed: real)
    ensures Stop(IntakeCargo(i, rollerSpeed)).arm.state == Raised
    ensures Stop(IntakeCargo(i, rollerSpeed)).roller == Stopped
    ensures i.arm.state == Raised ==> Stop(IntakeCargo(i, rollerSpeed)).arm.writes == i.arm.writes + [Reverse, Forward]
    ensures i.arm.state == Lowered ==> Stop(IntakeCargo(i, rollerSpeed)) == Stop(i)
  {
  }
}
