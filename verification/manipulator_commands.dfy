/** manipulators/ManipulatorCommands.kt: which mechanism `releaseCurrent` uses, and
    `intakeCargo`, which lowers the intake, runs intake and conveyor every tick until
    cargo is in the conveyor with the lift off the bottom, and always raises the intake
    again on the way out. */
module ManipulatorCommands {
  import opened Wrappers
  import opened Actuators
  import Util
  import Manipulators
  import Intake
  import ConveyorCommands

  /** The two release actions `releaseCurrent` can run. */
  datatype Release = OpenBucket | ReleaseClaw

  /** `releaseCurrent()`: cargo opens the bucket; a hatch panel, or nothing, releases
      the claw. */
  function ReleaseCurrent(m: Manipulators.Manipulators): (r: Release)
    ensures r == OpenBucket <==> Manipulators.CurrentGamePiece(m) == Some(Manipulators.Cargo)
    ensures r == ReleaseClaw <==> m.hasHatchPanel || !m.hasCargo
  {
    match Manipulators.CurrentGamePiece(m)
    case Some(Cargo) => OpenBucket
    case _ => ReleaseClaw
  }

  /** How an `intakeCargo` run ended. */
  datatype IntakeRun = IntakeRun(
    intake: Intake.IntakeSubsystem, conveyor: MotorCommand,
    ticksRun: nat, stoppedBySensor: bool, followUp: Option<real>)

  /** `intakeCargo(extraTime)` over the ticks that occur before any cancellation, with
      `ROLLER_SPEED` and `CONVEYOR_SPEED` as parameters. The `finally` block runs on
      either exit. The follow-up job is reported, not modelled. */
  method IntakeCargo(intake: Intake.IntakeSubsystem, conveyor: MotorCommand,
                     ticks: seq<ConveyorCommands.Tick>, extraTime: Option<real>,
                     rollerSpeed: real, conveyorSpeed: real)
    returns (r: IntakeRun)
    ensures r.intake.arm.state == Intake.Raised
    ensures intake.arm.state == Intake.Raised ==> r.intake.arm.writes == intake.arm.writes + [Reverse, Forward]
    ensures intake.arm.state == Intake.Lowered ==> r.intake.arm.writes == intake.arm.writes + [Forward]
    ensures r.ticksRun == Util.TicksUntil(ConveyorCommands.StopFlags(ticks))
    ensures 0 < |ticks| ==> 0 < r.ticksRun
    ensures r.stoppedBySensor <==> ConveyorCommands.CargoArrives(ticks)
    ensures r.followUp == extraTime
    ensures extraTime.None? ==> r.intake.roller == Stopped && r.conveyor == Stopped
    ensures extraTime.Some? && r.ticksRun > 0 ==>
      r.intake.roller == Percent(rollerSpeed) && r.conveyor == Percent(conveyorSpeed)
  {
    var stop := ConveyorCommands.StopFlags(ticks);
    var arm := Intake.SetState(intake, Intake.Lowered);
    var state := arm;
    var motor := conveyor;
    var i := 0;
    var stopped := false;
    while i < |ticks| && !stopped
      invariant 0 <= i <= |ticks|
      invariant forall k :: 0 <= k < i - 1 ==> !stop[k]
      invariant stopped <==> i > 0 && stop[i - 1]
      invariant state.arm == arm.arm
      invariant i > 0 ==> motor == Percent(conveyorSpeed) && state.roller == Percent(rollerSpeed)
    {
      motor := Percent(conveyorSpeed);
      state := Intake.Spin(state, rollerSpeed);
      stopped := ticks[i].hasCargoInConveyor && !ticks[i].atBottom;
      i := i + 1;
    }
    Util.TicksUntilCharacterised(stop, i);
    assert stopped <==> ConveyorCommands.CargoArrives(ticks) by {
      if ConveyorCommands.CargoArrives(ticks) {
        var k :| 0 <= k < |ticks| && ticks[k].hasCargoInConveyor && !ticks[k].atBottom;
        assert stop[k];
      }
    }
    state := Intake.SetState(state, Intake.Raised);
    if extraTime.None? {
      state := Intake.Stop(state);
      motor := Stopped;
    }
    r := IntakeRun(state, motor, i, stopped, extraTime);
  }
}
