/** lift/LiftCommands.kt: `manualControl` sends the scaled joystick speed to the lift
    every tick, holding it at a small upward output at the top switch, and stops the
    motor when the command ends. `liftSpeedScalar` is a parameter. */
module LiftCommands {
  import opened Actuators

  /** The output that holds the lift at the top. */
  const HoldAtTop: real := 0.04

  /** One tick's output: at the top, any non-negative request becomes the hold output. */
  function Output(speed: real, atTop: bool): (out: real)
    ensures !atTop ==> out == speed
    ensures atTop && speed >= 0.0 ==> out == HoldAtTop
    ensures atTop && speed < 0.0 ==> out == speed
    ensures atTop ==> out <= HoldAtTop
  {
    if atTop && speed >= 0.0 then HoldAtTop else speed
  }

  /** What one tick reads: the secondary joystick's y axis and the top switch. */
  datatype Tick = Tick(joystickY: real, atTop: bool)

  /** One tick's command: `speed = liftSpeedScalar * y`, then the top-switch rule. */
  function TickCommand(t: Tick, liftSpeedScalar: real): MotorCommand {
    Percent(Output(liftSpeedScalar * t.joystickY, t.atTop))
  }

  /** The motor commands of a `manualControl` run over the ticks before it ends (by
      cancellation): one speed per tick, then the `finally` stop. */
  function ManualControl(ticks: seq<Tick>, liftSpeedScalar: real): (cmds: seq<MotorCommand>)
    ensures |cmds| == |ticks| + 1
    ensures cmds[|ticks|] == Stopped
    ensures forall i :: 0 <= i < |ticks| ==>
      cmds[i] == TickCommand(ticks[i], liftSpeedScalar)
  {
    var speeds := seq(|ticks|, i requires 0 <= i < |ticks| => TickCommand(ticks[i], liftSpeedScalar));
    speeds + [Stopped]
  }

  /** At the top the lift is never driven up faster than the hold output, and the last
      command is always a stop. */
  lemma NeverDrivenPastTop(ticks: seq<Tick>, liftSpeedScalar: real)
    ensures var cmds := ManualControl(ticks, liftSpeedScalar);
      cmds[|cmds| - 1] == Stopped
      && forall i :: 0 <= i < |ticks| && ticks[i].atTop ==> cmds[i].Percent? && cmds[i].output <= HoldAtTop
  {
  }

  /** Away from the top the lift follows the scaled joystick, so with the scalar at one
      the joystick reaches the motor unchanged. */
  lemma PassThroughBelowTop(ticks: seq<Tick>, liftSpeedScalar: real)
    ensures var cmds := ManualControl(ticks, liftSpeedScalar);
      forall i :: 0 <= i < |ticks| && !ticks[i].atTop ==> cmds[i] == Percent(liftSpeedScalar * ticks[i].joystickY)
    ensures var cmds := ManualControl(ticks, 1.0);
      forall i :: 0 <= i < |ticks| && !ticks[i].atTop ==> cmds[i] == Percent(ticks[i].joystickY)
  {
  }
}
